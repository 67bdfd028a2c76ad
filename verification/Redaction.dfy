/** Removal of secrets from JSON-like values. */
module Redaction {
  import opened Common

  const MARK := "[REDACTED]"
  const WORD := "REDACTED"

  predicate StartsWith(text: string, s: string) {
    |s| <= |text| && text[..|s|] == s
  }

  ghost predicate Occurs(s: string, text: string) {
    exists i | 0 <= i <= |text| :: StartsWith(text[i..], s)
  }

  predicate BracketFree(s: string) {
    forall i | 0 <= i < |s| :: s[i] != '[' && s[i] != ']'
  }

  /** `split`: cut at every leftmost occurrence of a non-empty separator. */
  function Split(text: string, sep: string): (parts: seq<string>)
    requires sep != ""
    ensures |parts| >= 1
    decreases |text|
  {
    if text == "" then [""]
    else if StartsWith(text, sep) then [""] + Split(text[|sep|..], sep)
    else
      var rest := Split(text[1..], sep);
      [[text[0]] + rest[0]] + rest[1..]
  }

  function JoinWith(parts: seq<string>, glue: string): string
    requires parts != []
  {
    if |parts| == 1 then parts[0] else parts[0] + glue + JoinWith(parts[1..], glue)
  }

  /** One secret replaced by the mark. */
  function Replaced(text: string, secret: string): string
    requires secret != ""
  {
    JoinWith(Split(text, secret), MARK)
  }

  lemma ReplacedUnfolds(text: string, secret: string)
    requires secret != "" && text != ""
    ensures Replaced(text, secret) == if StartsWith(text, secret) then MARK + Replaced(text[|secret|..], secret)
                                      else [text[0]] + Replaced(text[1..], secret)
  {
    var parts := Split(text, secret);
    if StartsWith(text, secret) {
      assert parts[1..] == Split(text[|secret|..], secret);
    } else {
      var rest := Split(text[1..], secret);
      assert parts[1..] == rest[1..] && parts[0] == [text[0]] + rest[0];
    }
  }

  function Redacted(text: string, secrets: seq<string>): string
    decreases |secrets|
  {
    if secrets == [] then text
    else Redacted(if secrets[0] != "" then Replaced(text, secrets[0]) else text, secrets[1..])
  }

  method RedactString(text: string, secrets: seq<string>) returns (out: string)
    ensures out == Redacted(text, secrets)
  {
    out := text;
    var i := 0;
    while i < |secrets|
      invariant i <= |secrets| && Redacted(out, secrets[i..]) == Redacted(text, secrets)
    {
      assert secrets[i..][1..] == secrets[i + 1..];
      if |secrets[i]| > 0 {
        out := Replaced(out, secrets[i]);
      }
      i := i + 1;
    }
  }

  // ------------------------------------------------------------------
  // Occurrences
  // ------------------------------------------------------------------

  lemma OccursAt(s: string, text: string, i: nat)
    requires i <= |text| && StartsWith(text[i..], s)
    ensures Occurs(s, text)
  {
  }

  lemma OccursTail(s: string, text: string, n: nat)
    requires n <= |text| && Occurs(s, text[n..])
    ensures Occurs(s, text)
  {
    var i :| 0 <= i <= |text[n..]| && StartsWith(text[n..][i..], s);
    assert text[n..][i..] == text[n + i..];
    OccursAt(s, text, n + i);
  }

  lemma OccursInside(s: string, a: string, m: string, b: string)
    requires Occurs(s, m)
    ensures Occurs(s, a + m + b)
  {
    var i :| 0 <= i <= |m| && StartsWith(m[i..], s);
    var t := a + m + b;
    assert t[|a| + i..] == m[i..] + b;
    assert m[i..][..|s|] == t[|a| + i..][..|s|];
    OccursAt(s, t, |a| + i);
  }

  predicate EndsWith(text: string, s: string) {
    |s| <= |text| && text[|text| - |s|..] == s
  }

  /**
   * `s` does not overlap the mark: neither contains the other, and no proper part at one end
   * of `s` is the other end of the mark.
   */
  ghost predicate Apart(s: string) {
    && s != "" && !Occurs(s, MARK) && !Occurs(MARK, s)
    && forall k | 0 < k < |s| :: !EndsWith(MARK, s[..k]) && !StartsWith(MARK, s[k..])
  }

  lemma NoBracketIn(s: string, t: string, i: nat)
    requires BracketFree(s) && i + |s| <= |t| && t[i..i + |s|] == s
    ensures forall j | i <= j < i + |s| :: t[j] != '[' && t[j] != ']'
  {
    forall j | i <= j < i + |s| ensures t[j] != '[' && t[j] != ']' {
      assert s[j - i] == t[j];
    }
  }

  lemma WordOfMark()
    ensures |MARK| == 10 && MARK[0] == '[' && MARK[9] == ']' && MARK[1..9] == WORD
  {
  }

  lemma {:induction false} InMiddle(s: string, m: string, i: nat)
    requires BracketFree(s) && s != "" && |m| == 10 && m[0] == '[' && m[9] == ']' && i <= 10 && StartsWith(m[i..], s)
    ensures Occurs(s, m[1..9])
  {
    assert m[i..i + |s|] == m[i..][..|s|];
    NoBracketIn(s, m, i);
    if 0 < i && i + |s| <= 9 {
      assert m[1..9][i - 1..][..|s|] == m[i..i + |s|];
      OccursAt(s, m[1..9], i - 1);
    }
  }

  /** Without brackets, standing in the mark means standing in its word. */
  lemma InWord(s: string)
    requires BracketFree(s) && s != ""
    ensures Occurs(s, MARK) <==> Occurs(s, WORD)
  {
    WordOfMark();
    if Occurs(s, WORD) {
      OccursInside(s, "[", WORD, "]");
      assert "[" + WORD + "]" == MARK;
    }
    if i :| 0 <= i <= |MARK| && StartsWith(MARK[i..], s) {
      InMiddle(s, MARK, i);
    }
  }

  lemma LastOfMark(p: string)
    requires p != "" && EndsWith(MARK, p)
    ensures p[|p| - 1] == ']'
  {
    assert p[|p| - 1] == MARK[|MARK| - |p|..][|p| - 1] == MARK[9];
  }

  lemma FirstOfMark(p: string)
    requires p != "" && StartsWith(MARK, p)
    ensures p[0] == '['
  {
    assert p[0] == MARK[..|p|][0] == MARK[0];
  }

  lemma MarkHasBracket(s: string)
    requires Occurs(MARK, s)
    ensures !BracketFree(s)
  {
    var i :| 0 <= i <= |s| && StartsWith(s[i..], MARK);
    assert s[i] == s[i..][..|MARK|][0];
  }

  /** Without brackets, only the word can get in the way. */
  lemma BracketFreeApart(s: string)
    requires BracketFree(s) && s != ""
    ensures Apart(s) <==> !Occurs(s, WORD)
  {
    InWord(s);
    if Occurs(MARK, s) { MarkHasBracket(s); }
    forall k | 0 < k < |s| ensures !EndsWith(MARK, s[..k]) && !StartsWith(MARK, s[k..]) {
      var head, tail := s[..k], s[k..];
      assert head[k - 1] == s[k - 1] && tail[0] == s[k];
      if EndsWith(MARK, head) { LastOfMark(head); }
      if StartsWith(MARK, tail) { FirstOfMark(tail); }
    }
  }

  /** What starts in the mark at the head of a text either overlaps it or is the mark's own. */
  lemma HeadInMark(s: string, t: string, i: nat)
    requires i < 10 && s != "" && |t| >= 10 && t[..10] == MARK && StartsWith(t[i..], s)
    ensures !Apart(s)
  {
    if i + |s| <= 10 {
      assert MARK[i..][..|s|] == t[i..][..|s|];
      OccursAt(s, MARK, i);
    } else {
      var k := 10 - i;
      assert s[..k] == t[i..][..|s|][..k] == t[i..10] == MARK[i..];
      if i == 0 {
        assert s[0..] == s;
        OccursAt(MARK, s, 0);
      } else {
        assert EndsWith(MARK, s[..k]);
      }
    }
  }

  /** What does not overlap the mark and stands in a marked text stands behind the mark. */
  lemma BehindMark(s: string, rest: string)
    requires s != "" && Occurs(s, MARK + rest)
    ensures Apart(s) ==> Occurs(s, rest)
  {
    var t := MARK + rest;
    var i :| 0 <= i <= |t| && StartsWith(t[i..], s);
    if i >= 10 {
      assert t[i..] == rest[i - 10..];
      OccursAt(s, rest, i - 10);
    } else {
      HeadInMark(s, t, i);
    }
  }

  /** If a marked text starts with an end of `s`, then `s` overlaps the mark. */
  lemma TailInMark(s: string, j: nat, t: string)
    requires j < |s| && |t| >= 10 && t[..10] == MARK && StartsWith(t, s[j..])
    ensures !Apart(s)
  {
    var p := s[j..];
    if j == 0 {
      assert t[0..] == t && p == s;
      HeadInMark(s, t, 0);
    } else if |p| <= 10 {
      assert MARK[..|p|] == t[..|p|];
      assert StartsWith(MARK, s[j..]);
    } else {
      assert p[..10] == t[..|p|][..10] == t[..10];
      OccursAt(MARK, s, j);
    }
  }

  /** Replacing cannot put an end of such a secret at the start of a text where there was none. */
  lemma {:induction false} StartIsOld(s: string, j: nat, text: string, secret: string)
    requires Apart(s) && j <= |s| && secret != "" && StartsWith(Replaced(text, secret), s[j..])
    ensures StartsWith(text, s[j..])
    decreases |s| - j
  {
    if j < |s| && text != "" {
      ReplacedUnfolds(text, secret);
      var r, p := Replaced(text, secret), s[j..];
      if StartsWith(text, secret) {
        assert r[..10] == MARK;
        TailInMark(s, j, r);
      } else {
        var rest := Replaced(text[1..], secret);
        assert r[1..] == rest && p[1..] == s[j + 1..];
        assert r[..|p|][0] == p[0];
        assert rest[..|p| - 1] == p[1..] by { assert rest[..|p| - 1] == r[..|p|][1..]; }
        StartIsOld(s, j + 1, text[1..], secret);
        assert text[..|p|] == [text[0]] + text[1..][..|p| - 1];
      }
    }
  }

  lemma StartIsOldWhole(s: string, text: string, secret: string)
    requires Apart(s) && secret != "" && StartsWith(Replaced(text, secret), s)
    ensures StartsWith(text, s)
  {
    assert s[0..] == s;
    StartIsOld(s, 0, text, secret);
  }

  /** Replacing any secret creates no new occurrence of one that does not overlap the mark. */
  lemma {:induction false} NothingNew(s: string, text: string, secret: string)
    requires Apart(s) && secret != "" && Occurs(s, Replaced(text, secret))
    ensures Occurs(s, text)
    decreases |text|
  {
    if text != "" {
      ReplacedUnfolds(text, secret);
      var r := Replaced(text, secret);
      if StartsWith(text, secret) {
        BehindMark(s, Replaced(text[|secret|..], secret));
        NothingNew(s, text[|secret|..], secret);
        OccursTail(s, text, |secret|);
      } else if StartsWith(r, s) {
        StartIsOldWhole(s, text, secret);
        assert text[0..] == text;
        OccursAt(s, text, 0);
      } else {
        LaterOccurrence(s, r);
        assert r[1..] == Replaced(text[1..], secret);
        NothingNew(s, text[1..], secret);
        OccursTail(s, text, 1);
      }
    }
  }

  lemma LaterOccurrence(s: string, t: string)
    requires t != "" && Occurs(s, t) && !StartsWith(t, s)
    ensures Occurs(s, t[1..])
  {
    var i :| 0 <= i <= |t| && StartsWith(t[i..], s);
    assert t[0..] == t;
    assert t[i..] == t[1..][i - 1..];
    OccursAt(s, t[1..], i - 1);
  }

  /** Once replaced, a secret that does not overlap the mark is gone. */
  lemma {:induction false} ReplacedIsGone(text: string, secret: string)
    requires Apart(secret)
    ensures !Occurs(secret, Replaced(text, secret))
    decreases |text|
  {
    if text == "" {
      assert Replaced(text, secret) == "";
    } else {
      ReplacedUnfolds(text, secret);
      var r := Replaced(text, secret);
      if StartsWith(text, secret) {
        ReplacedIsGone(text[|secret|..], secret);
        if Occurs(secret, r) { BehindMark(secret, Replaced(text[|secret|..], secret)); }
      } else if Occurs(secret, r) {
        if StartsWith(r, secret) {
          StartIsOldWhole(secret, text, secret);
        } else {
          LaterOccurrence(secret, r);
          assert r[1..] == Replaced(text[1..], secret);
          ReplacedIsGone(text[1..], secret);
        }
      }
    }
  }

  lemma {:induction false} GoneStaysGone(s: string, text: string, secrets: seq<string>)
    requires Apart(s) && !Occurs(s, text)
    ensures !Occurs(s, Redacted(text, secrets))
    decreases |secrets|
  {
    if secrets != [] {
      if secrets[0] != "" {
        if Occurs(s, Replaced(text, secrets[0])) { NothingNew(s, text, secrets[0]); }
        GoneStaysGone(s, Replaced(text, secrets[0]), secrets[1..]);
      } else {
        GoneStaysGone(s, text, secrets[1..]);
      }
    }
  }

  lemma {:induction false} SecretRemoved(s: string, text: string, secrets: seq<string>)
    requires s in secrets && Apart(s)
    ensures !Occurs(s, Redacted(text, secrets))
    decreases |secrets|
  {
    var next := if secrets[0] != "" then Replaced(text, secrets[0]) else text;
    if s == secrets[0] {
      ReplacedIsGone(text, s);
      GoneStaysGone(s, next, secrets[1..]);
    } else {
      SecretRemoved(s, next, secrets[1..]);
    }
  }

  /** Without an occurrence nothing is replaced; with one, a mark appears. */
  lemma {:induction false} ReplacedOrMarked(text: string, secret: string)
    requires secret != ""
    ensures Occurs(secret, text) ==> Occurs(MARK, Replaced(text, secret))
    ensures !Occurs(secret, text) ==> Replaced(text, secret) == text
    decreases |text|
  {
    if text != "" {
      ReplacedUnfolds(text, secret);
      assert text[0..] == text;
      if StartsWith(text, secret) {
        OccursAt(secret, text, 0);
        assert MARK[0..] == MARK;
        OccursAt(MARK, MARK, 0);
        OccursInside(MARK, "", MARK, Replaced(text[|secret|..], secret));
        assert "" + MARK + Replaced(text[|secret|..], secret) == Replaced(text, secret);
      } else {
        ReplacedOrMarked(text[1..], secret);
        if Occurs(secret, text) {
          LaterOccurrence(secret, text);
          assert Replaced(text, secret)[1..] == Replaced(text[1..], secret);
          OccursTail(MARK, Replaced(text, secret), 1);
        } else {
          if Occurs(secret, text[1..]) { OccursTail(secret, text, 1); }
        }
      }
    }
  }

  lemma OccursTrans(s: string, m: string, text: string)
    requires Occurs(s, m) && Occurs(m, text)
    ensures Occurs(s, text)
  {
    var i :| 0 <= i <= |text| && StartsWith(text[i..], m);
    assert text == text[..i] + m + text[i + |m|..];
    OccursInside(s, text[..i], m, text[i + |m|..]);
  }

  lemma ReplacingKeepsSecret(s: string, text: string, secret: string)
    requires Occurs(s, MARK) && Occurs(s, text) && secret != ""
    ensures Occurs(s, Replaced(text, secret))
  {
    ReplacedOrMarked(text, secret);
    if Occurs(secret, text) {
      OccursTrans(s, MARK, Replaced(text, secret));
    }
  }

  /** A secret that the mark itself contains is never removed. */
  lemma {:induction false} MarkKeepsSecret(s: string, text: string, secrets: seq<string>)
    requires Occurs(s, MARK) && Occurs(s, text)
    ensures Occurs(s, Redacted(text, secrets))
    decreases |secrets|
  {
    if secrets != [] {
      if secrets[0] != "" {
        ReplacingKeepsSecret(s, text, secrets[0]);
        MarkKeepsSecret(s, Replaced(text, secrets[0]), secrets[1..]);
      } else {
        MarkKeepsSecret(s, text, secrets[1..]);
      }
    }
  }

  ghost predicate AlwaysRemoved(s: string, secrets: seq<string>) {
    forall text :: !Occurs(s, Redacted(text, secrets))
  }

  /**
   * For one list: a non-empty secret without brackets is removed from every text, whatever
   * other secrets surround it, exactly when "REDACTED" does not contain it.
   */
  lemma SecretRemovedIff(s: string, secrets: seq<string>)
    requires s in secrets && s != "" && BracketFree(s)
    ensures AlwaysRemoved(s, secrets) <==> !Occurs(s, WORD)
  {
    InWord(s);
    BracketFreeApart(s);
    if Occurs(s, WORD) {
      assert s[0..] == s;
      OccursAt(s, s, 0);
      MarkKeepsSecret(s, s, secrets);
      assert Occurs(s, Redacted(s, secrets));
    } else {
      forall text {
        SecretRemoved(s, text, secrets);
      }
    }
  }

  // ------------------------------------------------------------------
  // Secrets that overlap the mark
  // ------------------------------------------------------------------

  function Run(d: char, n: nat): string {
    seq(n, _ => d)
  }

  lemma RunStart(text: string, d: char, n: nat)
    requires StartsWith(text, Run(d, n))
    ensures forall k | 0 <= k < n :: text[k] == d
  {
    forall k | 0 <= k < n ensures text[k] == d {
      assert text[k] == text[..n][k];
    }
  }

  lemma OccursFits(s: string, text: string)
    requires Occurs(s, text)
    ensures |s| <= |text|
  {
  }

  lemma RunFirst(d: char, n: nat, b: string)
    requires n > |b|
    ensures Replaced(Run(d, n) + b, Run(d, n)) == MARK + b
  {
    var x := Run(d, n);
    var text := x + b;
    assert text[..n] == x && text[n..] == b;
    ReplacedUnfolds(text, x);
    if Occurs(x, b) { OccursFits(x, b); }
    ReplacedOrMarked(b, x);
  }

  lemma RunNotYet(a: string, d: char, n: nat, b: string)
    requires 0 < |a| < n && a[|a| - 1] != d
    ensures !StartsWith(a + Run(d, n) + b, Run(d, n))
  {
    var text := a + Run(d, n) + b;
    assert text[|a| - 1] == a[|a| - 1];
    if StartsWith(text, Run(d, n)) { RunStart(text, d, n); }
  }

  lemma RunStep(a: string, d: char, n: nat, b: string)
    requires 0 < |a| < n && a[|a| - 1] != d
    ensures Replaced(a + Run(d, n) + b, Run(d, n)) == [a[0]] + Replaced(a[1..] + Run(d, n) + b, Run(d, n))
  {
    var text := a + Run(d, n) + b;
    RunNotYet(a, d, n, b);
    ReplacedUnfolds(text, Run(d, n));
    assert text[1..] == a[1..] + Run(d, n) + b;
  }

  /** A run longer than what stands around it, and set off on the left, is replaced as a whole. */
  lemma {:induction false} RunReplaced(a: string, d: char, n: nat, b: string)
    requires n > |a| && n > |b| && (a == "" || a[|a| - 1] != d)
    ensures Replaced(a + Run(d, n) + b, Run(d, n)) == a + MARK + b
    decreases |a|
  {
    if a == "" {
      assert a + Run(d, n) + b == Run(d, n) + b;
      RunFirst(d, n, b);
      assert a + MARK + b == MARK + b;
    } else {
      RunStep(a, d, n, b);
      RunReplaced(a[1..], d, n, b);
      assert [a[0]] + (a[1..] + MARK + b) == a + MARK + b;
    }
  }

  /** A string found around such a run reaches into it with one of its ends. */
  lemma FoundAtRun(s: string, a: string, d: char, n: nat, b: string)
    requires |a| < |s| && |b| < |s| < n && Occurs(s, a + Run(d, n) + b)
    ensures s[0] == d || s[|s| - 1] == d
  {
    var t := a + Run(d, n) + b;
    var i :| 0 <= i <= |t| && StartsWith(t[i..], s);
    assert s[0] == t[i..][..|s|][0] == t[i];
    assert s[|s| - 1] == t[i..][..|s|][|s| - 1] == t[i + |s| - 1];
  }

  /** A character that is none of three. */
  function Other(x: char, y: char, z: char): (d: char)
    ensures d != x && d != y && d != z
  {
    if 'a' !in [x, y, z] then 'a' else if 'b' !in [x, y, z] then 'b' else if 'c' !in [x, y, z] then 'c' else 'd'
  }

  lemma TwoSecrets(text: string, s: string, x: string)
    requires s != "" && x != ""
    ensures Redacted(text, [s, x]) == Replaced(Replaced(text, s), x)
  {
    var second := [x];
    assert [s, x][1..] == second && second[1..] == [];
    assert Redacted(Replaced(text, s), second) == Redacted(Replaced(Replaced(text, s), x), second[1..]);
  }

  /** A string with other ends than the run's character is not found there. */
  lemma RunSpared(s: string, a: string, d: char, n: nat, b: string)
    requires |a| < |s| && |b| < |s| < n && d != s[0] && d != s[|s| - 1]
    ensures Replaced(a + Run(d, n) + b, s) == a + Run(d, n) + b
  {
    var text := a + Run(d, n) + b;
    ReplacedOrMarked(text, s);
    if Occurs(s, text) { FoundAtRun(s, a, d, n, b); }
  }

  /** The first secret is not there, so that only the second one counts. */
  lemma SecondReplaces(text: string, s: string, x: string, out: string)
    requires s != "" && x != "" && Replaced(text, s) == text && Replaced(text, x) == out
    ensures Redacted(text, [s, x]) == out
  {
    TwoSecrets(text, s, x);
  }

  /** What a mark between two short parts contains can be rebuilt by a secret listed later. */
  lemma Rebuilt(s: string, a: string, b: string) returns (secrets: seq<string>)
    requires |a| < |s| && |b| < |s| && Occurs(s, a + MARK + b)
    ensures s in secrets && !AlwaysRemoved(s, secrets)
  {
    var d := Other(s[0], s[|s| - 1], if a == "" then s[0] else a[|a| - 1]);
    var n := |s| + 1;
    var text := a + Run(d, n) + b;
    RunSpared(s, a, d, n, b);
    RunReplaced(a, d, n, b);
    SecondReplaces(text, s, Run(d, n), a + MARK + b);
    secrets := [s, Run(d, n)];
    assert secrets[0] == s;
    assert Occurs(s, Redacted(text, secrets));
  }

  /** `s` contains the mark. */
  lemma MarkInside(s: string, i: nat) returns (secrets: seq<string>)
    requires i <= |s| && StartsWith(s[i..], MARK)
    ensures s in secrets && !AlwaysRemoved(s, secrets)
  {
    assert s == s[..i] + MARK + s[i + 10..];
    assert s[0..] == s;
    OccursAt(s, s, 0);
    secrets := Rebuilt(s, s[..i], s[i + 10..]);
  }

  lemma HeadContinued(m: string, s: string, k: nat)
    requires k <= |s| && EndsWith(m, s[..k])
    ensures Occurs(s, "" + m + s[k..])
  {
    var t := "" + m + s[k..];
    var i := |m| - k;
    assert t[i..] == m[i..] + s[k..] == s;
    OccursAt(s, t, i);
  }

  lemma TailContinued(m: string, s: string, k: nat)
    requires k <= |s| && StartsWith(m, s[k..])
    ensures Occurs(s, s[..k] + m + "")
  {
    var t := s[..k] + m + "";
    assert t[..|s|] == s[..k] + m[..|s| - k] == s;
    assert t[0..] == t;
    OccursAt(s, t, 0);
  }

  /** `s` starts with the end of a mark. */
  lemma HeadOverlap(s: string, k: nat) returns (secrets: seq<string>)
    requires 0 < k < |s| && EndsWith(MARK, s[..k])
    ensures s in secrets && !AlwaysRemoved(s, secrets)
  {
    HeadContinued(MARK, s, k);
    secrets := Rebuilt(s, "", s[k..]);
  }

  /** `s` ends with the start of a mark. */
  lemma TailOverlap(s: string, k: nat) returns (secrets: seq<string>)
    requires 0 < k < |s| && StartsWith(MARK, s[k..])
    ensures s in secrets && !AlwaysRemoved(s, secrets)
  {
    TailContinued(MARK, s, k);
    secrets := Rebuilt(s, s[..k], "");
  }

  /** Every kind of overlap leaves a list in which the secret survives. */
  lemma OverlapSurvives(s: string) returns (secrets: seq<string>)
    requires s != "" && !Apart(s)
    ensures s in secrets && !AlwaysRemoved(s, secrets)
  {
    if Occurs(s, MARK) {
      secrets := [s];
      assert s[0..] == s;
      OccursAt(s, s, 0);
      MarkKeepsSecret(s, s, secrets);
      assert Occurs(s, Redacted(s, secrets));
    } else if i :| 0 <= i <= |s| && StartsWith(s[i..], MARK) {
      secrets := MarkInside(s, i);
    } else if k :| 0 < k < |s| && EndsWith(MARK, s[..k]) {
      secrets := HeadOverlap(s, k);
    } else {
      var k :| 0 < k < |s| && StartsWith(MARK, s[k..]);
      secrets := TailOverlap(s, k);
    }
  }

  /**
   * For every list: a non-empty secret, brackets or not, is removed from every text by every
   * list that names it exactly when it does not overlap the mark.
   */
  lemma RemovedByEveryListIff(s: string)
    requires s != ""
    ensures (forall secrets | s in secrets :: AlwaysRemoved(s, secrets)) <==> Apart(s)
  {
    if Apart(s) {
      forall secrets, text | s in secrets ensures !Occurs(s, Redacted(text, secrets)) {
        SecretRemoved(s, text, secrets);
      }
    } else {
      var secrets := OverlapSurvives(s);
    }
  }

  // ------------------------------------------------------------------
  // Trees
  // ------------------------------------------------------------------

  /** `Scalar` stands for numbers, booleans and null, told apart by a number. */
  datatype Json = Text(text: string) | Scalar(id: int) | List(items: seq<Json>) | Object(fields: seq<(string, Json)>)

  /** `credential` decides which object keys hide their whole value. */
  function RedactedTree(v: Json, secrets: seq<string>, credential: string -> bool): Json {
    match v
    case Text(t) => Text(Redacted(t, secrets))
    case Scalar(_) => v
    case List(items) =>
      List(seq(|items|, i requires 0 <= i < |items| => RedactedTree(items[i], secrets, credential)))
    case Object(fields) =>
      Object(seq(|fields|, i requires 0 <= i < |fields| =>
        (fields[i].0, if credential(fields[i].0) then Text(MARK) else RedactedTree(fields[i].1, secrets, credential))))
  }

  /** No string value contains `s`. */
  ghost predicate Clean(v: Json, s: string) {
    match v
    case Text(t) => !Occurs(s, t)
    case Scalar(_) => true
    case List(items) => forall i | 0 <= i < |items| :: Clean(items[i], s)
    case Object(fields) => forall i | 0 <= i < |fields| :: Clean(fields[i].1, s)
  }

  /** Same keys in the same order, same lengths, same scalars; only text differs, or hides under a credential key. */
  ghost predicate SameShape(v: Json, w: Json, credential: string -> bool) {
    match v
    case Text(_) => w.Text?
    case Scalar(_) => w == v
    case List(items) => w.List? && |w.items| == |items| && forall i | 0 <= i < |items| ::
        SameShape(items[i], w.items[i], credential)
    case Object(fields) =>
      && w.Object? && |w.fields| == |fields|
      && forall i | 0 <= i < |fields| ::
           w.fields[i].0 == fields[i].0
           && if credential(fields[i].0) then w.fields[i].1 == Text(MARK)
               else SameShape(fields[i].1, w.fields[i].1, credential)
  }

  ghost predicate Removable(secrets: seq<string>) {
    forall s <- secrets :: s != "" ==> Apart(s)
  }

  /** A tree comes out with no removable secret in any of its string values. */
  lemma {:induction false} TreeIsClean(v: Json, secrets: seq<string>, credential: string -> bool, s: string)
    requires s in secrets && Apart(s)
    ensures Clean(RedactedTree(v, secrets, credential), s)
    decreases v
  {
    match v
    case Text(t) => SecretRemoved(s, t, secrets);
    case Scalar(_) =>
    case List(items) =>
      forall i | 0 <= i < |items| { TreeIsClean(items[i], secrets, credential, s); }
    case Object(fields) =>
      forall i | 0 <= i < |fields| { TreeIsClean(fields[i].1, secrets, credential, s); }
  }

  lemma {:induction false} TreeKeepsShape(v: Json, secrets: seq<string>, credential: string -> bool)
    ensures SameShape(v, RedactedTree(v, secrets, credential), credential)
    decreases v
  {
    match v
    case Text(_) =>
    case Scalar(_) =>
    case List(items) => forall i | 0 <= i < |items| { TreeKeepsShape(items[i], secrets, credential); }
    case Object(fields) => forall i | 0 <= i < |fields| { TreeKeepsShape(fields[i].1, secrets, credential); }
  }

  lemma {:induction false} NothingToRedact(text: string, secrets: seq<string>)
    requires forall s <- secrets :: s != "" ==> !Occurs(s, text)
    ensures Redacted(text, secrets) == text
    decreases |secrets|
  {
    if secrets != [] {
      if secrets[0] != "" { ReplacedOrMarked(text, secrets[0]); }
      NothingToRedact(text, secrets[1..]);
    }
  }

  // ------------------------------------------------------------------
  // What stays as it was
  // ------------------------------------------------------------------

  /** The value that `path` leads to, through list positions and object fields. */
  function At(v: Json, path: seq<nat>): Option<Json>
    decreases |path|
  {
    if path == [] then Some(v)
    else
      match v
      case List(items) => if path[0] < |items| then At(items[path[0]], path[1..]) else None
      case Object(fields) => if path[0] < |fields| then At(fields[path[0]].1, path[1..]) else None
      case _ => None
  }

  /** The path goes through a credential key. */
  predicate Hidden(v: Json, path: seq<nat>, credential: string -> bool)
    decreases |path|
  {
    path != [] &&
    match v
    case List(items) => path[0] < |items| && Hidden(items[path[0]], path[1..], credential)
    case Object(fields) =>
      path[0] < |fields| && (credential(fields[path[0]].0) || Hidden(fields[path[0]].1, path[1..], credential))
    case _ => false
  }

  /** None of the secrets stands in the text. */
  ghost predicate NoneOccurs(text: string, secrets: seq<string>) {
    forall s <- secrets :: s != "" ==> !Occurs(s, text)
  }

  /**
   * Every string that no credential key hides comes out, at its own path, as the string method
   * computes it; one in which no secret stands comes out unchanged.
   */
  lemma {:induction false} TextAtPath(v: Json, secrets: seq<string>, credential: string -> bool, path: seq<nat>)
    requires At(v, path).Some? && At(v, path).value.Text? && !Hidden(v, path, credential)
    ensures var t := At(v, path).value.text; var w := At(RedactedTree(v, secrets, credential), path);
      && w == Some(Text(Redacted(t, secrets)))
      && (NoneOccurs(t, secrets) ==> w == Some(Text(t)))
    decreases |path|
  {
    if path == [] {
      if NoneOccurs(v.text, secrets) { NothingToRedact(v.text, secrets); }
    } else {
      match v
      case List(items) => TextAtPath(items[path[0]], secrets, credential, path[1..]);
      case Object(fields) => TextAtPath(fields[path[0]].1, secrets, credential, path[1..]);
    }
  }

  /** No credential key anywhere, and no secret in any string value. */
  ghost predicate Harmless(v: Json, secrets: seq<string>, credential: string -> bool) {
    match v
    case Text(t) => NoneOccurs(t, secrets)
    case Scalar(_) => true
    case List(items) => forall i | 0 <= i < |items| :: Harmless(items[i], secrets, credential)
    case Object(fields) => forall i | 0 <= i < |fields| ::
      !credential(fields[i].0) && Harmless(fields[i].1, secrets, credential)
  }

  /** A tree with nothing to hide is returned as it is. */
  lemma {:induction false} HarmlessUnchanged(v: Json, secrets: seq<string>, credential: string -> bool)
    requires Harmless(v, secrets, credential)
    ensures RedactedTree(v, secrets, credential) == v
    decreases v
  {
    match v
    case Text(t) => NothingToRedact(t, secrets);
    case Scalar(_) =>
    case List(items) => forall i | 0 <= i < |items| { HarmlessUnchanged(items[i], secrets, credential); }
    case Object(fields) => forall i | 0 <= i < |fields| { HarmlessUnchanged(fields[i].1, secrets, credential); }
  }

  lemma NotYet(a: string, s: string, b: string)
    requires a != "" && s != "" && !Occurs(s, (a + s)[..|a| + |s| - 1])
    ensures !StartsWith(a + s + b, s)
    ensures !Occurs(s, (a[1..] + s)[..|a| + |s| - 2])
  {
    var before := (a + s)[..|a| + |s| - 1];
    assert before[0..] == before && before[..|s|] == (a + s + b)[..|s|];
    assert before[1..] == (a[1..] + s)[..|a| + |s| - 2];
    if Occurs(s, before[1..]) { OccursTail(s, before, 1); }
  }

  lemma KeepsFirst(a: string, s: string, b: string)
    requires a != "" && s != "" && !StartsWith(a + s + b, s)
    ensures Replaced(a + s + b, s) == [a[0]] + Replaced(a[1..] + s + b, s)
  {
    ReplacedUnfolds(a + s + b, s);
    assert (a + s + b)[1..] == a[1..] + s + b;
  }

  lemma ReplacesFirst(s: string, b: string)
    requires s != ""
    ensures Replaced(s + b, s) == MARK + Replaced(b, s)
  {
    ReplacedUnfolds(s + b, s);
    assert (s + b)[..|s|] == s && (s + b)[|s|..] == b;
  }

  /** What stands before the first occurrence is kept, and what comes behind it is treated the same way. */
  lemma {:induction false} ReplacesLeftmost(a: string, s: string, b: string)
    requires s != "" && !Occurs(s, (a + s)[..|a| + |s| - 1])
    ensures Replaced(a + s + b, s) == a + MARK + Replaced(b, s)
    decreases |a|
  {
    var rest := Replaced(b, s);
    if a == "" {
      assert a + s + b == s + b && a + MARK + rest == MARK + rest;
      ReplacesFirst(s, b);
    } else {
      NotYet(a, s, b);
      KeepsFirst(a, s, b);
      ReplacesLeftmost(a[1..], s, b);
      assert [a[0]] + (a[1..] + MARK + rest) == a + MARK + rest;
    }
  }

  /** A second pass changes nothing. */
  lemma {:induction false} TreeIsStable(v: Json, secrets: seq<string>, credential: string -> bool)
    requires Removable(secrets)
    ensures var once := RedactedTree(v, secrets, credential); RedactedTree(once, secrets, credential) == once
    decreases v
  {
    match v
    case Text(t) =>
      forall s <- secrets | s != "" ensures !Occurs(s, Redacted(t, secrets)) { SecretRemoved(s, t, secrets); }
      NothingToRedact(Redacted(t, secrets), secrets);
    case Scalar(_) =>
    case List(items) => forall i | 0 <= i < |items| { TreeIsStable(items[i], secrets, credential); }
    case Object(fields) => forall i | 0 <= i < |fields| { TreeIsStable(fields[i].1, secrets, credential); }
  }
}
