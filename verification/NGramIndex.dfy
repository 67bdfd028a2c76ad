/** The 1/2/3-gram inverted index, against substring search. `norm` is the text normalisation. */
module NGramIndex {

  type Index = map<string, seq<nat>>

  /** All windows of length `n`, or the whole text when it is shorter. */
  function Grams(s: string, n: nat): seq<string>
    requires n > 0
  {
    if |s| >= n then seq(|s| - n + 1, i requires 0 <= i < |s| - n + 1 => s[i..i + n]) else [s]
  }

  ghost predicate Posted(idx: Index, g: string, d: nat) {
    g in idx && d in idx[g]
  }

  /** `g` is a gram of `s` of some size below `limit`. */
  ghost predicate GramBelow(s: string, limit: nat, g: string) {
    exists n | 1 <= n < limit :: g in Grams(s, n)
  }

  predicate StandsAt(s: string, part: string, i: nat) {
    i + |part| <= |s| && s[i..i + |part|] == part
  }

  ghost predicate Contains(s: string, part: string) {
    exists i: nat :: StandsAt(s, part, i)
  }

  ghost predicate ShareCharacter(a: string, b: string) {
    exists c :: c in a && c in b
  }

  function Appended(idx: Index, g: string, d: nat): Index {
    idx[g := (if g in idx then idx[g] else []) + [d]]
  }

  lemma AppendedPosts(idx: Index, g: string, d: nat)
    ensures forall h, e: nat :: Posted(Appended(idx, g, d), h, e) <==> Posted(idx, h, e) || (h == g && e == d)
  {
    var list := if g in idx then idx[g] else [];
    assert forall e: nat :: e in list + [d] <==> e in list || e == d;
  }

  method AddGrams(idx: Index, grams: seq<string>, d: nat) returns (out: Index)
    ensures forall g, e: nat :: Posted(out, g, e) <==> Posted(idx, g, e) || (e == d && g in grams)
  {
    out := idx;
    for i := 0 to |grams|
      invariant forall g, e: nat :: Posted(out, g, e) <==> Posted(idx, g, e) || (e == d && g in grams[..i])
    {
      var g := grams[i];
      assert grams[..i + 1] == grams[..i] + [g];
      AppendedPosts(out, g, d);
      out := Appended(out, g, d);
    }
    assert grams[..|grams|] == grams;
  }

  method AddDocument(idx: Index, text: string, d: nat) returns (out: Index)
    ensures forall g, e: nat :: Posted(out, g, e) <==> Posted(idx, g, e) || (e == d && GramBelow(text, 4, g))
  {
    out := idx;
    for n := 1 to 4
      invariant forall g, e: nat :: Posted(out, g, e) <==> Posted(idx, g, e) || (e == d && GramBelow(text, n, g))
    {
      out := AddGrams(out, Grams(text, n), d);
    }
  }

  method BuildIndex(corpus: seq<string>, norm: string -> string) returns (idx: Index)
    ensures forall g, d: nat :: Posted(idx, g, d) <==> d < |corpus| && GramBelow(norm(corpus[d]), 4, g)
  {
    idx := map[];
    for d := 0 to |corpus|
      invariant forall g, e: nat :: Posted(idx, g, e) <==> e < d && GramBelow(norm(corpus[e]), 4, g)
    {
      idx := AddDocument(idx, norm(corpus[d]), d);
    }
  }

  /** Grams of `q` of every size that fits into the query `qs`. */
  function QueryGrams(qs: string, q: string): seq<string> {
    (if |qs| >= 1 then Grams(q, 1) else [])
    + (if |qs| >= 2 then Grams(q, 2) else [])
    + (if |qs| >= 3 then Grams(q, 3) else [])
  }

  /** Normalising twice is normalising once, as for NFKC. */
  ghost predicate Idempotent(norm: string -> string) {
    forall s :: norm(norm(s)) == norm(s)
  }

  /**
   * The index search; the query is normalised here and once more where its grams are cut. It
   * returns exactly the documents that have some character in common with the query.
   */
  method Search(corpus: seq<string>, query: string, norm: string -> string) returns (hits: set<nat>)
    requires Idempotent(norm)
    ensures forall d: nat :: d in hits <==> d < |corpus| && ShareCharacter(norm(corpus[d]), norm(query))
    ensures InNormalForm(corpus, query, norm) && query != "" ==>
      forall truth | IsTruth(corpus, query, truth) :: truth <= hits
    ensures InNormalForm(corpus, query, norm) && |query| == 1 ==> IsTruth(corpus, query, hits)
  {
    var idx := BuildIndex(corpus, norm);
    var qs := norm(query);
    assert norm(qs) == qs;
    hits := Lookup(idx, QueryGrams(qs, norm(qs)));
    forall d: nat ensures d in hits <==> d < |corpus| && ShareCharacter(norm(corpus[d]), qs) {
      if d < |corpus| {
        CommonGramIffCommonCharacter(norm(corpus[d]), qs);
      }
    }
    if InNormalForm(corpus, query, norm) {
      AnswersNormalForm(corpus, query, hits);
    }
  }

  /** Every document posted under one of the grams. */
  method Lookup(idx: Index, grams: seq<string>) returns (hits: set<nat>)
    ensures forall d: nat :: d in hits <==> exists j | 0 <= j < |grams| :: Posted(idx, grams[j], d)
  {
    hits := {};
    for i := 0 to |grams|
      invariant forall d: nat :: d in hits <==> exists j | 0 <= j < i :: Posted(idx, grams[j], d)
    {
      var more := if grams[i] in idx then set d <- idx[grams[i]] else {};
      assert forall d: nat :: d in more <==> Posted(idx, grams[i], d);
      hits := hits + more;
    }
  }

  lemma GramIsPart(s: string, n: nat, g: string)
    requires n > 0 && g in Grams(s, n)
    ensures Contains(s, g)
  {
    if |s| >= n {
      var i :| 0 <= i < |s| - n + 1 && Grams(s, n)[i] == g;
      assert StandsAt(s, g, i);
    } else {
      assert StandsAt(s, g, 0);
    }
  }

  lemma QueryGramIsPart(q: string, g: string)
    requires g in QueryGrams(q, q)
    ensures g != "" && Contains(q, g)
  {
    if |q| >= 1 && g in Grams(q, 1) { GramIsPart(q, 1, g); }
    else if |q| >= 2 && g in Grams(q, 2) { GramIsPart(q, 2, g); }
    else { GramIsPart(q, 3, g); }
  }

  lemma PartCharacters(s: string, part: string)
    requires Contains(s, part)
    ensures forall c <- part :: c in s
  {
    var i: nat :| StandsAt(s, part, i);
    assert forall k | 0 <= k < |part| :: part[k] == s[i + k];
  }

  lemma CharacterIsGram(s: string, c: char)
    requires c in s
    ensures [c] in Grams(s, 1)
  {
    var i :| 0 <= i < |s| && s[i] == c;
    assert Grams(s, 1)[i] == [c];
  }

  lemma CommonGramIffCommonCharacter(doc: string, q: string)
    ensures (exists j | 0 <= j < |QueryGrams(q, q)| :: GramBelow(doc, 4, QueryGrams(q, q)[j]))
        <==> ShareCharacter(doc, q)
  {
    var grams := QueryGrams(q, q);
    if j :| 0 <= j < |grams| && GramBelow(doc, 4, grams[j]) {
      var n :| 1 <= n < 4 && grams[j] in Grams(doc, n);
      QueryGramIsPart(q, grams[j]);
      GramIsPart(doc, n, grams[j]);
      PartCharacters(q, grams[j]);
      PartCharacters(doc, grams[j]);
      assert grams[j][0] in doc && grams[j][0] in q;
    }
    if c :| c in doc && c in q {
      CharacterIsGram(doc, c);
      CharacterIsGram(q, c);
      assert [c] in grams && GramBelow(doc, 4, [c]);
      var j :| 0 <= j < |grams| && grams[j] == [c];
    }
  }

  // ------------------------------------------------------------------
  // Against substring search, for texts in normal form
  // ------------------------------------------------------------------

  /** `hits` are the documents in which the query stands as it is. */
  ghost predicate IsTruth(corpus: seq<string>, query: string, hits: set<nat>) {
    forall d: nat :: d in hits <==> d < |corpus| && Contains(corpus[d], query)
  }

  /** `hits` is what `Search` returns. */
  ghost predicate IsIndexAnswer(corpus: seq<string>, query: string, hits: set<nat>) {
    forall d: nat :: d in hits <==> d < |corpus| && ShareCharacter(corpus[d], query)
  }

  ghost predicate InNormalForm(corpus: seq<string>, query: string, norm: string -> string) {
    norm(query) == query && forall d | 0 <= d < |corpus| :: norm(corpus[d]) == corpus[d]
  }

  /** What the index answers against the truth, for texts in normal form. */
  lemma AnswersNormalForm(corpus: seq<string>, query: string, hits: set<nat>)
    requires IsIndexAnswer(corpus, query, hits)
    ensures query != "" ==> forall truth | IsTruth(corpus, query, truth) :: truth <= hits
    ensures |query| == 1 ==> IsTruth(corpus, query, hits)
  {
    if query != "" {
      forall truth | IsTruth(corpus, query, truth) ensures truth <= hits {
        IndexMissesNothing(corpus, query, truth, hits);
      }
    }
    if |query| == 1 {
      forall d: nat | d < |corpus| { OneCharacterAgrees(corpus[d], query); }
    }
  }

  /** The index misses no substring match of a non-empty query. */
  lemma IndexMissesNothing(corpus: seq<string>, query: string, truth: set<nat>, hits: set<nat>)
    requires query != "" && IsTruth(corpus, query, truth) && IsIndexAnswer(corpus, query, hits)
    ensures truth <= hits
  {
    forall d | d in truth ensures d in hits {
      PartCharacters(corpus[d], query);
      assert query[0] in corpus[d] && query[0] in query;
    }
  }

  lemma OneCharacterAgrees(s: string, query: string)
    requires |query| == 1
    ensures Contains(s, query) <==> ShareCharacter(s, query)
  {
    if Contains(s, query) {
      PartCharacters(s, query);
      assert query[0] in s && query[0] in query;
    }
    if c :| c in s && c in query {
      var i :| 0 <= i < |s| && s[i] == c;
      assert StandsAt(s, query, i);
    }
  }

  /** Index and substring search agree on this query for every corpus. */
  ghost predicate Agree(query: string) {
    forall corpus, truth: set<nat>, hits: set<nat> |
      IsTruth(corpus, query, truth) && IsIndexAnswer(corpus, query, hits) :: truth == hits
  }

  lemma Disagree(query: string, doc: string)
    requires Contains(doc, query) != ShareCharacter(doc, query)
    ensures !Agree(query)
  {
    var all: set<nat> := {0};
    var none: set<nat> := {};
    if Contains(doc, query) {
      assert IsTruth([doc], query, all) && IsIndexAnswer([doc], query, none);
    } else {
      assert IsTruth([doc], query, none) && IsIndexAnswer([doc], query, all);
    }
  }

  /** They agree exactly on the queries of one character. */
  lemma AgreeIffOneCharacter(query: string)
    ensures Agree(query) <==> |query| == 1
  {
    if |query| == 1 {
      forall corpus, truth: set<nat>, hits: set<nat> |
        IsTruth(corpus, query, truth) && IsIndexAnswer(corpus, query, hits)
        ensures truth == hits
      {
        forall d: nat | d < |corpus| { OneCharacterAgrees(corpus[d], query); }
      }
    } else if query == "" {
      assert StandsAt("", query, 0);
      Disagree(query, "");
    } else {
      var doc := query[..1];
      assert query[0] in doc && query[0] in query;
      Disagree(query, doc);
    }
  }
}
