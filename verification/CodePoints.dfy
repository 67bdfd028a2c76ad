/** UTF-16 text, and its split into fragments of whole code points. */
module CodePoints {

  type CodeUnit = u: nat | u < 0x1_0000

  type Text = seq<CodeUnit>

  predicate High(u: CodeUnit) { 0xD800 <= u < 0xDC00 }

  predicate Low(u: CodeUnit) { 0xDC00 <= u < 0xE000 }

  /** Code units of the first code point: a surrogate pair counts as one. */
  function FirstPoint(s: Text): (n: nat)
    requires s != []
    ensures 1 <= n <= |s|
  {
    if |s| >= 2 && High(s[0]) && Low(s[1]) then 2 else 1
  }

  /** String iteration: the text as a list of code points. */
  function Points(s: Text): seq<Text> {
    if s == [] then [] else [s[..FirstPoint(s)]] + Points(s[FirstPoint(s)..])
  }

  function Join(points: seq<Text>): Text {
    if points == [] then [] else points[0] + Join(points[1..])
  }

  function Chunk(points: seq<Text>, size: nat): nat {
    if |points| <= size then |points| else size
  }

  /** Fragments of at most `size` points each, the last one shorter. */
  function Fragments(points: seq<Text>, size: nat): seq<Text>
    requires size > 0
    decreases |points|
  {
    if points == [] then []
    else [Join(points[..Chunk(points, size)])] + Fragments(points[Chunk(points, size)..], size)
  }

  lemma {:induction false} JoinPoints(s: Text)
    ensures Join(Points(s)) == s
  {
    if s != [] {
      var n := FirstPoint(s);
      JoinPoints(s[n..]);
      assert Points(s)[0] == s[..n] && Points(s)[1..] == Points(s[n..]);
      assert s[..n] + s[n..] == s;
    }
  }

  lemma {:induction false} JoinConcat(a: seq<Text>, b: seq<Text>)
    ensures Join(a + b) == Join(a) + Join(b)
  {
    if a == [] {
      assert a + b == b;
    } else {
      assert (a + b)[1..] == a[1..] + b;
      JoinConcat(a[1..], b);
    }
  }

  /** Fragments in order make up the text. */
  lemma {:induction false} FragmentsJoin(points: seq<Text>, size: nat)
    requires size > 0
    ensures Join(Fragments(points, size)) == Join(points)
    decreases |points|
  {
    if points != [] {
      var n := Chunk(points, size);
      FragmentsJoin(points[n..], size);
      JoinConcat(points[..n], points[n..]);
      assert points[..n] + points[n..] == points;
      assert Fragments(points, size)[1..] == Fragments(points[n..], size);
    }
  }

  /** `points` is what iterating over some text yields. */
  ghost predicate Whole(points: seq<Text>) {
    Points(Join(points)) == points
  }

  /** Splitting a text between two of its code points splits its code points. */
  lemma {:induction false} WholeSplits(points: seq<Text>, n: nat)
    requires Whole(points) && n <= |points|
    ensures Whole(points[..n]) && Whole(points[n..])
    decreases n
  {
    if n == 0 {
      assert points[..n] == [] && points[n..] == points;
    } else {
      var s := Join(points);
      var first := FirstPoint(s);
      assert points[0] == s[..first] && points[1..] == Points(s[first..]);
      JoinPoints(s[first..]);
      WholeSplits(points[1..], n - 1);
      assert points[1..][n - 1..] == points[n..];
      var rest := points[1..][..n - 1];
      assert points[..n][1..] == rest;
      var t := s[..first] + Join(rest);
      assert Join(points[..n]) == t;
      PrefixOfJoin(points[1..], n - 1);
      assert FirstPoint(t) == first;
      assert t[..first] == points[0] && t[first..] == Join(rest);
    }
  }

  lemma PrefixOfJoin(points: seq<Text>, n: nat)
    requires n <= |points|
    ensures Join(points[..n]) <= Join(points)
  {
    JoinConcat(points[..n], points[n..]);
    assert points[..n] + points[n..] == points;
  }

  /** No fragment is empty, and none has more than `size` code points. */
  lemma {:induction false} FragmentsBounded(points: seq<Text>, size: nat)
    requires Whole(points) && size > 0
    ensures forall f <- Fragments(points, size) :: 0 < |Points(f)| <= size
    decreases |points|
  {
    if points != [] {
      var n := Chunk(points, size);
      WholeSplits(points, n);
      FragmentsBounded(points[n..], size);
    }
  }

  // ------------------------------------------------------------------
  // Against the encoding
  // ------------------------------------------------------------------

  /** A Unicode scalar value: any code point but the surrogates. */
  predicate Scalar(c: nat) { c < 0xD800 || 0xE000 <= c < 0x11_0000 }

  /** Its UTF-16 form. */
  function Units(c: nat): Text
    requires Scalar(c)
  {
    if c < 0x1_0000 then [c] else [0xD800 + (c - 0x1_0000) / 0x400, 0xDC00 + (c - 0x1_0000) % 0x400]
  }

  function AllUnits(cs: seq<nat>): Text
    requires forall c <- cs :: Scalar(c)
  {
    if cs == [] then [] else Units(cs[0]) + AllUnits(cs[1..])
  }

  lemma UnitsFirst(c: nat, rest: Text)
    requires Scalar(c)
    ensures FirstPoint(Units(c) + rest) == |Units(c)|
  {
    if c >= 0x1_0000 {
      assert (c - 0x1_0000) / 0x400 < 0x400;
    }
  }

  /** Iterating over an encoded text yields its scalar values, one by one. */
  lemma {:induction false} PointsAreScalars(cs: seq<nat>)
    requires forall c <- cs :: Scalar(c)
    ensures |Points(AllUnits(cs))| == |cs|
    ensures forall i | 0 <= i < |cs| :: Points(AllUnits(cs))[i] == Units(cs[i])
  {
    if cs != [] {
      var s := AllUnits(cs);
      var n := |Units(cs[0])|;
      UnitsFirst(cs[0], AllUnits(cs[1..]));
      PointsAreScalars(cs[1..]);
      assert s[..n] == Units(cs[0]) && s[n..] == AllUnits(cs[1..]);
      assert Points(s) == [Units(cs[0])] + Points(AllUnits(cs[1..]));
    }
  }

  /** Two units are taken together exactly if they encode a scalar value beyond the basic plane. */
  lemma PairsAreSupplementary(s: Text)
    requires |s| >= 2
    ensures FirstPoint(s) == 2 <==> exists c: nat :: 0x1_0000 <= c && Scalar(c) && Units(c) == s[..2]
  {
    if FirstPoint(s) == 2 {
      var high: int, low: int := s[0], s[1];
      var c: nat := 0x1_0000 + (high - 0xD800) * 0x400 + (low - 0xDC00);
      assert (c - 0x1_0000) / 0x400 == high - 0xD800 && (c - 0x1_0000) % 0x400 == low - 0xDC00;
      assert Units(c) == s[..2];
    }
    if c: nat :| 0x1_0000 <= c && Scalar(c) && Units(c) == s[..2] {
      UnitsFirst(c, s[2..]);
      assert Units(c) + s[2..] == s;
    }
  }
}
