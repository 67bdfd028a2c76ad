/**
 * The static lock-order report: a depth-first walk over resolved calls that keeps the first
 * reach of every lock type, and the adjacent-pair test against the frozen order.
 */
module LockGraph {
  import opened Common
  import LockPrograms

  /** One entry of a function's event table, already in source-line order. */
  datatype Event = Lock(kind: nat) | Call(callee: nat)

  /** Function key to its events; a key outside the table is an unresolved function. */
  type Graph = map<nat, seq<Event>>

  const MAX_DEPTH: nat := 10

  // ------------------------------------------------------------------
  // Reference meaning: inline every call, then keep first occurrences
  // ------------------------------------------------------------------

  /** No chain of calls starting at `key` has more than `n` calls. */
  ghost predicate Shallow(g: Graph, key: nat, n: nat)
    decreases n
  {
    key in g ==> forall e <- g[key] :: e.Call? ==> n > 0 && Shallow(g, e.callee, n - 1)
  }

  /** The locks of `key` with every call replaced by its callee's locks. */
  function Inline(g: Graph, key: nat, n: nat): seq<nat>
    decreases n, 1, 0
  {
    if key in g then InlineEvents(g, g[key], n) else []
  }

  function InlineEvents(g: Graph, events: seq<Event>, n: nat): seq<nat>
    decreases n, 0, |events|
  {
    if events == [] then []
    else
      (match events[0]
       case Lock(kind) => [kind]
       case Call(callee) => if n == 0 then [] else Inline(g, callee, n - 1))
      + InlineEvents(g, events[1..], n)
  }

  /** Append what is new, keep the rest as it is. */
  function AddNew(order: seq<nat>, locks: seq<nat>): seq<nat>
    decreases |locks|
  {
    if locks == [] then order
    else AddNew(if locks[0] in order then order else order + [locks[0]], locks[1..])
  }

  lemma {:induction false} AddNewConcat(order: seq<nat>, a: seq<nat>, b: seq<nat>)
    ensures AddNew(order, a + b) == AddNew(AddNew(order, a), b)
    decreases |a|
  {
    if a == [] {
      assert a + b == b;
    } else {
      assert (a + b)[1..] == a[1..] + b;
      AddNewConcat(if a[0] in order then order else order + [a[0]], a[1..], b);
    }
  }

  lemma {:induction false} AddNewHas(order: seq<nat>, locks: seq<nat>)
    ensures forall x <- order :: x in AddNew(order, locks)
    ensures forall x <- locks :: x in AddNew(order, locks)
    ensures forall x <- AddNew(order, locks) :: x in order || x in locks
    ensures Distinct(order) ==> Distinct(AddNew(order, locks))
    decreases |locks|
  {
    if locks != [] {
      AddNewHas(if locks[0] in order then order else order + [locks[0]], locks[1..]);
    }
  }

  lemma {:induction false} AddNewNothing(order: seq<nat>, locks: seq<nat>)
    requires forall x <- locks :: x in order
    ensures AddNew(order, locks) == order
    decreases |locks|
  {
    if locks != [] { AddNewNothing(order, locks[1..]); }
  }

  // ------------------------------------------------------------------
  // The walk
  // ------------------------------------------------------------------

  datatype Walk = Walk(seen: set<nat>, order: seq<nat>)

  function Visit(g: Graph, key: nat, depth: nat, w: Walk): Walk
    decreases MAX_DEPTH + 1 - depth, 1, 0
  {
    if key in w.seen || depth > MAX_DEPTH then w
    else
      var w' := w.(seen := w.seen + {key});
      if key in g then VisitEvents(g, g[key], depth, w') else w'
  }

  function VisitEvents(g: Graph, events: seq<Event>, depth: nat, w: Walk): Walk
    requires depth <= MAX_DEPTH
    decreases MAX_DEPTH + 1 - depth, 0, |events|
  {
    if events == [] then w
    else
      var w' := match events[0]
        case Lock(kind) => if kind in w.order then w else w.(order := w.order + [kind])
        case Call(callee) => Visit(g, callee, depth + 1, w);
      VisitEvents(g, events[1..], depth, w')
  }

  // ------------------------------------------------------------------
  // Height, which decreases along every call
  // ------------------------------------------------------------------

  lemma {:induction false} ShallowUp(g: Graph, key: nat, n: nat, m: nat)
    requires Shallow(g, key, n) && n <= m
    ensures Shallow(g, key, m)
    decreases n
  {
    if key in g {
      forall e <- g[key] ensures e.Call? ==> m > 0 && Shallow(g, e.callee, m - 1) {
        if e.Call? { ShallowUp(g, e.callee, n - 1, m - 1); }
      }
    }
  }

  lemma {:induction false} InlineUp(g: Graph, key: nat, n: nat, m: nat)
    requires Shallow(g, key, n) && n <= m
    ensures Inline(g, key, m) == Inline(g, key, n)
    decreases n, 1, 0
  {
    if key in g { InlineEventsUp(g, g[key], n, m); }
  }

  lemma {:induction false} InlineEventsUp(g: Graph, events: seq<Event>, n: nat, m: nat)
    requires forall e <- events :: e.Call? ==> n > 0 && Shallow(g, e.callee, n - 1)
    requires n <= m
    ensures InlineEvents(g, events, m) == InlineEvents(g, events, n)
    decreases n, 0, |events|
  {
    if events != [] {
      if events[0].Call? { InlineUp(g, events[0].callee, n - 1, m - 1); }
      InlineEventsUp(g, events[1..], n, m);
    }
  }

  /** The length of the longest call chain from `key`. */
  lemma {:induction false} Height(g: Graph, key: nat, n: nat) returns (h: nat)
    requires Shallow(g, key, n)
    ensures h <= n && Shallow(g, key, h) && (h == 0 || !Shallow(g, key, h - 1))
    decreases n
  {
    if n == 0 || !Shallow(g, key, n - 1) { h := n; } else { h := Height(g, key, n - 1); }
  }

  /**
   * Every key already entered whose chains are no longer than `n` is finished: its locks are
   * all recorded.  Keys still open call down to the current one, so their chains are longer.
   */
  ghost predicate Settled(g: Graph, w: Walk, n: nat) {
    forall key | key in w.seen && Shallow(g, key, n) :: forall x <- Inline(g, key, n) :: x in w.order
  }

  lemma SettledGrows(g: Graph, w: Walk, order: seq<nat>, n: nat)
    requires Settled(g, w, n) && forall x <- w.order :: x in order
    ensures Settled(g, w.(order := order), n)
  {
  }

  /**
   * The pruned walk from `key` records exactly what inlining `key` would add, although it
   * enters every function at most once.
   */
  lemma {:induction false} VisitInlines(g: Graph, key: nat, depth: nat, h: nat, m: nat, w: Walk)
    requires Shallow(g, key, h) && (h == 0 || !Shallow(g, key, h - 1))
    requires h <= m && depth + h <= MAX_DEPTH && Settled(g, w, m)
    ensures var w' := Visit(g, key, depth, w);
      && w'.order == AddNew(w.order, Inline(g, key, h))
      && w.seen <= w'.seen && Settled(g, w', m)
      && (forall k | k in w'.seen && k !in w.seen :: Shallow(g, k, h))
    decreases h, 1, 0
  {
    if key in w.seen {
      ShallowUp(g, key, h, m);
      InlineUp(g, key, h, m);
      AddNewNothing(w.order, Inline(g, key, h));
    } else {
      var entered := w.(seen := w.seen + {key});
      if key in g {
        if h > 0 { SettledBelow(g, w, key, h - 1, m); }
        VisitEventsInlines(g, g[key], depth, h, entered);
        SettledAbove(g, key, w, VisitEvents(g, g[key], depth, entered), h, m);
        forall k | k in VisitEvents(g, g[key], depth, entered).seen && k !in w.seen ensures Shallow(g, k, h) {
          if k != key { ShallowUp(g, k, h - 1, h); }
        }
      }
    }
  }

  /** Entering a key leaves everything with shorter chains settled. */
  lemma {:induction false} SettledBelow(g: Graph, w: Walk, key: nat, n: nat, m: nat)
    requires Settled(g, w, m) && n <= m && !Shallow(g, key, n)
    ensures Settled(g, w.(seen := w.seen + {key}), n)
  {
    forall k | k in w.seen && Shallow(g, k, n) ensures forall x <- Inline(g, k, n) :: x in w.order {
      ShallowUp(g, k, n, m);
      InlineUp(g, k, n, m);
    }
  }

  /** Leaving a key whose own locks are now recorded settles it too. */
  lemma {:induction false} SettledAbove(g: Graph, key: nat, w: Walk, w': Walk, h: nat, m: nat)
    requires Settled(g, w, m) && h <= m && Shallow(g, key, h) && key in g
    requires w'.order == AddNew(w.order, Inline(g, key, h))
    requires h > 0 ==> Settled(g, w', h - 1)
    requires forall k | k in w'.seen && k !in w.seen && k != key :: h > 0 && Shallow(g, k, h - 1)
    ensures Settled(g, w', m)
  {
    AddNewHas(w.order, Inline(g, key, h));
    forall k | k in w'.seen && Shallow(g, k, m) ensures forall x <- Inline(g, k, m) :: x in w'.order {
      if k == key {
        InlineUp(g, key, h, m);
      } else if k !in w.seen {
        InlineUp(g, k, h - 1, m);
      }
    }
  }

  /** One event more: what it adds comes before what the rest adds. */
  lemma EventsNext(g: Graph, events: seq<Event>, h: nat, order: seq<nat>, added: seq<nat>, order': seq<nat>,
          final: seq<nat>)
    requires events != [] && order' == AddNew(order, added) && final == AddNew(order', InlineEvents(g, events[1..], h))
    requires InlineEvents(g, events, h) == added + InlineEvents(g, events[1..], h)
    ensures final == AddNew(order, InlineEvents(g, events, h))
  {
    AddNewConcat(order, added, InlineEvents(g, events[1..], h));
  }

  lemma {:induction false} VisitCall(g: Graph, callee: nat, depth: nat, h: nat, w: Walk)
    requires h > 0 && Shallow(g, callee, h - 1) && depth + h <= MAX_DEPTH && Settled(g, w, h - 1)
    ensures var w' := Visit(g, callee, depth + 1, w);
      && w'.order == AddNew(w.order, Inline(g, callee, h - 1))
      && w.seen <= w'.seen && Settled(g, w', h - 1)
      && (forall k | k in w'.seen && k !in w.seen :: Shallow(g, k, h - 1))
    decreases h, 0, 0
  {
    var hc := Height(g, callee, h - 1);
    VisitInlines(g, callee, depth + 1, hc, h - 1, w);
    InlineUp(g, callee, hc, h - 1);
    AllShallowUp(g, Visit(g, callee, depth + 1, w).seen - w.seen, hc, h - 1);
  }

  lemma AllShallowUp(g: Graph, keys: set<nat>, n: nat, m: nat)
    requires n <= m && forall k | k in keys :: Shallow(g, k, n)
    ensures forall k | k in keys :: Shallow(g, k, m)
  {
    forall k | k in keys ensures Shallow(g, k, m) {
      ShallowUp(g, k, n, m);
    }
  }

  lemma {:induction false} VisitEventsInlines(g: Graph, events: seq<Event>, depth: nat, h: nat, w: Walk)
    requires forall e <- events :: e.Call? ==> h > 0 && Shallow(g, e.callee, h - 1)
    requires depth + h <= MAX_DEPTH && (h > 0 ==> Settled(g, w, h - 1))
    ensures var w' := VisitEvents(g, events, depth, w);
      && w'.order == AddNew(w.order, InlineEvents(g, events, h))
      && w.seen <= w'.seen && (h > 0 ==> Settled(g, w', h - 1))
      && (forall k | k in w'.seen && k !in w.seen :: h > 0 && Shallow(g, k, h - 1))
    decreases h, 0, 1 + |events|
  {
    if events != [] {
      var w' := VisitEvents(g, events, depth, w);
      match events[0]
      case Lock(kind) =>
        var next := if kind in w.order then w else w.(order := w.order + [kind]);
        if h > 0 { SettledGrows(g, w, next.order, h - 1); }
        VisitEventsInlines(g, events[1..], depth, h, next);
        assert AddNew(w.order, [kind]) == next.order;
        EventsNext(g, events, h, w.order, [kind], next.order, w'.order);
      case Call(callee) =>
        VisitCall(g, callee, depth, h, w);
        var next := Visit(g, callee, depth + 1, w);
        VisitEventsInlines(g, events[1..], depth, h, next);
        EventsNext(g, events, h, w.order, Inline(g, callee, h - 1), next.order, w'.order);
    }
  }

  /**
   * For every call graph whose chains from the entry have at most ten calls, the seen-pruned
   * walk reports the first occurrences of the fully inlined lock sequence.
   */
  lemma WalkIsInlining(g: Graph, entry: nat)
    requires Shallow(g, entry, MAX_DEPTH)
    ensures Visit(g, entry, 0, Walk({}, [])).order == AddNew([], Inline(g, entry, MAX_DEPTH))
    ensures Distinct(Visit(g, entry, 0, Walk({}, [])).order)
  {
    var h := Height(g, entry, MAX_DEPTH);
    VisitInlines(g, entry, 0, h, h, Walk({}, []));
    InlineUp(g, entry, h, MAX_DEPTH);
    AddNewHas([], Inline(g, entry, MAX_DEPTH));
  }

  // ------------------------------------------------------------------
  // Ten is sharp
  // ------------------------------------------------------------------

  /** Eleven calls in a row, and a lock at the far end. */
  function Chain(): Graph {
    map k: nat | k <= 11 :: ChainEvents(k)
  }

  function ChainEvents(k: nat): seq<Event> {
    if k < 11 then [Call(k + 1)] else [Lock(1)]
  }

  lemma {:induction false} ChainShape(k: nat)
    requires k <= 11
    ensures Shallow(Chain(), k, 11 - k) && Inline(Chain(), k, 11 - k) == [1]
    decreases 11 - k
  {
    if k < 11 {
      ChainShape(k + 1);
      assert Chain()[k] == [Call(k + 1)];
      assert [Call(k + 1)][1..] == [];
      assert InlineEvents(Chain(), [], 11 - k) == [];
    } else {
      assert Chain()[k] == [Lock(1)];
      assert [Lock(1)][1..] == [];
    }
  }

  lemma {:induction false} ChainVisit(k: nat, w: Walk)
    requires k <= 11 && forall i | k <= i <= 11 :: i !in w.seen
    ensures Visit(Chain(), k, k, w).order == w.order
    decreases 11 - k
  {
    if k < 11 {
      var w' := w.(seen := w.seen + {k});
      ChainVisit(k + 1, w');
      assert Chain()[k] == [Call(k + 1)];
      assert [Call(k + 1)][1..] == [];
      assert VisitEvents(Chain(), [Call(k + 1)], k, w')
          == VisitEvents(Chain(), [], k, Visit(Chain(), k + 1, k + 1, w'));
    }
  }

  /** One call more than the bound and the walk misses a lock that inlining reaches. */
  lemma ElevenCallsMiss()
    ensures Shallow(Chain(), 0, 11) && AddNew([], Inline(Chain(), 0, 11)) == [1]
    ensures Visit(Chain(), 0, 0, Walk({}, [])).order == []
  {
    ChainShape(0);
    ChainVisit(0, Walk({}, []));
  }

  /** The walk from `entry` reports the first occurrences of its lock sequence inlined to depth `h`. */
  ghost predicate Exact(g: Graph, entry: nat, h: nat)
    requires Shallow(g, entry, h)
  {
    Visit(g, entry, 0, Walk({}, [])).order == AddNew([], Inline(g, entry, h))
  }

  /**
   * The walk is exact on every call graph whose chains from the entry have at most `h` calls
   * if and only if `h` is within the depth bound.
   */
  lemma ExactIffWithinDepth(h: nat)
    ensures (forall g, entry | Shallow(g, entry, h) :: Exact(g, entry, h)) <==> h <= MAX_DEPTH
  {
    if h <= MAX_DEPTH {
      forall g, entry | Shallow(g, entry, h) ensures Exact(g, entry, h) {
        ShallowUp(g, entry, h, MAX_DEPTH);
        WalkIsInlining(g, entry);
        InlineUp(g, entry, h, MAX_DEPTH);
      }
    } else {
      ElevenCallsMiss();
      ShallowUp(Chain(), 0, 11, h);
      InlineUp(Chain(), 0, 11, h);
      assert !Exact(Chain(), 0, h);
    }
  }

  // ------------------------------------------------------------------
  // The frozen-order test
  // ------------------------------------------------------------------

  /** `FROZEN`: 0 is the transaction envelope, 1 the counter row, 2 the run row. */
  const ENVELOPE: nat := 0

  function RowLocksOf(order: seq<nat>): seq<nat> {
    if order == [] then []
    else (if order[0] == ENVELOPE then [] else [order[0]]) + RowLocksOf(order[1..])
  }

  predicate Violates(order: seq<nat>) {
    exists i | 0 <= i < |RowLocksOf(order)| - 1 :: RowLocksOf(order)[i] > RowLocksOf(order)[i + 1]
  }

  lemma {:induction false} AdjacentSuffices(s: seq<nat>, i: nat, j: nat)
    requires forall k | 0 <= k < |s| - 1 :: s[k] <= s[k + 1]
    requires i <= j < |s|
    ensures s[i] <= s[j]
    decreases j - i
  {
    if i < j { AdjacentSuffices(s, i, j - 1); }
  }

  /** Some earlier row lock ranks above a later one. */
  ghost predicate Inverted(s: seq<nat>) {
    exists i, j | 0 <= i < j < |s| :: s[i] > s[j]
  }

  /** The adjacent-pair test fires exactly when some earlier row lock ranks above a later one. */
  lemma ViolatesIffInversion(order: seq<nat>)
    ensures Violates(order) <==> Inverted(RowLocksOf(order))
  {
    var s := RowLocksOf(order);
    if Violates(order) {
      var i :| 0 <= i < |s| - 1 && s[i] > s[i + 1];
    } else {
      forall i, j | 0 <= i < j < |s| ensures s[i] <= s[j] {
        AdjacentSuffices(s, i, j);
      }
    }
  }

  // ------------------------------------------------------------------
  // What a clean report guarantees
  // ------------------------------------------------------------------

  lemma {:induction false} RowLocksConcat(a: seq<nat>, b: seq<nat>)
    ensures RowLocksOf(a + b) == RowLocksOf(a) + RowLocksOf(b)
  {
    if a == [] {
      assert a + b == b;
    } else {
      assert (a + b)[1..] == a[1..] + b;
      RowLocksConcat(a[1..], b);
    }
  }

  lemma {:induction false} RowLocksHas(order: seq<nat>)
    ensures forall x :: x in RowLocksOf(order) <==> x in order && x != ENVELOPE
  {
    if order != [] { RowLocksHas(order[1..]); }
  }

  /** Dropping the envelope commutes with keeping first occurrences. */
  lemma {:induction false} RowLocksOfAddNew(order: seq<nat>, locks: seq<nat>)
    ensures RowLocksOf(AddNew(order, locks)) == AddNew(RowLocksOf(order), RowLocksOf(locks))
    decreases |locks|
  {
    if locks != [] {
      var next := if locks[0] in order then order else order + [locks[0]];
      RowLocksOfAddNew(next, locks[1..]);
      RowLocksConcat(order, [locks[0]]);
      assert RowLocksOf([locks[0]]) == if locks[0] == ENVELOPE then [] else [locks[0]];
      RowLocksHas(order);
      if locks[0] == ENVELOPE {
        assert RowLocksOf(next) == RowLocksOf(order);
        assert RowLocksOf(locks) == [] + RowLocksOf(locks[1..]) == RowLocksOf(locks[1..]);
      } else {
        assert RowLocksOf(locks)[0] == locks[0] && RowLocksOf(locks)[1..] == RowLocksOf(locks[1..]);
      }
    }
  }

  lemma {:induction false} AddNewPrefix(order: seq<nat>, locks: seq<nat>)
    ensures order <= AddNew(order, locks)
    decreases |locks|
  {
    if locks != [] { AddNewPrefix(if locks[0] in order then order else order + [locks[0]], locks[1..]); }
  }

  /** First occurrences in ascending order: each new request ranks above everything before it. */
  lemma FirstsClimb(p: seq<nat>)
    requires Ascending(AddNew([], p))
    ensures LockPrograms.ClimbsByRank(p)
  {
    forall i, j | 0 <= i < j < |p| && p[j] !in p[..j] ensures p[i] < p[j] {
      var before := AddNew([], p[..j]);
      AddNewHas([], p[..j]);
      assert p == p[..j] + p[j..];
      AddNewConcat([], p[..j], p[j..]);
      AddNewPrefix(before + [p[j]], p[j..][1..]);
      assert before + [p[j]] <= AddNew([], p);
      assert p[i] in p[..j];
      var k :| 0 <= k < |before| && before[k] == p[i];
      assert AddNew([], p)[k] == p[i] && AddNew([], p)[|before|] == p[j];
    }
  }

  /** A clean report of an entry means its inlined row locks climb in rank. */
  lemma CleanEntryClimbs(g: Graph, entry: nat)
    requires Shallow(g, entry, MAX_DEPTH) && !Violates(Visit(g, entry, 0, Walk({}, [])).order)
    ensures LockPrograms.ClimbsByRank(RowLocksOf(Inline(g, entry, MAX_DEPTH)))
  {
    var order := Visit(g, entry, 0, Walk({}, [])).order;
    var p := Inline(g, entry, MAX_DEPTH);
    WalkIsInlining(g, entry);
    RowLocksOfAddNew([], p);
    ViolatesIffInversion(order);
    AddNewHas([], RowLocksOf(p));
    FirstsClimb(RowLocksOf(p));
  }

  /**
   * A report without violations is a deadlock-freedom proof at lock-type level: transactions
   * that lock what their inlined entries lock can never all be stuck.
   */
  lemma CleanReportNeverDeadlocks(g: Graph, entries: seq<nat>, ts: seq<nat>)
    requires forall e <- entries :: Shallow(g, e, MAX_DEPTH) && !Violates(Visit(g, e, 0, Walk({}, [])).order)
    requires LockPrograms.IsRun(LockPrograms.Initial(Programs(g, entries)), ts)
    ensures !LockPrograms.After(LockPrograms.Initial(Programs(g, entries)), ts).Stuck()
  {
    forall p <- Programs(g, entries) ensures LockPrograms.ClimbsByRank(p) {
      var i :| 0 <= i < |entries| && p == Programs(g, entries)[i];
      CleanEntryClimbs(g, entries[i]);
    }
    LockPrograms.ClimbingNeverStuck(Programs(g, entries), ts);
  }

  function Programs(g: Graph, entries: seq<nat>): (r: seq<seq<nat>>)
    ensures |r| == |entries|
  {
    seq(|entries|, i requires 0 <= i < |entries| => RowLocksOf(Inline(g, entries[i], MAX_DEPTH)))
  }

  // ------------------------------------------------------------------
  // The report's own recursion, over mutable `seen` and `seq`
  // ------------------------------------------------------------------

  class LockWalk {
    var seen: set<nat>
    var order: seq<nat>

    constructor ()
      ensures seen == {} && order == []
    {
      seen, order := {}, [];
    }

    method Dfs(g: Graph, key: nat, depth: nat)
      modifies this
      ensures Walk(seen, order) == Visit(g, key, depth, Walk(old(seen), old(order)))
      decreases MAX_DEPTH + 1 - depth
    {
      if key in seen || depth > MAX_DEPTH { return; }
      seen := seen + {key};
      if key !in g { return; }
      var events := g[key];
      ghost var entered := Walk(seen, order);
      for i := 0 to |events|
        invariant VisitEvents(g, events[i..], depth, Walk(seen, order)) == VisitEvents(g, events, depth, entered)
      {
        assert events[i..][1..] == events[i + 1..];
        match events[i]
        case Lock(kind) =>
          if kind !in order { order := order + [kind]; }
        case Call(callee) =>
          Dfs(g, callee, depth + 1);
      }
    }

    /** One entry of the report: the lock sequence and whether it breaks the frozen order. */
    method Report(g: Graph, entry: nat) returns (violates: bool)
      requires seen == {} && order == []
      modifies this
      ensures Shallow(g, entry, MAX_DEPTH) ==> order == AddNew([], Inline(g, entry, MAX_DEPTH))
      ensures violates <==> Inverted(RowLocksOf(order))
    {
      Dfs(g, entry, 0);
      if Shallow(g, entry, MAX_DEPTH) { WalkIsInlining(g, entry); }
      ViolatesIffInversion(order);
      violates := Violates(order);
    }
  }
}
