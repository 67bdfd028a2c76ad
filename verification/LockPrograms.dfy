/**
 * Transactions reduced to the order in which they lock rows, as the deadlock probes run them:
 * lock one row after another, keep everything, commit.
 */
module LockPrograms {
  import opened Common
  import RowLocks

  /** `pcs[t]` counts the locks transaction `t` has taken; one past the end means committed. */
  datatype System = System(programs: seq<seq<nat>>, pcs: seq<nat>)
  {
    predicate Valid() {
      |pcs| == |programs| && forall t | 0 <= t < |pcs| :: pcs[t] <= |programs[t]| + 1
    }

    function Held(t: nat): set<nat>
      requires Valid() && t < |pcs|
    {
      if pcs[t] <= |programs[t]| then set r | r in programs[t][..pcs[t]] else {}
    }

    predicate Finished(t: nat)
      requires Valid() && t < |pcs|
    {
      pcs[t] == |programs[t]| + 1
    }

    /** The next lock, unless this transaction already holds it or is about to commit. */
    function Wants(t: nat): Option<nat>
      requires Valid() && t < |pcs|
    {
      if pcs[t] < |programs[t]| && programs[t][pcs[t]] !in Held(t) then Some(programs[t][pcs[t]]) else None
    }

    predicate Enabled(t: nat)
      requires Valid()
    {
      t < |pcs| && !Finished(t)
      && (Wants(t).Some? ==> forall u | 0 <= u < |pcs| && u != t :: Wants(t).value !in Held(u))
    }

    function Step(t: nat): (s: System)
      requires Valid() && Enabled(t)
      ensures s.Valid()
    {
      System(programs, pcs[t := pcs[t] + 1])
    }

    /** No two transactions hold the same row. */
    ghost predicate Exclusive()
      requires Valid()
    {
      forall t, u | 0 <= t < |pcs| && 0 <= u < |pcs| && t != u :: Held(t) !! Held(u)
    }

    ghost predicate Stuck()
      requires Valid()
    {
      (exists t :: 0 <= t < |pcs| && !Finished(t)) && forall t: nat :: !Enabled(t)
    }
  }

  predicate IsRun(s: System, ts: seq<nat>)
    requires s.Valid()
    decreases |ts|
  {
    ts == [] || (s.Enabled(ts[0]) && IsRun(s.Step(ts[0]), ts[1..]))
  }

  function After(s: System, ts: seq<nat>): (e: System)
    requires s.Valid() && IsRun(s, ts)
    ensures e.Valid() && e.programs == s.programs
    decreases |ts|
  {
    if ts == [] then s else After(s.Step(ts[0]), ts[1..])
  }

  function Initial(programs: seq<seq<nat>>): (s: System)
    ensures s.Valid()
  {
    System(programs, seq(|programs|, _ => 0))
  }

  /** A step adds the lock it asks for to those already held; the commit alone gives them up, all at once. */
  lemma LocksKeptToCommit(s: System, t: nat)
    requires s.Valid() && s.Enabled(t)
    ensures s.Step(t).Held(t) ==
            if s.Step(t).Finished(t) then {} else s.Held(t) + (if s.Wants(t).Some? then {s.Wants(t).value} else {})
    ensures s.Step(t).Finished(t) ==> s.Wants(t).None? && forall r <- s.programs[t] :: r in s.Held(t)
    ensures forall u | 0 <= u < |s.pcs| && u != t :: s.Step(t).Held(u) == s.Held(u)
  {
    var p := s.programs[t];
    if s.pcs[t] < |p| {
      assert p[..s.pcs[t] + 1] == p[..s.pcs[t]] + [p[s.pcs[t]]];
    }
  }

  lemma {:induction false} RunExclusive(s: System, ts: seq<nat>)
    requires s.Valid() && s.Exclusive() && IsRun(s, ts)
    ensures After(s, ts).Exclusive()
    decreases |ts|
  {
    if ts != [] {
      LocksKeptToCommit(s, ts[0]);
      RunExclusive(s.Step(ts[0]), ts[1..]);
    }
  }

  // ------------------------------------------------------------------
  // Any number of rank-climbing programs
  // ------------------------------------------------------------------

  /** Every lock that is not already held ranks above all locks requested before it. */
  ghost predicate ClimbsByRank(p: seq<nat>) {
    forall i, j | 0 <= i < j < |p| && p[j] !in p[..j] :: p[i] < p[j]
  }

  lemma WantAbove(s: System, t: nat, r: nat)
    requires s.Valid() && t < |s.pcs| && ClimbsByRank(s.programs[t]) && s.Wants(t).Some? && r in s.Held(t)
    ensures r < s.Wants(t).value
  {
    var i :| 0 <= i < s.pcs[t] && s.programs[t][i] == r;
    assert s.programs[t][s.pcs[t]] !in s.programs[t][..s.pcs[t]];
  }

  /** If every new lock request ranks above the locks held, no set of transactions can deadlock. */
  lemma ClimbingNeverStuck(programs: seq<seq<nat>>, ts: seq<nat>)
    requires forall p <- programs :: ClimbsByRank(p)
    requires IsRun(Initial(programs), ts)
    ensures !After(Initial(programs), ts).Stuck()
  {
    RunExclusive(Initial(programs), ts);
    var s := After(Initial(programs), ts);
    var n := |s.pcs|;
    forall t, r | 0 <= t < n && s.Wants(t).Some? && r in s.Held(t) ensures r < s.Wants(t).value {
      WantAbove(s, t, r);
    }
    if s.Stuck() {
      var t: nat :| t < n && !s.Finished(t);
      assert !s.Enabled(t);
      var u := SomeoneMoves(s, t);
    }
  }

  function AllWants(s: System): (r: seq<Option<nat>>)
    requires s.Valid()
    ensures |r| == |s.pcs| && forall t | 0 <= t < |r| :: r[t] == s.Wants(t)
  {
    seq(|s.pcs|, t requires 0 <= t < |s.pcs| => s.Wants(t))
  }

  /** Follow the holders: wanted rows climb, so the chain ends at somebody who can move. */
  lemma {:induction false} FollowHolders(s: System, t: nat, top: nat) returns (u: nat)
    requires s.Valid() && t < |s.pcs| && !s.Enabled(t) && !s.Finished(t)
    requires forall v, r | 0 <= v < |s.pcs| && s.Wants(v).Some? && r in s.Held(v) :: r < s.Wants(v).value
    requires forall v | 0 <= v < |s.pcs| && s.Wants(v).Some? :: s.Wants(v).value <= top
    ensures s.Enabled(u)
    decreases top - s.Wants(t).value
  {
    var holder: nat :| holder < |s.pcs| && holder != t && s.Wants(t).value in s.Held(holder);
    if s.Enabled(holder) {
      u := holder;
    } else {
      u := FollowHolders(s, holder, top);
    }
  }

  lemma SomeoneMoves(s: System, t: nat) returns (u: nat)
    requires s.Valid() && t < |s.pcs| && !s.Enabled(t) && !s.Finished(t)
    requires forall v, r | 0 <= v < |s.pcs| && s.Wants(v).Some? && r in s.Held(v) :: r < s.Wants(v).value
    ensures s.Enabled(u)
  {
    var wants := AllWants(s);
    var top := RowLocks.MaxRank(wants, (r: nat) => r);
    forall v | 0 <= v < |s.pcs| && s.Wants(v).Some? ensures s.Wants(v).value <= top {
      assert wants[v].Some?;
    }
    u := FollowHolders(s, t, top);
  }

  // ------------------------------------------------------------------
  // Two programs: exactly when they can deadlock
  // ------------------------------------------------------------------

  /**
   * Each transaction can hold disjoint prefixes so that each one's next row is in the
   * other's prefix.
   */
  ghost predicate Crosses(p: seq<nat>, q: seq<nat>, i: nat, j: nat) {
    && i < |p| && j < |q|
    && p[i] in q[..j] && q[j] in p[..i]
    && (forall r <- p[..i] :: r !in q[..j])
  }

  /** Some schedule of the two programs ends with both waiting. */
  ghost predicate CanGetStuck(p: seq<nat>, q: seq<nat>) {
    exists ts :: IsRun(Initial([p, q]), ts) && After(Initial([p, q]), ts).Stuck()
  }

  ghost predicate CanCross(p: seq<nat>, q: seq<nat>) {
    exists i, j :: Crosses(p, q, i, j)
  }

  function Pair(p: seq<nat>, q: seq<nat>, i: nat, j: nat): System {
    System([p, q], [i, j])
  }

  lemma {:induction false} RunSecond(p: seq<nat>, q: seq<nat>, i: nat, j: nat, from: nat) returns (ts: seq<nat>)
    requires i <= |p| && from <= j <= |q| && forall r <- p[..i] :: r !in q[..j]
    ensures IsRun(Pair(p, q, i, from), ts) && After(Pair(p, q, i, from), ts) == Pair(p, q, i, j)
    decreases j - from
  {
    if from == j {
      ts := [];
    } else {
      var s := Pair(p, q, i, from);
      assert q[from] in q[..j];
      assert s.Enabled(1) && s.Step(1) == Pair(p, q, i, from + 1);
      var rest := RunSecond(p, q, i, j, from + 1);
      ts := [1] + rest;
      assert ts[1..] == rest;
    }
  }

  lemma {:induction false} RunBoth(p: seq<nat>, q: seq<nat>, i: nat, j: nat, from: nat) returns (ts: seq<nat>)
    requires from <= i <= |p| && j <= |q| && forall r <- p[..i] :: r !in q[..j]
    ensures IsRun(Pair(p, q, from, 0), ts) && After(Pair(p, q, from, 0), ts) == Pair(p, q, i, j)
    decreases i - from
  {
    if from == i {
      ts := RunSecond(p, q, i, j, 0);
    } else {
      var s := Pair(p, q, from, 0);
      assert s.Held(1) == {};
      assert s.Enabled(0) && s.Step(0) == Pair(p, q, from + 1, 0);
      var rest := RunBoth(p, q, i, j, from + 1);
      ts := [0] + rest;
      assert ts[1..] == rest;
    }
  }

  lemma CrossIsStuck(p: seq<nat>, q: seq<nat>, i: nat, j: nat)
    requires Crosses(p, q, i, j)
    ensures Pair(p, q, i, j).Stuck()
  {
    var s := Pair(p, q, i, j);
    assert p[i] in s.Held(1) && q[j] in s.Held(0);
    assert p[i] !in s.Held(0) && q[j] !in s.Held(1);
    assert s.Wants(0) == Some(p[i]) && s.Wants(1) == Some(q[j]);
    assert !s.Enabled(0) && !s.Enabled(1);
    assert !s.Finished(0);
  }

  lemma StuckCrosses(p: seq<nat>, q: seq<nat>, s: System)
    requires s.Valid() && s.programs == [p, q] && s.Exclusive() && s.Stuck()
    ensures CanCross(p, q)
  {
    var i, j := s.pcs[0], s.pcs[1];
    assert !s.Enabled(0) && !s.Enabled(1);
    assert !s.Finished(0) && !s.Finished(1);
    assert p[i] in s.Held(1) && q[j] in s.Held(0);
    assert s.Held(0) !! s.Held(1);
    forall r <- p[..i] ensures r !in q[..j] {
      assert r in s.Held(0);
    }
    assert Crosses(p, q, i, j);
  }

  /** Two transactions can reach a deadlock exactly when their lock orders cross. */
  lemma DeadlockIffCross(p: seq<nat>, q: seq<nat>)
    ensures CanGetStuck(p, q) <==> CanCross(p, q)
  {
    assert Initial([p, q]) == Pair(p, q, 0, 0);
    if ts :| IsRun(Initial([p, q]), ts) && After(Initial([p, q]), ts).Stuck() {
      RunExclusive(Initial([p, q]), ts);
      StuckCrosses(p, q, After(Initial([p, q]), ts));
    }
    if i, j :| Crosses(p, q, i, j) {
      var ts := RunBoth(p, q, i, j, 0);
      CrossIsStuck(p, q, i, j);
    }
  }

  /** A program without repeated rows never crosses itself. */
  lemma SameOrderDoesNotCross(p: seq<nat>)
    requires Distinct(p)
    ensures !CanCross(p, p)
  {
  }

  /** The probe's two shapes: counter then run row on both sides is safe, the reversed pair gets stuck. */
  lemma ReversedPairDeadlocks(counter: nat, run: nat)
    requires counter != run
    ensures CanGetStuck([counter, run], [run, counter])
    ensures !CanGetStuck([counter, run], [counter, run])
  {
    assert [counter, run][..1] == [counter] && [run, counter][..1] == [run];
    assert Crosses([counter, run], [run, counter], 1, 1);
    SameOrderDoesNotCross([counter, run]);
    DeadlockIffCross([counter, run], [run, counter]);
    DeadlockIffCross([counter, run], [counter, run]);
  }
}
