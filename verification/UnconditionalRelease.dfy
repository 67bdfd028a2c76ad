/**
 * The release worker gives its dimensions back in a second transaction whether or not its
 * acquire succeeded. What that keeps, and exactly when it lets too many workers in.
 */
module UnconditionalRelease {
  import opened Common
  import opened MultiDimension
  import opened MultiDimensionRuns
  import RowLocks

  // ------------------------------------------------------------------
  // What the counters account for
  // ------------------------------------------------------------------

  /** The release has gone past row `c` without lowering it. */
  predicate PassedBy(w: Worker, c: nat) {
    match w.phase
    case Drop(k) => k <= |w.specs| && c in w.specs[..k] && c !in w.cw
    case CommitDrop => c !in w.cw
    case _ => false
  }

  /** A holder that will, or may still, lower row `c`. */
  function OwesRow(c: nat): Worker -> nat {
    (w: Worker) => if w.granted && c in w.specs && !PassedBy(w, c) then 1 else 0
  }

  /** A worker that has ended without holding `c`, and may have given back a unit of it. */
  function SpentRow(c: nat): Worker -> nat {
    (w: Worker) => if !w.granted && w.phase == Done && c in w.specs then 1 else 0
  }

  function ListsRow(c: nat): Worker -> nat {
    (w: Worker) => if c in w.specs then 1 else 0
  }

  /**
   * Every unit in use is owed by a holder; every holder beyond the units in use is matched by
   * a worker that has ended; nobody holds a row without units.
   */
  ghost predicate Accounted(rows: Rows, workers: seq<Worker>, c: nat)
    requires c in rows
  {
    && rows[c].active <= Sum(workers, OwesRow(c))
    && Holders(workers, c) <= rows[c].active + Sum(workers, SpentRow(c))
    && (rows[c].capacity == 0 ==> Holders(workers, c) == 0)
  }

  ghost predicate Ledger(s: State) {
    forall c | c in s.rows :: Accounted(s.rows, s.workers, c)
  }

  /** What one worker's step may do to row `c`, before and after. */
  ghost predicate Fair(r: Counter, w: Worker, r': Counter, w': Worker, c: nat) {
    && w'.specs == w.specs && r'.capacity == r.capacity
    && (r'.active == 0 || r'.active + OwesRow(c)(w) <= r.active + OwesRow(c)(w'))
    && HoldsRow(c)(w') + r.active + SpentRow(c)(w) <= HoldsRow(c)(w) + r'.active + SpentRow(c)(w')
    && (r.capacity == 0 ==> HoldsRow(c)(w') <= HoldsRow(c)(w))
  }

  lemma DropIsFair(rows: Rows, w: Worker, c: nat)
    requires WorkerOk(true, rows, w) && w.phase.Drop? && c in rows
    ensures Next(true, rows, w).Go? && Fair(rows[c], w, rows[c], Next(true, rows, w).w, c)
  {
    var k := w.phase.k;
    if k < |w.specs| {
      PresentNext(rows, w.specs, k);
      assert w.specs[..k + 1] == w.specs[..k] + [w.specs[k]];
    } else {
      assert w.specs[..k] == w.specs;
    }
  }

  lemma EndIsFair(rows: Rows, w: Worker, c: nat)
    requires WorkerOk(true, rows, w) && w.phase != Done && Next(true, rows, w).End? && c in rows
    ensures Fair(rows[c], w, Published(rows, w.cw)[c], Next(true, rows, w).w, c)
  {
    match w.phase
    case CommitRaise =>
      assert c in w.cw <==> c in w.specs;
      assert c in w.specs ==> c in Present(rows, w.specs);
    case CommitDrop => assert c in w.cw ==> c in w.specs;
    case _ =>
  }

  lemma StepIsFair(s: State, a: Action, c: nat)
    requires Inv(true, s) && Enabled(s, a) && c in s.rows
    ensures var s' := Step(true, s, a);
      && s'.rows.Keys == s.rows.Keys && s'.workers == s.workers[a.t := s'.workers[a.t]]
      && Fair(s.rows[c], s.workers[a.t], s'.rows[c], s'.workers[a.t], c)
  {
    var w := s.workers[a.t];
    assert WorkerOk(true, s.rows, w);
    if a.Run? {
      if Next(true, s.rows, w).End? {
        EndIsFair(s.rows, w, c);
      } else if w.phase.Drop? {
        DropIsFair(s.rows, w, c);
      } else {
        assert w.specs[..0] == [];
      }
    }
  }

  lemma FairKeeps(rows: Rows, workers: seq<Worker>, t: nat, rows': Rows, w': Worker, c: nat)
    requires c in rows && c in rows' && t < |workers| && Accounted(rows, workers, c)
    requires Fair(rows[c], workers[t], rows'[c], w', c)
    ensures Accounted(rows', workers[t := w'], c)
  {
    SumUpdate(workers, t, w', OwesRow(c));
    SumUpdate(workers, t, w', HoldsRow(c));
    SumUpdate(workers, t, w', SpentRow(c));
  }

  lemma StepAccounts(s: State, a: Action)
    requires Inv(true, s) && Ledger(s) && Enabled(s, a)
    ensures Ledger(Step(true, s, a))
  {
    var s' := Step(true, s, a);
    forall c | c in s'.rows ensures Accounted(s'.rows, s'.workers, c) {
      StepIsFair(s, a, c);
      FairKeeps(s.rows, s.workers, a.t, s'.rows, s'.workers[a.t], c);
    }
  }

  lemma {:induction false} RunAccounts(s: State, acts: seq<Action>)
    requires Inv(true, s) && Ledger(s) && IsRun(true, s, acts)
    ensures Ledger(After(true, s, acts)) && Inv(true, After(true, s, acts))
    decreases |acts|
  {
    if acts != [] {
      StepKeeps(true, s, acts[0]);
      StepAccounts(s, acts[0]);
      RunAccounts(Step(true, s, acts[0]), acts[1..]);
    }
  }

  lemma UnusedLedger(s: State)
    requires Unused(s)
    ensures Inv(true, s) && Ledger(s)
  {
    InitHolds(true, s);
    forall c | c in s.rows ensures Accounted(s.rows, s.workers, c) {
      SumZero(s.workers, HoldsRow(c));
    }
  }

  lemma {:induction false} SumAtMost(workers: seq<Worker>, f: Worker -> nat, g: Worker -> nat)
    requires forall w <- workers :: f(w) <= g(w)
    ensures Sum(workers, f) <= Sum(workers, g)
  {
    if workers != [] { SumAtMost(workers[..|workers| - 1], f, g); }
  }

  lemma HoldersCoverActive(always: bool, s: State, acts: seq<Action>, c: nat)
    requires Unused(s) && IsRun(always, s, acts) && c in After(always, s, acts).rows
    ensures After(always, s, acts).rows[c].active <= Holders(After(always, s, acts).workers, c)
  {
    if always {
      UnusedLedger(s);
      RunAccounts(s, acts);
      var e := After(true, s, acts);
      assert Accounted(e.rows, e.workers, c);
      SumAtMost(e.workers, OwesRow(c), HoldsRow(c));
    } else {
      ConditionalReleaseKeepsQuota(s, acts);
    }
  }

  /**
   * No unit leaks, for the release as it is and for a conditional one: every counter is at most
   * the number of workers that hold its row, so once nobody holds anything all are at zero.
   */
  lemma CountersReturnToZero(always: bool, s: State, acts: seq<Action>)
    requires Unused(s) && IsRun(always, s, acts)
    ensures var e := After(always, s, acts);
      && (forall c | c in e.rows :: e.rows[c].active <= Holders(e.workers, c))
      && (NobodyHolds(e.workers) ==> forall c | c in e.rows :: e.rows[c].active == 0)
  {
    var e := After(always, s, acts);
    forall c | c in e.rows
      ensures e.rows[c].active <= Holders(e.workers, c)
      ensures NobodyHolds(e.workers) ==> Holders(e.workers, c) == 0
    {
      HoldersCoverActive(always, s, acts, c);
      if NobodyHolds(e.workers) { SumZero(e.workers, HoldsRow(c)); }
    }
  }

  // ------------------------------------------------------------------
  // How many workers it takes to exceed a quota
  // ------------------------------------------------------------------

  /** The workers whose list names row `c`. */
  function Listing(workers: seq<Worker>, c: nat): nat {
    Sum(workers, ListsRow(c))
  }

  lemma {:induction false} SumsAtMost(workers: seq<Worker>, f: Worker -> nat, g: Worker -> nat, h: Worker -> nat)
    requires forall w <- workers :: f(w) + g(w) <= h(w)
    ensures Sum(workers, f) + Sum(workers, g) <= Sum(workers, h)
  {
    if workers != [] { SumsAtMost(workers[..|workers| - 1], f, g, h); }
  }

  lemma NextKeepsSpecs(always: bool, rows: Rows, w: Worker)
    requires w.phase != Done
    ensures Next(always, rows, w).w.specs == w.specs
  {
  }

  lemma StepLists(always: bool, s: State, a: Action, c: nat)
    requires Enabled(s, a)
    ensures Listing(Step(always, s, a).workers, c) == Listing(s.workers, c)
  {
    var w := Step(always, s, a).workers[a.t];
    if a.Run? { NextKeepsSpecs(always, s.rows, s.workers[a.t]); }
    assert Step(always, s, a).workers == s.workers[a.t := w] && w.specs == s.workers[a.t].specs;
    SumUpdate(s.workers, a.t, w, ListsRow(c));
  }

  lemma {:induction false} ListingStays(always: bool, s: State, acts: seq<Action>, c: nat)
    requires IsRun(always, s, acts)
    ensures Listing(After(always, s, acts).workers, c) == Listing(s.workers, c)
    decreases |acts|
  {
    if acts != [] {
      StepLists(always, s, acts[0], c);
      ListingStays(always, Step(always, s, acts[0]), acts[1..], c);
    }
  }

  /** More workers hold row `c` than it has units. */
  ghost predicate Overgranted(e: State, c: nat) {
    c in e.rows && Holders(e.workers, c) > e.rows[c].capacity
  }

  /**
   * For any lists: a row is overgranted only if it has a unit and at least two workers more
   * than units list it, one to give back what it does not hold and one to take that.
   */
  lemma OvergrantNeedsTwoMore(s: State, acts: seq<Action>, c: nat)
    requires Unused(s) && IsRun(true, s, acts) && c in s.rows && Overgranted(After(true, s, acts), c)
    ensures 0 < s.rows[c].capacity && s.rows[c].capacity + 2 <= Listing(s.workers, c)
  {
    var e := After(true, s, acts);
    UnusedLedger(s);
    RunAccounts(s, acts);
    LimitsStay(true, s, acts);
    assert Accounted(e.rows, e.workers, c);
    SumsAtMost(e.workers, HoldsRow(c), SpentRow(c), ListsRow(c));
    ListingStays(true, s, acts, c);
  }

  // ------------------------------------------------------------------
  // That many are enough
  // ------------------------------------------------------------------

  /** A worker on row `c` alone. */
  function On(c: nat, phase: Phase, granted: bool, cw: map<nat, nat>): Worker {
    Worker([c], phase, granted, cw)
  }

  function Waiting(c: nat): Worker { On(c, Check(0), false, map[]) }

  function Taken(c: nat): Worker { On(c, Holding, true, map[]) }

  function Gave(c: nat): Worker { On(c, Done, false, map[]) }

  /** Nobody is inside a transaction. */
  function Calm(rows: Rows, workers: seq<Worker>): State {
    State(rows, map[], workers)
  }

  /** Worker `t` is inside a transaction that holds row `c`. */
  function Inside(rows: Rows, workers: seq<Worker>, t: nat, c: nat, w: Worker): State
    requires t < |workers|
  {
    State(rows, map[c := t], workers[t := w])
  }

  /** From `s` these steps lead to `e`. */
  ghost predicate Leads(s: State, acts: seq<Action>, e: State) {
    IsRun(true, s, acts) && After(true, s, acts) == e
  }

  lemma OneStep(s: State, a: Action, rest: seq<Action>, e: State)
    requires Enabled(s, a) && Leads(Step(true, s, a), rest, e)
    ensures Leads(s, [a] + rest, e)
  {
    assert ([a] + rest)[1..] == rest;
  }

  lemma {:induction false} LeadsOn(s: State, a: seq<Action>, m: State, b: seq<Action>, e: State)
    requires Leads(s, a, m) && Leads(m, b, e)
    ensures Leads(s, a + b, e)
    decreases |a|
  {
    if a == [] {
      assert a + b == b;
    } else {
      assert (a + b)[1..] == a[1..] + b;
      LeadsOn(Step(true, s, a[0]), a[1..], m, b, e);
    }
  }

  lemma TakeReads(rows: Rows, workers: seq<Worker>, t: nat, c: nat)
    requires t < |workers| && workers[t] == Waiting(c) && c in rows && rows[c].active < rows[c].capacity
    ensures Enabled(Calm(rows, workers), Run(t))
    ensures Step(true, Calm(rows, workers), Run(t)) == Inside(rows, workers, t, c, On(c, Check(1), false, map[]))
  {
    assert RowLocks.Grant(map[], t, {c}) == map[c := t];
  }

  lemma TakeWrites(rows: Rows, workers: seq<Worker>, t: nat, c: nat)
    requires t < |workers| && c in rows
    ensures var cw := map[c := rows[c].active + 1];
      var s1 := Inside(rows, workers, t, c, On(c, Check(1), false, map[]));
      var s2 := Inside(rows, workers, t, c, On(c, Write(0), false, map[]));
      var s3 := Inside(rows, workers, t, c, On(c, Write(1), false, cw));
      && Enabled(s1, Run(t)) && Step(true, s1, Run(t)) == s2
      && Enabled(s2, Run(t)) && Step(true, s2, Run(t)) == s3
      && Enabled(s3, Run(t)) && Step(true, s3, Run(t)) == Inside(rows, workers, t, c, On(c, CommitRaise, false, cw))
  {
    assert RowLocks.Grant(map[c := t], t, {}) == map[c := t];
  }

  lemma PublishesOne(rows: Rows, c: nat, n: nat)
    requires c in rows
    ensures Published(rows, map[c := n]) == rows[c := rows[c].(active := n)]
    ensures Published(rows, map[]) == rows
  {
  }

  lemma TakeCommits(rows: Rows, workers: seq<Worker>, t: nat, c: nat)
    requires t < |workers| && c in rows
    ensures var s4 := Inside(rows, workers, t, c, On(c, CommitRaise, false, map[c := rows[c].active + 1]));
      Enabled(s4, Run(t)) && Step(true, s4, Run(t)) == Calm(Raise(rows, c), workers[t := Taken(c)])
  {
    PublishesOne(rows, c, rows[c].active + 1);
    assert RowLocks.Release(map[c := t], t) == map[];
  }

  /** An uncontended acquire of a free unit. */
  lemma Takes(rows: Rows, workers: seq<Worker>, t: nat, c: nat) returns (acts: seq<Action>)
    requires t < |workers| && workers[t] == Waiting(c) && c in rows && rows[c].active < rows[c].capacity
    ensures Leads(Calm(rows, workers), acts, Calm(Raise(rows, c), workers[t := Taken(c)]))
  {
    var e := Calm(Raise(rows, c), workers[t := Taken(c)]);
    var cw := map[c := rows[c].active + 1];
    TakeReads(rows, workers, t, c);
    TakeWrites(rows, workers, t, c);
    TakeCommits(rows, workers, t, c);
    OneStep(Inside(rows, workers, t, c, On(c, CommitRaise, false, cw)), Run(t), [], e);
    OneStep(Inside(rows, workers, t, c, On(c, Write(1), false, cw)), Run(t), [Run(t)] + [], e);
    acts := [Run(t)] + ([Run(t)] + []);
    OneStep(Inside(rows, workers, t, c, On(c, Write(0), false, map[])), Run(t), acts, e);
    OneStep(Inside(rows, workers, t, c, On(c, Check(1), false, map[])), Run(t), [Run(t)] + acts, e);
    OneStep(Calm(rows, workers), Run(t), [Run(t)] + ([Run(t)] + acts), e);
    acts := [Run(t)] + ([Run(t)] + ([Run(t)] + acts));
  }

  lemma RefusedLowers(rows: Rows, workers: seq<Worker>, t: nat, c: nat)
    requires t < |workers| && workers[t] == Waiting(c)
    requires c in rows && 0 < rows[c].capacity <= rows[c].active
    ensures var s0, s1 := Calm(rows, workers), Calm(rows, workers[t := On(c, Drop(0), false, map[])]);
      && Enabled(s0, Run(t)) && Step(true, s0, Run(t)) == s1
      && Enabled(s1, Run(t))
      && Step(true, s1, Run(t)) == Inside(rows, workers, t, c, On(c, Drop(1), false, map[c := rows[c].active - 1]))
  {
    PublishesOne(rows, c, 0);
    var empty: map<nat, nat> := map[];
    assert RowLocks.Grant(empty, t, {c}) == map[c := t] && RowLocks.Release(empty, t) == empty;
  }

  lemma RefusedCommits(rows: Rows, workers: seq<Worker>, t: nat, c: nat)
    requires t < |workers| && c in rows && rows[c].active > 0
    ensures var cw := map[c := rows[c].active - 1];
      var s2 := Inside(rows, workers, t, c, On(c, Drop(1), false, cw));
      var s3 := Inside(rows, workers, t, c, On(c, CommitDrop, false, cw));
      && Enabled(s2, Run(t)) && Step(true, s2, Run(t)) == s3
      && Enabled(s3, Run(t)) && Step(true, s3, Run(t)) == Calm(Lower(rows, c), workers[t := Gave(c)])
  {
    PublishesOne(rows, c, rows[c].active - 1);
    assert RowLocks.Grant(map[c := t], t, {}) == map[c := t] && RowLocks.Release(map[c := t], t) == map[];
  }

  /** A refused worker gives back somebody else's unit. */
  lemma RefusedGivesBack(rows: Rows, workers: seq<Worker>, t: nat, c: nat) returns (acts: seq<Action>)
    requires t < |workers| && workers[t] == Waiting(c)
    requires c in rows && 0 < rows[c].capacity <= rows[c].active
    ensures Leads(Calm(rows, workers), acts, Calm(Lower(rows, c), workers[t := Gave(c)]))
  {
    var e := Calm(Lower(rows, c), workers[t := Gave(c)]);
    var cw := map[c := rows[c].active - 1];
    RefusedLowers(rows, workers, t, c);
    RefusedCommits(rows, workers, t, c);
    OneStep(Inside(rows, workers, t, c, On(c, CommitDrop, false, cw)), Run(t), [], e);
    OneStep(Inside(rows, workers, t, c, On(c, Drop(1), false, cw)), Run(t), [Run(t)] + [], e);
    acts := [Run(t)] + ([Run(t)] + []);
    OneStep(Calm(rows, workers[t := On(c, Drop(0), false, map[])]), Run(t), acts, e);
    OneStep(Calm(rows, workers), Run(t), [Run(t)] + acts, e);
    acts := [Run(t)] + ([Run(t)] + acts);
  }

  function WaitsRow(c: nat): Worker -> nat {
    (w: Worker) => if w == Waiting(c) then 1 else 0
  }

  /** Workers that wait to start on row `c`. */
  function Idle(workers: seq<Worker>, c: nat): nat {
    Sum(workers, WaitsRow(c))
  }

  lemma FindIdle(workers: seq<Worker>, c: nat) returns (t: nat)
    requires Idle(workers, c) > 0
    ensures t < |workers| && workers[t] == Waiting(c)
  {
    if forall w <- workers :: WaitsRow(c)(w) == 0 {
      SumZero(workers, WaitsRow(c));
    }
    t :| 0 <= t < |workers| && WaitsRow(c)(workers[t]) != 0;
  }

  lemma MovedOn(workers: seq<Worker>, t: nat, c: nat, w: Worker)
    requires t < |workers| && workers[t] == Waiting(c) && (w == Taken(c) || w == Gave(c))
    ensures Idle(workers[t := w], c) == Idle(workers, c) - 1
    ensures Holders(workers[t := w], c) == Holders(workers, c) + if w == Taken(c) then 1 else 0
  {
    SumUpdate(workers, t, w, WaitsRow(c));
    SumUpdate(workers, t, w, HoldsRow(c));
  }

  /** `m` waiting workers take a free unit each. */
  lemma {:induction false} Fill(rows: Rows, workers: seq<Worker>, c: nat, m: nat)
    returns (acts: seq<Action>, rows': Rows, workers': seq<Worker>)
    requires c in rows && rows[c].active + m <= rows[c].capacity && m <= Idle(workers, c)
    ensures Leads(Calm(rows, workers), acts, Calm(rows', workers')) && c in rows'
    ensures rows'[c] == rows[c].(active := rows[c].active + m)
    ensures Idle(workers', c) == Idle(workers, c) - m && Holders(workers', c) == Holders(workers, c) + m
    decreases m
  {
    if m == 0 {
      acts, rows', workers' := [], rows, workers;
    } else {
      var t := FindIdle(workers, c);
      var first := Takes(rows, workers, t, c);
      MovedOn(workers, t, c, Taken(c));
      var rest;
      rest, rows', workers' := Fill(Raise(rows, c), workers[t := Taken(c)], c, m - 1);
      LeadsOn(Calm(rows, workers), first, Calm(Raise(rows, c), workers[t := Taken(c)]), rest, Calm(rows', workers'));
      acts := first + rest;
    }
  }

  /** All units taken, one refused worker gives one back, and one more takes it. */
  lemma TwoMoreOvergrant(rows: Rows, workers: seq<Worker>, c: nat) returns (acts: seq<Action>)
    requires c in rows && rows[c].active == 0 < rows[c].capacity && rows[c].capacity + 2 <= Idle(workers, c)
    ensures IsRun(true, Calm(rows, workers), acts) && Overgranted(After(true, Calm(rows, workers), acts), c)
  {
    var a, rows1, workers1 := Fill(rows, workers, c, rows[c].capacity);
    var t := FindIdle(workers1, c);
    var b := RefusedGivesBack(rows1, workers1, t, c);
    MovedOn(workers1, t, c, Gave(c));
    var d, rows3, workers3 := Fill(Lower(rows1, c), workers1[t := Gave(c)], c, 1);
    LeadsOn(Calm(rows, workers), a, Calm(rows1, workers1), b, Calm(Lower(rows1, c), workers1[t := Gave(c)]));
    LeadsOn(Calm(rows, workers), a + b, Calm(Lower(rows1, c), workers1[t := Gave(c)]), d, Calm(rows3, workers3));
    acts := a + b + d;
  }

  lemma ConditionalNeverOvergrants(s: State, acts: seq<Action>, c: nat)
    requires Unused(s) && IsRun(false, s, acts)
    ensures !Overgranted(After(false, s, acts), c)
  {
    ConditionalReleaseKeepsQuota(s, acts);
  }

  /** Each worker asks for one row, as those of the release check do. */
  ghost predicate OneRowEach(s: State) {
    forall w <- s.workers :: |w.specs| == 1
  }

  ghost predicate CanOvergrant(always: bool, s: State, c: nat) {
    exists acts :: IsRun(always, s, acts) && Overgranted(After(always, s, acts), c)
  }

  /**
   * Workers of one row each, over any rows: some schedule lets more workers hold row `c` than
   * it has units if and only if the release is unconditional, the row has a unit, and at least
   * two workers more than units ask for it.
   */
  lemma OvergrantsIff(always: bool, s: State, c: nat)
    requires Unused(s) && OneRowEach(s) && c in s.rows
    ensures CanOvergrant(always, s, c) <==>
            always && 0 < s.rows[c].capacity && s.rows[c].capacity + 2 <= Listing(s.workers, c)
  {
    forall acts | IsRun(always, s, acts) && Overgranted(After(always, s, acts), c)
      ensures always && 0 < s.rows[c].capacity && s.rows[c].capacity + 2 <= Listing(s.workers, c)
    {
      if always {
        OvergrantNeedsTwoMore(s, acts, c);
      } else {
        ConditionalNeverOvergrants(s, acts, c);
      }
    }
    if always && 0 < s.rows[c].capacity && s.rows[c].capacity + 2 <= Listing(s.workers, c) {
      AllIdle(s, c);
      var acts := TwoMoreOvergrant(s.rows, s.workers, c);
    }
  }

  lemma AllIdle(s: State, c: nat)
    requires Unused(s) && OneRowEach(s)
    ensures Listing(s.workers, c) <= Idle(s.workers, c)
  {
    forall w <- s.workers ensures ListsRow(c)(w) <= WaitsRow(c)(w) {
      var t :| 0 <= t < |s.workers| && s.workers[t] == w;
      assert |w.specs| == 1 && w.phase == Check(0);
      if c in w.specs { assert w.specs == [c]; }
    }
    SumAtMost(s.workers, ListsRow(c), WaitsRow(c));
  }
}
