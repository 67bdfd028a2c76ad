/**
 * Workers that acquire a list of counter rows, hold them, and give them back, interleaved
 * statement by statement under row locks.
 */
module MultiDimensionRuns {
  import opened Common
  import opened MultiDimension
  import RowLocks

  datatype Phase =
    | Check(k: nat)      // FOR UPDATE on specs[k], then compare
    | Write(k: nat)      // UPDATE active = active + 1 on specs[k]
    | CommitRaise
    | Holding
    | Drop(k: nat)       // UPDATE active = active - 1 WHERE active > 0 on specs[k]
    | CommitDrop
    | Done

  /** `granted` is set from the commit of the acquire to the commit of the release. */
  datatype Worker = Worker(specs: seq<nat>, phase: Phase, granted: bool, cw: map<nat, nat>)

  datatype State = State(rows: Rows, locks: map<nat, nat>, workers: seq<Worker>)

  datatype Action = Run(t: nat) | Crash(t: nat)

  /** The counter row the next statement locks. */
  function Target(rows: Rows, w: Worker): Option<nat> {
    match w.phase
    case Check(k) => if k < |w.specs| && w.specs[k] in rows then Some(w.specs[k]) else None
    case Drop(k) =>
      if k < |w.specs| && w.specs[k] in rows && rows[w.specs[k]].active > 0 then Some(w.specs[k]) else None
    case _ => None
  }

  function Wants(s: State, t: nat): Option<nat>
    requires t < |s.workers|
  {
    var r := Target(s.rows, s.workers[t]);
    if r.Some? && r.value in s.locks && s.locks[r.value] == t then None else r
  }

  predicate Enabled(s: State, a: Action) {
    a.t < |s.workers| && s.workers[a.t].phase != Done
    && (a.Run? && Wants(s, a.t).Some? ==> Wants(s, a.t).value !in s.locks)
  }

  /** A statement inside the transaction, or the end of it. */
  datatype Move = Go(w: Worker, acquire: set<nat>) | End(w: Worker)

  function CheckMove(always: bool, rows: Rows, w: Worker, k: nat): Move {
    if k >= |w.specs| then Go(w.(phase := Write(0)), {})
    else if w.specs[k] !in rows then Go(w.(phase := Check(k + 1)), {})
    else if rows[w.specs[k]].active >= rows[w.specs[k]].capacity then End(w.(phase := if always then Drop(0) else Done))
    else Go(w.(phase := Check(k + 1)), {w.specs[k]})
  }

  function WriteMove(rows: Rows, w: Worker, k: nat): Move {
    if k >= |w.specs| then Go(w.(phase := CommitRaise), {})
    else if w.specs[k] !in rows then Go(w.(phase := Write(k + 1)), {})
    else Go(w.(phase := Write(k + 1), cw := w.cw[w.specs[k] := rows[w.specs[k]].active + 1]), {})
  }

  function DropMove(rows: Rows, w: Worker, k: nat): Move {
    if k >= |w.specs| then Go(w.(phase := CommitDrop), {})
    else if w.specs[k] !in rows || rows[w.specs[k]].active == 0 then Go(w.(phase := Drop(k + 1)), {})
    else Go(w.(phase := Drop(k + 1), cw := w.cw[w.specs[k] := rows[w.specs[k]].active - 1]), {w.specs[k]})
  }

  /** `always` is the release that runs whether or not the acquire succeeded. */
  function Next(always: bool, rows: Rows, w: Worker): Move
    requires w.phase != Done
  {
    match w.phase
    case Check(k) => CheckMove(always, rows, w, k)
    case Write(k) => WriteMove(rows, w, k)
    case CommitRaise => End(w.(phase := Holding, granted := true, cw := map[]))
    case Holding => Go(w.(phase := Drop(0)), {})
    case Drop(k) => DropMove(rows, w, k)
    case CommitDrop => End(w.(phase := Done, granted := false, cw := map[]))
  }

  function Published(rows: Rows, cw: map<nat, nat>): (r: Rows)
    ensures r.Keys == rows.Keys
  {
    map c | c in rows :: if c in rows && c in cw then rows[c].(active := cw[c]) else rows[c]
  }

  /** End of a transaction: publish `rows`, drop every lock. */
  function Ended(s: State, t: nat, rows: Rows, w: Worker): State
    requires t < |s.workers|
  {
    State(rows, RowLocks.Release(s.locks, t), s.workers[t := w])
  }

  function Gone(s: State, t: nat, w: Worker, acquire: set<nat>): State
    requires t < |s.workers|
  {
    s.(workers := s.workers[t := w], locks := RowLocks.Grant(s.locks, t, acquire))
  }

  function Step(always: bool, s: State, a: Action): State
    requires Enabled(s, a)
  {
    var w := s.workers[a.t];
    match a
    case Crash(t) => Ended(s, t, s.rows, w.(phase := Done, cw := map[]))
    case Run(t) =>
      match Next(always, s.rows, w)
      case Go(w', acquire) => Gone(s, t, w', acquire)
      case End(w') => Ended(s, t, Published(s.rows, w.cw), w')
  }

  predicate IsRun(always: bool, s: State, acts: seq<Action>)
    decreases |acts|
  {
    acts == [] || (Enabled(s, acts[0]) && IsRun(always, Step(always, s, acts[0]), acts[1..]))
  }

  function After(always: bool, s: State, acts: seq<Action>): State
    requires IsRun(always, s, acts)
    decreases |acts|
  {
    if acts == [] then s else After(always, Step(always, s, acts[0]), acts[1..])
  }

  // ------------------------------------------------------------------
  // Invariant
  // ------------------------------------------------------------------

  function Present(rows: Rows, specs: seq<nat>): set<nat> {
    set c | c in specs && c in rows
  }

  /** The rows a worker's open transaction has locked. */
  function Held(rows: Rows, w: Worker): set<nat> {
    match w.phase
    case Check(k) => if k <= |w.specs| then Present(rows, w.specs[..k]) else {}
    case Write(_) => Present(rows, w.specs)
    case CommitRaise => Present(rows, w.specs)
    case Holding => {}
    case Drop(_) => w.cw.Keys
    case CommitDrop => w.cw.Keys
    case Done => {}
  }

  function AllHeld(s: State): (r: seq<set<nat>>)
    ensures |r| == |s.workers|
  {
    seq(|s.workers|, t requires 0 <= t < |s.workers| => Held(s.rows, s.workers[t]))
  }

  ghost predicate Tested(rows: Rows, cs: set<nat>) {
    forall c | c in cs :: c in rows && rows[c].active < rows[c].capacity
  }

  /** `full` says that every row this worker will lower is known to be positive. */
  ghost predicate WorkerOk(always: bool, rows: Rows, w: Worker) {
    && Distinct(w.specs)
    && match w.phase
       case Check(k) => k <= |w.specs| && w.cw == map[] && !w.granted && Tested(rows, Present(rows, w.specs[..k]))
       case Write(k) =>
         && k <= |w.specs| && !w.granted && Tested(rows, Present(rows, w.specs))
         && w.cw.Keys == Present(rows, w.specs[..k])
         && (forall c | c in w.cw :: w.cw[c] == rows[c].active + 1)
       case CommitRaise =>
         && !w.granted && Tested(rows, Present(rows, w.specs)) && w.cw.Keys == Present(rows, w.specs)
         && (forall c | c in w.cw :: w.cw[c] == rows[c].active + 1)
       case Holding => w.granted && w.cw == map[]
       case Drop(k) =>
         && k <= |w.specs| && (always || w.granted) && w.cw.Keys <= Present(rows, w.specs[..k])
         && (always || w.cw.Keys == Present(rows, w.specs[..k]))
         && (forall c | c in w.cw :: rows[c].active > 0 && w.cw[c] == rows[c].active - 1)
       case CommitDrop =>
         && (always || w.granted) && w.cw.Keys <= Present(rows, w.specs)
         && (always || w.cw.Keys == Present(rows, w.specs))
         && (forall c | c in w.cw :: rows[c].active > 0 && w.cw[c] == rows[c].active - 1)
       case Done => w.cw == map[]
  }

  function Sum(workers: seq<Worker>, f: Worker -> nat): nat {
    if workers == [] then 0 else Sum(workers[..|workers| - 1], f) + f(workers[|workers| - 1])
  }

  lemma {:induction false} SumUpdate(workers: seq<Worker>, t: nat, w: Worker, f: Worker -> nat)
    requires t < |workers|
    ensures Sum(workers[t := w], f) == Sum(workers, f) - f(workers[t]) + f(w)
  {
    var n := |workers| - 1;
    if t == n {
      assert workers[t := w][..n] == workers[..n];
    } else {
      assert workers[t := w][..n] == workers[..n][t := w];
      SumUpdate(workers[..n], t, w, f);
    }
  }

  lemma {:induction false} SumZero(workers: seq<Worker>, f: Worker -> nat)
    requires forall w <- workers :: f(w) == 0
    ensures Sum(workers, f) == 0
  {
    if workers != [] { SumZero(workers[..|workers| - 1], f); }
  }

  function HoldsRow(c: nat): Worker -> nat {
    (w: Worker) => if w.granted && c in w.specs then 1 else 0
  }

  /** Workers whose committed acquire of row `c` has not been given back. */
  function Holders(workers: seq<Worker>, c: nat): nat {
    Sum(workers, HoldsRow(c))
  }

  lemma HoldersAtLeast(workers: seq<Worker>, t: nat, c: nat)
    requires t < |workers|
    ensures Holders(workers, c) >= HoldsRow(c)(workers[t])
  {
    SumUpdate(workers, t, workers[t].(granted := false), HoldsRow(c));
  }

  ghost predicate Inv(always: bool, s: State) {
    && RowLocks.LocksAre(s.locks, AllHeld(s))
    && (forall t | 0 <= t < |s.workers| :: WorkerOk(always, s.rows, s.workers[t]))
    && Bounded(s.rows)
  }

  /** Conservation: every unit in use belongs to a worker that still holds it. */
  ghost predicate Conserved(s: State) {
    forall c | c in s.rows :: s.rows[c].active == Holders(s.workers, c)
  }

  lemma GoKeeps(always: bool, s: State, t: nat, w: Worker, acquire: set<nat>)
    requires Inv(always, s) && t < |s.workers|
    requires WorkerOk(always, s.rows, w) && Held(s.rows, w) == Held(s.rows, s.workers[t]) + acquire
    requires forall c | c in acquire && c in s.locks :: s.locks[c] == t
    ensures Inv(always, Gone(s, t, w, acquire))
  {
    RowLocks.GrantKeeps(s.locks, AllHeld(s), t, acquire);
    assert AllHeld(Gone(s, t, w, acquire)) == AllHeld(s)[t := Held(s.rows, w)];
  }

  lemma OthersKept(always: bool, rows: Rows, rows': Rows, w: Worker)
    requires WorkerOk(always, rows, w) && rows'.Keys == rows.Keys
    requires forall c | c in rows && c in Held(rows, w) :: rows'[c] == rows[c]
    ensures WorkerOk(always, rows', w) && Held(rows', w) == Held(rows, w)
  {
    assert forall specs :: Present(rows', specs) == Present(rows, specs);
  }

  /** Publishing rows that the transaction holds disturbs nobody else. */
  lemma EndKeeps(always: bool, s: State, t: nat, rows: Rows, w: Worker)
    requires Inv(always, s) && t < |s.workers| && rows.Keys == s.rows.Keys && Bounded(rows)
    requires forall c | c in rows && c !in Held(s.rows, s.workers[t]) :: rows[c] == s.rows[c]
    requires WorkerOk(always, rows, w) && Held(rows, w) == {}
    ensures Inv(always, Ended(s, t, rows, w))
  {
    forall u | 0 <= u < |s.workers| && u != t
      ensures WorkerOk(always, rows, s.workers[u]) && Held(rows, s.workers[u]) == Held(s.rows, s.workers[u])
    {
      forall c | c in Held(s.rows, s.workers[u]) ensures c !in Held(s.rows, s.workers[t]) {
        assert c in AllHeld(s)[u] && (c in AllHeld(s)[t] <==> c in Held(s.rows, s.workers[t]));
        assert s.locks[c] == u;
      }
      OthersKept(always, s.rows, rows, s.workers[u]);
    }
    RowLocks.ReleaseKeeps(s.locks, AllHeld(s), t);
    assert AllHeld(Ended(s, t, rows, w)) == AllHeld(s)[t := {}];
  }

  lemma PresentNext(rows: Rows, specs: seq<nat>, k: nat)
    requires k < |specs|
    ensures Present(rows, specs[..k + 1]) == Present(rows, specs[..k]) + (if specs[k] in rows then {specs[k]} else {})
    ensures Distinct(specs) ==> specs[k] !in specs[..k]
  {
    assert specs[..k + 1] == specs[..k] + [specs[k]];
  }

  ghost predicate MoveOk(always: bool, rows: Rows, w: Worker, m: Move) {
    match m
    case Go(w', acquire) => WorkerOk(always, rows, w') && Held(rows, w') == Held(rows, w) + acquire
    case End(w') =>
      && WorkerOk(always, Published(rows, w.cw), w') && Held(Published(rows, w.cw), w') == {}
      && (forall c | c in w.cw :: c in Held(rows, w)) && Bounded(Published(rows, w.cw))
  }

  lemma CheckOk(always: bool, rows: Rows, w: Worker)
    requires WorkerOk(always, rows, w) && Bounded(rows) && w.phase.Check?
    ensures MoveOk(always, rows, w, Next(always, rows, w))
  {
    var k := w.phase.k;
    assert w.specs[..0] == [] && w.specs[..|w.specs|] == w.specs;
    if k < |w.specs| { PresentNext(rows, w.specs, k); }
    assert Published(rows, w.cw) == rows;
  }

  lemma WriteOk(always: bool, rows: Rows, w: Worker)
    requires WorkerOk(always, rows, w) && Bounded(rows) && w.phase.Write?
    ensures MoveOk(always, rows, w, Next(always, rows, w))
  {
    var k := w.phase.k;
    assert w.specs[..|w.specs|] == w.specs;
    if k < |w.specs| { PresentNext(rows, w.specs, k); }
  }

  /** The row is lowered. */
  lemma DropLowers(always: bool, rows: Rows, w: Worker, k: nat)
    requires WorkerOk(always, rows, w) && w.phase == Drop(k) && k < |w.specs|
    requires w.specs[k] in rows && rows[w.specs[k]].active > 0
    ensures WorkerOk(always, rows, DropMove(rows, w, k).w)
    ensures Held(rows, DropMove(rows, w, k).w) == Held(rows, w) + DropMove(rows, w, k).acquire
  {
    PresentNext(rows, w.specs, k);
    assert DropMove(rows, w, k).w.cw.Keys == w.cw.Keys + {w.specs[k]};
  }

  lemma DropNext(always: bool, rows: Rows, w: Worker, k: nat)
    requires WorkerOk(always, rows, w) && w.phase == Drop(k) && k < |w.specs|
    requires always || forall c <- w.specs :: c in rows ==> rows[c].active > 0
    ensures DropMove(rows, w, k).Go?
    ensures WorkerOk(always, rows, DropMove(rows, w, k).w)
    ensures Held(rows, DropMove(rows, w, k).w) == Held(rows, w) + DropMove(rows, w, k).acquire
  {
    var c := w.specs[k];
    assert c in w.specs;
    if c in rows && rows[c].active > 0 {
      DropLowers(always, rows, w, k);
    } else {
      PresentNext(rows, w.specs, k);
      assert c !in rows || always;
    }
  }

  lemma DropOk(always: bool, rows: Rows, w: Worker)
    requires WorkerOk(always, rows, w) && Bounded(rows) && w.phase.Drop?
    requires always || forall c <- w.specs :: c in rows ==> rows[c].active > 0
    ensures MoveOk(always, rows, w, Next(always, rows, w))
  {
    var k := w.phase.k;
    if k < |w.specs| {
      DropNext(always, rows, w, k);
    } else {
      assert w.specs[..k] == w.specs;
    }
  }

  lemma RestOk(always: bool, rows: Rows, w: Worker)
    requires WorkerOk(always, rows, w) && Bounded(rows)
    requires w.phase == CommitRaise || w.phase == CommitDrop || w.phase == Holding
    ensures MoveOk(always, rows, w, Next(always, rows, w))
  {
    assert w.specs[..0] == [];
  }

  /** A holder's rows are all in use, at least by itself. */
  lemma HolderRowsPositive(s: State, t: nat)
    requires Conserved(s) && t < |s.workers| && s.workers[t].granted
    ensures forall c <- s.workers[t].specs :: c in s.rows ==> s.rows[c].active > 0
  {
    forall c <- s.workers[t].specs ensures c in s.rows ==> s.rows[c].active > 0 {
      HoldersAtLeast(s.workers, t, c);
    }
  }

  lemma NextOk(always: bool, s: State, t: nat)
    requires Inv(always, s) && (always || Conserved(s)) && t < |s.workers| && s.workers[t].phase != Done
    ensures MoveOk(always, s.rows, s.workers[t], Next(always, s.rows, s.workers[t]))
  {
    var w := s.workers[t];
    assert WorkerOk(always, s.rows, w);
    match w.phase
    case Check(_) => CheckOk(always, s.rows, w);
    case Write(_) => WriteOk(always, s.rows, w);
    case Drop(_) =>
      if !always { HolderRowsPositive(s, t); }
      DropOk(always, s.rows, w);
    case _ => RestOk(always, s.rows, w);
  }

  lemma StepKeeps(always: bool, s: State, a: Action)
    requires Inv(always, s) && (always || Conserved(s)) && Enabled(s, a)
    ensures Inv(always, Step(always, s, a))
  {
    var w := s.workers[a.t];
    if a.Crash? {
      assert WorkerOk(always, s.rows, w);
      EndKeeps(always, s, a.t, s.rows, w.(phase := Done, cw := map[]));
    } else {
      NextOk(always, s, a.t);
      match Next(always, s.rows, w)
      case Go(w', acquire) =>
        AcquireIsTarget(always, s.rows, w);
        GoKeeps(always, s, a.t, w', acquire);
      case End(w') => EndKeeps(always, s, a.t, Published(s.rows, w.cw), w');
    }
  }

  lemma AcquireIsTarget(always: bool, rows: Rows, w: Worker)
    requires w.phase != Done && Next(always, rows, w).Go?
    ensures forall c | c in Next(always, rows, w).acquire :: Target(rows, w) == Some(c)
  {
  }

  /** The end of a transaction moves a counter by exactly what it moves its worker's holding. */
  lemma EndMovesOwn(rows: Rows, w: Worker, c: nat)
    requires WorkerOk(false, rows, w) && w.phase != Done && Next(false, rows, w).End? && c in rows
    ensures Published(rows, w.cw)[c].active - rows[c].active == HoldsRow(c)(Next(false, rows, w).w) - HoldsRow(c)(w)
  {
    match w.phase
    case CommitRaise => assert c in w.cw <==> c in w.specs;
    case CommitDrop => assert c in w.cw <==> c in w.specs;
    case _ =>
  }

  lemma GoMovesNothing(rows: Rows, w: Worker)
    requires w.phase != Done && Next(false, rows, w).Go?
    ensures Next(false, rows, w).w.granted == w.granted && Next(false, rows, w).w.specs == w.specs
  {
  }

  /** A step moves a counter by exactly what it moves the holding of its own worker. */
  lemma StepMovesOwn(s: State, a: Action, c: nat)
    requires Inv(false, s) && Enabled(s, a) && c in s.rows
    ensures var s' := Step(false, s, a);
      && s'.rows.Keys == s.rows.Keys && s'.workers == s.workers[a.t := s'.workers[a.t]]
      && s'.rows[c].active - s.rows[c].active == HoldsRow(c)(s'.workers[a.t]) - HoldsRow(c)(s.workers[a.t])
  {
    var w := s.workers[a.t];
    assert WorkerOk(false, s.rows, w);
    if a.Run? {
      if Next(false, s.rows, w).End? { EndMovesOwn(s.rows, w, c); } else { GoMovesNothing(s.rows, w); }
    }
  }

  /** A release that runs only after a grant keeps the counters equal to the units held. */
  lemma StepConserves(s: State, a: Action)
    requires Inv(false, s) && Conserved(s) && Enabled(s, a)
    ensures Conserved(Step(false, s, a))
  {
    var s' := Step(false, s, a);
    forall c | c in s'.rows ensures s'.rows[c].active == Holders(s'.workers, c) {
      assert c in s.rows;
      StepMovesOwn(s, a, c);
      SumUpdate(s.workers, a.t, s'.workers[a.t], HoldsRow(c));
    }
  }

  ghost predicate Init(s: State) {
    && s.locks == map[]
    && (forall t | 0 <= t < |s.workers| ::
          s.workers[t].phase == Check(0) && !s.workers[t].granted && s.workers[t].cw == map[]
              && Distinct(s.workers[t].specs))
    && Bounded(s.rows)
  }

  lemma InitHolds(always: bool, s: State)
    requires Init(s)
    ensures Inv(always, s)
  {
    forall t | 0 <= t < |s.workers| ensures Held(s.rows, s.workers[t]) == {} && WorkerOk(always, s.rows, s.workers[t]) {
      assert s.workers[t].specs[..0] == [];
    }
  }

  lemma {:induction false} RunKeeps(s: State, acts: seq<Action>)
    requires Inv(true, s) && IsRun(true, s, acts)
    ensures Inv(true, After(true, s, acts))
    decreases |acts|
  {
    if acts != [] {
      StepKeeps(true, s, acts[0]);
      RunKeeps(Step(true, s, acts[0]), acts[1..]);
    }
  }

  /** The same rows with the same capacities. */
  ghost predicate SameLimits(rows: Rows, rows': Rows) {
    rows'.Keys == rows.Keys && forall c | c in rows :: rows'[c].capacity == rows[c].capacity
  }

  lemma {:induction false} LimitsStay(always: bool, s: State, acts: seq<Action>)
    requires IsRun(always, s, acts)
    ensures SameLimits(s.rows, After(always, s, acts).rows)
    decreases |acts|
  {
    if acts != [] { LimitsStay(always, Step(always, s, acts[0]), acts[1..]); }
  }

  lemma {:induction false} RunConserves(s: State, acts: seq<Action>)
    requires Inv(false, s) && Conserved(s) && IsRun(false, s, acts)
    ensures Inv(false, After(false, s, acts)) && Conserved(After(false, s, acts))
    decreases |acts|
  {
    if acts != [] {
      StepKeeps(false, s, acts[0]);
      StepConserves(s, acts[0]);
      RunConserves(Step(false, s, acts[0]), acts[1..]);
    }
  }

  // ------------------------------------------------------------------
  // Main results
  // ------------------------------------------------------------------

  /** Nothing is in use and nobody has started. */
  ghost predicate Unused(s: State) {
    Init(s) && forall c | c in s.rows :: s.rows[c].active == 0
  }

  ghost predicate NobodyHolds(workers: seq<Worker>) {
    forall w <- workers :: !w.granted
  }

  lemma UnusedConserved(s: State)
    requires Unused(s)
    ensures Inv(false, s) && Conserved(s)
  {
    InitHolds(false, s);
    forall c | c in s.rows ensures s.rows[c].active == Holders(s.workers, c) {
      SumZero(s.workers, HoldsRow(c));
    }
  }

  /**
   * Rows stay within 0..capacity over every interleaving and every crash, whether or not the
   * release is conditional; no row appears, disappears or changes its capacity.
   */
  lemma AlwaysBounded(always: bool, s: State, acts: seq<Action>)
    requires (if always then Init(s) else Unused(s)) && IsRun(always, s, acts)
    ensures Bounded(After(always, s, acts).rows) && SameLimits(s.rows, After(always, s, acts).rows)
  {
    LimitsStay(always, s, acts);
    if always {
      InitHolds(true, s);
      RunKeeps(s, acts);
    } else {
      UnusedConserved(s);
      RunConserves(s, acts);
    }
  }

  /**
   * With the release conditional on a grant, at no time do more workers hold a row than it has
   * units, and the counter says exactly how many hold it.
   */
  lemma ConditionalReleaseKeepsQuota(s: State, acts: seq<Action>)
    requires Unused(s) && IsRun(false, s, acts)
    ensures var e := After(false, s, acts);
      forall c | c in e.rows :: Holders(e.workers, c) == e.rows[c].active <= e.rows[c].capacity
  {
    UnusedConserved(s);
    RunConserves(s, acts);
  }

  /**
   * The commit of an acquire is the atomic one: at that moment every dimension has room and
   * the rows become exactly `RaiseAll`; no earlier statement of it shows.
   */
  lemma AcquireIsAllOrNothing(always: bool, s: State, a: Action)
    requires Inv(always, s) && Enabled(s, a)
    requires !s.workers[a.t].phase.Drop? && s.workers[a.t].phase != CommitDrop
    ensures var w := s.workers[a.t];
      if a.Run? && w.phase == CommitRaise then
        (forall c <- w.specs :: HasRoom(s.rows, c)) && Step(always, s, a).rows == RaiseAll(s.rows, w.specs)
      else Step(always, s, a).rows == s.rows
  {
    var w := s.workers[a.t];
    assert WorkerOk(always, s.rows, w);
    if a.Run? && w.phase == CommitRaise {
      PublishedIsRaiseAll(always, s.rows, w);
    } else {
      assert Published(s.rows, map[]) == s.rows;
    }
  }

  lemma PublishedIsRaiseAll(always: bool, rows: Rows, w: Worker)
    requires WorkerOk(always, rows, w) && w.phase == CommitRaise
    ensures (forall c <- w.specs :: HasRoom(rows, c)) && Published(rows, w.cw) == RaiseAll(rows, w.specs)
  {
    RaiseAllCounts(rows, w.specs);
    forall c <- w.specs ensures HasRoom(rows, c) {
      assert c in rows ==> c in Present(rows, w.specs);
    }
    forall c | c in rows ensures Published(rows, w.cw)[c] == RaiseAll(rows, w.specs)[c] {
      DistinctOnce(w.specs, c);
    }
  }

  // ------------------------------------------------------------------
  // Deadlock freedom under a fixed dimension order
  // ------------------------------------------------------------------

  function AllWants(s: State): (r: seq<Option<nat>>)
    ensures |r| == |s.workers|
  {
    seq(|s.workers|, t requires 0 <= t < |s.workers| => Wants(s, t))
  }

  lemma WantRanksAbove(always: bool, s: State, t: nat, c: nat)
    requires Inv(always, s) && t < |s.workers| && Ascending(s.workers[t].specs)
    requires Wants(s, t).Some? && c in Held(s.rows, s.workers[t])
    ensures c < Wants(s, t).value
  {
    var w := s.workers[t];
    assert WorkerOk(always, s.rows, w);
    var k := if w.phase.Check? then w.phase.k else if w.phase.Drop? then w.phase.k else 0;
    assert c in Present(s.rows, w.specs[..k]);
    var i :| 0 <= i < k && w.specs[i] == c;
  }

  /** If every worker lists its dimensions in the frozen order, somebody can always move. */
  lemma FixedOrderNeverStuck(always: bool, s: State, t: nat) returns (u: nat)
    requires Inv(always, s) && forall v | 0 <= v < |s.workers| :: Ascending(s.workers[v].specs)
    requires t < |s.workers| && s.workers[t].phase != Done
    ensures Enabled(s, Run(u))
  {
    if Enabled(s, Run(t)) { return t; }
    var wants, held, rank := AllWants(s), AllHeld(s), (c: nat) => c;
    forall v, c | 0 <= v < |held| && wants[v].Some? && c in held[v] ensures rank(c) < rank(wants[v].value) {
      WantRanksAbove(always, s, v, c);
    }
    assert RowLocks.Waits(s.locks, wants, t);
    u := RowLocks.SomeoneRuns(s.locks, held, wants, rank, t, RowLocks.MaxRank(wants, rank));
    assert held[u] == Held(s.rows, s.workers[u]);
    assert WorkerOk(always, s.rows, s.workers[u]);
  }

  // ------------------------------------------------------------------
  // Every schedule ends
  // ------------------------------------------------------------------

  /** Steps that a worker may still take. */
  function StepsOf(w: Worker): nat {
    var n := |w.specs|;
    match w.phase
    case Check(k) => if k <= n then 3 * n + 9 - k else 3 * n + 9
    case Write(k) => if k <= n then 2 * n + 7 - k else 2 * n + 7
    case CommitRaise => n + 5
    case Holding => n + 4
    case Drop(k) => if k <= n then n + 3 - k else n + 3
    case CommitDrop => 1
    case Done => 0
  }

  function StepsLeft(workers: seq<Worker>): nat {
    Sum(workers, StepsOf)
  }

  lemma NextShrinks(always: bool, rows: Rows, w: Worker)
    requires WorkerOk(always, rows, w) && w.phase != Done
    ensures StepsOf(Next(always, rows, w).w) < StepsOf(w)
  {
  }

  lemma StepShrinks(always: bool, s: State, a: Action)
    requires Inv(always, s) && (always || Conserved(s)) && Enabled(s, a)
    ensures StepsLeft(Step(always, s, a).workers) < StepsLeft(s.workers)
  {
    var w, s' := s.workers[a.t], Step(always, s, a);
    assert WorkerOk(always, s.rows, w);
    if a.Run? { NextShrinks(always, s.rows, w); }
    assert s'.workers == s.workers[a.t := s'.workers[a.t]];
    SumUpdate(s.workers, a.t, s'.workers[a.t], StepsOf);
  }

  lemma {:induction false} RunShrinks(always: bool, s: State, acts: seq<Action>)
    requires Inv(always, s) && (always || Conserved(s)) && IsRun(always, s, acts)
    ensures |acts| + StepsLeft(After(always, s, acts).workers) <= StepsLeft(s.workers)
    ensures Inv(always, After(always, s, acts))
    decreases |acts|
  {
    if acts != [] {
      StepShrinks(always, s, acts[0]);
      StepKeeps(always, s, acts[0]);
      if !always { StepConserves(s, acts[0]); }
      RunShrinks(always, Step(always, s, acts[0]), acts[1..]);
    }
  }

  ghost predicate InFrozenOrder(s: State) {
    forall t | 0 <= t < |s.workers| :: Ascending(s.workers[t].specs)
  }

  lemma {:induction false} OrderStays(always: bool, s: State, acts: seq<Action>)
    requires InFrozenOrder(s) && IsRun(always, s, acts)
    ensures InFrozenOrder(After(always, s, acts))
    decreases |acts|
  {
    if acts != [] { OrderStays(always, Step(always, s, acts[0]), acts[1..]); }
  }

  /**
   * With the dimensions in the frozen order, every schedule is bounded by the lengths of the
   * lists, and one that cannot be extended has finished every worker.
   */
  lemma RunsFinish(always: bool, s: State, acts: seq<Action>, t: nat)
    requires Unused(s) && InFrozenOrder(s) && IsRun(always, s, acts)
    ensures |acts| <= StepsLeft(s.workers)
    ensures var e := After(always, s, acts);
      t < |e.workers| && e.workers[t].phase != Done ==> exists u: nat :: Enabled(e, Run(u))
  {
    UnusedConserved(s);
    InitHolds(always, s);
    RunShrinks(always, s, acts);
    OrderStays(always, s, acts);
    var e := After(always, s, acts);
    if t < |e.workers| && e.workers[t].phase != Done {
      var u := FixedOrderNeverStuck(always, e, t);
    }
  }
}
