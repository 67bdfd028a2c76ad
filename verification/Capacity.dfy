/**
 * Durable capacity counters under PostgreSQL READ COMMITTED.
 *
 * Transactions are programs of statements.  A statement that needs a row lock is one
 * step, enabled only while no other transaction holds that row; writes stay private
 * until commit; a transaction may die at any point before its commit.
 */
module Capacity {
  import opened Common
  import RowLocks

  datatype Status = Reserved | InFlight | Succeeded | Unknown

  datatype Attempt = Attempt(tenant: nat, status: Status, owner: Option<nat>, until: nat, applied: bool)

  datatype Counter = Counter(capacity: nat, active: int)

  datatype Db = Db(counters: map<nat, Counter>, attempts: seq<Attempt>)

  datatype Row = CounterRow(scope: nat) | AttemptRow(id: nat)

  /**
   * Which counter rows one tenant's lease occupies.  `take` is the order in which a lease
   * locks them, `give` the order in which a return updates them, `tested` the ones whose
   * capacity a lease compares.
   */
  datatype Config = Config(take: nat -> seq<nat>, give: nat -> seq<nat>, tested: nat -> bool, ttl: nat)
  {
    ghost predicate Valid() {
      forall tenant: nat :: TenantValid(tenant)
    }

    ghost predicate TenantValid(tenant: nat) {
      && Distinct(take(tenant))
      && Distinct(give(tenant))
      && (forall c: nat :: c in take(tenant) <==> c in give(tenant))
    }

    /** Every counter request ranks above the counters already held. */
    ghost predicate Ordered() {
      forall tenant: nat :: TenantOrdered(tenant)
    }

    ghost predicate TenantOrdered(tenant: nat) {
      Ascending(take(tenant)) && Ascending(give(tenant))
    }
  }

  datatype Program =
    | Lease(worker: nat, tenant: nat)
    | Settle(id: nat, owner: nat)
    | Recover(tenant: nat)

  datatype Outcome =
    | Leased(id: nat)
    | Returned(ids: seq<nat>)
    | NoCounter
    | Full
    | NoCandidate
    | NoRow
    | Crashed

  datatype Phase =
    | Begin
    | LockScope(k: nat)
    | Bump(id: nat)
    | Claim(id: nat)
    | Scan(k: nat, snap: set<nat>, got: seq<nat>)
    | Give(tenant: nat, got: seq<nat>, i: nat, k: nat)
    | Commit(tenant: nat, outcome: Outcome)
    | Done(outcome: Outcome)

  /**
   * `at` is the time at which the transaction began, its `now()` throughout; `cw` and `aw` are
   * the rows it has written and not yet committed.
   */
  datatype Tx = Tx(program: Program, phase: Phase, at: nat, cw: map<nat, int>, aw: map<nat, Attempt>)

  datatype State = State(db: Db, locks: map<Row, nat>, txs: seq<Tx>, now: nat)

  datatype Action = Run(t: nat) | Crash(t: nat) | Tick

  // ------------------------------------------------------------------
  // Statements
  // ------------------------------------------------------------------

  predicate Settleable(a: Attempt, owner: nat) {
    a.status == InFlight && a.owner == Some(owner)
  }

  predicate Recoverable(a: Attempt, tenant: nat, now: nat) {
    a.tenant == tenant && a.status == InFlight && a.until < now && !a.applied
  }

  predicate LockedByOther(s: State, t: nat, r: Row) {
    r in s.locks && s.locks[r] != t
  }

  /** `ORDER BY id FOR UPDATE SKIP LOCKED LIMIT 1`: the least unlocked reserved row from `from` on. */
  function PickFrom(s: State, t: nat, tenant: nat, from: nat): (r: Option<nat>)
    ensures r.Some? ==>
              && from <= r.value < |s.db.attempts|
              && s.db.attempts[r.value].status == Reserved
              && s.db.attempts[r.value].tenant == tenant
              && !LockedByOther(s, t, AttemptRow(r.value))
    ensures forall i | from <= i < (if r.Some? then r.value else |s.db.attempts|) ::
              && s.db.attempts[i].status == Reserved && s.db.attempts[i].tenant == tenant
              ==> LockedByOther(s, t, AttemptRow(i))
    decreases |s.db.attempts| - from
  {
    if from >= |s.db.attempts| then None
    else if s.db.attempts[from].status == Reserved && s.db.attempts[from].tenant == tenant
            && !LockedByOther(s, t, AttemptRow(from)) then Some(from)
    else PickFrom(s, t, tenant, from + 1)
  }

  /** The row the next statement locks, if any. */
  function Target(cfg: Config, s: State, t: nat): Option<Row>
    requires t < |s.txs|
  {
    var tx := s.txs[t];
    match tx.phase
    case LockScope(k) =>
      if tx.program.Lease? && k < |cfg.take(tx.program.tenant)| && cfg.take(tx.program.tenant)[k] in s.db.counters
      then Some(CounterRow(cfg.take(tx.program.tenant)[k])) else None
    case Begin =>
      if tx.program.Settle? && tx.program.id < |s.db.attempts|
         && Settleable(s.db.attempts[tx.program.id], tx.program.owner)
      then Some(AttemptRow(tx.program.id)) else None
    case Scan(k, snap, got) =>
      if k < |s.db.attempts| && k in snap then Some(AttemptRow(k)) else None
    case Give(tenant, got, i, k) =>
      if i < |got| && k < |cfg.give(tenant)| && cfg.give(tenant)[k] in s.db.counters
      then Some(CounterRow(cfg.give(tenant)[k])) else None
    case _ => None
  }

  /** The row a transaction must still obtain before its next statement can return. */
  function Wants(cfg: Config, s: State, t: nat): Option<Row>
    requires t < |s.txs|
  {
    var r := Target(cfg, s, t);
    if r.Some? && r.value in s.locks && s.locks[r.value] == t then None else r
  }

  predicate Blocked(cfg: Config, s: State, t: nat)
    requires t < |s.txs|
  {
    Wants(cfg, s, t).Some? && LockedByOther(s, t, Wants(cfg, s, t).value)
  }

  /** What one statement does: keep going with more locks, end without writing, or commit. */
  datatype Move = Go(tx: Tx, acquire: set<Row>) | Finish(outcome: Outcome) | Publish(outcome: Outcome)

  function Visible(db: Db, tx: Tx, c: nat): int
    requires c in db.counters
  {
    if c in tx.cw then tx.cw[c] else db.counters[c].active
  }

  /** `active + 1` for every counter row of the list. */
  function Raised(db: Db, scopes: seq<nat>): (cw: map<nat, int>)
    ensures forall c :: c in cw <==> c in scopes && c in db.counters
    ensures forall c | c in cw :: cw[c] == db.counters[c].active + 1
  {
    if scopes == [] then map[]
    else
      var n := |scopes| - 1;
      var less := Raised(db, scopes[..n]);
      assert scopes == scopes[..n] + [scopes[n]];
      if scopes[n] in db.counters then less[scopes[n] := db.counters[scopes[n]].active + 1] else less
  }

  function LeaseMove(cfg: Config, s: State, t: nat, k: nat): Move
    requires t < |s.txs| && s.txs[t].program.Lease?
  {
    var tx := s.txs[t];
    var take := cfg.take(tx.program.tenant);
    if k < |take| then
      if take[k] !in s.db.counters then
        if cfg.tested(take[k]) then Finish(NoCounter) else Go(tx.(phase := LockScope(k + 1)), {})
      else if cfg.tested(take[k]) && s.db.counters[take[k]].active >= s.db.counters[take[k]].capacity then Finish(Full)
      else Go(tx.(phase := LockScope(k + 1)), {CounterRow(take[k])})
    else
      match PickFrom(s, t, tx.program.tenant, 0)
      case None => Finish(NoCandidate)
      case Some(id) => Go(tx.(phase := Bump(id)), {AttemptRow(id)})
  }

  function ScanMove(s: State, t: nat, k: nat, snap: set<nat>, got: seq<nat>): Move
    requires t < |s.txs| && s.txs[t].program.Recover?
  {
    var tx := s.txs[t];
    var tenant := tx.program.tenant;
    if k >= |s.db.attempts| then Go(tx.(phase := Give(tenant, got, 0, 0)), {})
    else if k in snap && Recoverable(s.db.attempts[k], tenant, tx.at) then
      Go(tx.(phase := Scan(k + 1, snap, got + [k]), aw := tx.aw[k := s.db.attempts[k].(status := Unknown)]),
         {AttemptRow(k)})
    else Go(tx.(phase := Scan(k + 1, snap, got)), {})
  }

  function GiveMove(cfg: Config, s: State, t: nat, tenant: nat, got: seq<nat>, i: nat, k: nat): Move
    requires t < |s.txs|
  {
    var tx := s.txs[t];
    var give := cfg.give(tenant);
    if i >= |got| then Go(tx.(phase := Commit(tenant, Returned(got))), {})
    else if k >= |give| then Go(tx.(phase := Give(tenant, got, i + 1, 0)), {})
    else if give[k] !in s.db.counters then Go(tx.(phase := Give(tenant, got, i, k + 1)), {})
    else Go(tx.(phase := Give(tenant, got, i, k + 1), cw := tx.cw[give[k] := Visible(s.db, tx, give[k]) - 1]),
            {CounterRow(give[k])})
  }

  function BeginMove(s: State, t: nat): Move
    requires t < |s.txs|
  {
    var tx := s.txs[t].(at := s.now);
    match tx.program
    case Lease(_, _) => Go(tx.(phase := LockScope(0)), {})
    case Settle(id, owner) =>
      if id < |s.db.attempts| && Settleable(s.db.attempts[id], owner) then
        Go(tx.(phase := Give(s.db.attempts[id].tenant, [id], 0, 0),
               aw := tx.aw[id := s.db.attempts[id].(status := Succeeded, applied := true)]),
           {AttemptRow(id)})
      else Finish(NoRow)
    case Recover(tenant) =>
      Go(tx.(phase := Scan(0, set i | 0 <= i < |s.db.attempts|
          && Recoverable(s.db.attempts[i], tenant, tx.at), [])), {})
  }

  /** The next statement of transaction `t`; `ShapeOk` says which phases belong to which program. */
  function Next(cfg: Config, s: State, t: nat): Move
    requires t < |s.txs| && !s.txs[t].phase.Done? && ShapeOk(s.db, s.txs[t])
  {
    var tx := s.txs[t];
    match tx.phase
    case Begin => BeginMove(s, t)
    case LockScope(k) => LeaseMove(cfg, s, t, k)
    case Bump(id) =>
      var take := cfg.take(tx.program.tenant);
      Go(tx.(phase := Claim(id),
             cw := Raised(s.db, take)), {})
    case Claim(id) =>
      var a := s.db.attempts[id].(status := InFlight, owner := Some(tx.program.worker), until := tx.at + cfg.ttl);
      Go(tx.(phase := Commit(tx.program.tenant, Leased(id)), aw := tx.aw[id := a]), {})
    case Scan(k, snap, got) => ScanMove(s, t, k, snap, got)
    case Give(tenant, got, i, k) => GiveMove(cfg, s, t, tenant, got, i, k)
    case Commit(_, outcome) => Publish(outcome)
  }

  predicate ShapeOk(db: Db, tx: Tx) {
    match tx.phase
    case LockScope(_) => tx.program.Lease?
    case Bump(id) => tx.program.Lease? && id < |db.attempts|
    case Claim(id) => tx.program.Lease? && id < |db.attempts|
    case Scan(_, _, _) => tx.program.Recover?
    case _ => true
  }

  function Applied(db: Db, tx: Tx): (r: Db)
    ensures r.counters.Keys == db.counters.Keys && |r.attempts| == |db.attempts|
  {
    Db(map c | c in db.counters :: if c in db.counters && c in tx.cw then db.counters[c].(active := tx.cw[c])
        else db.counters[c],
       seq(|db.attempts|, i requires 0 <= i < |db.attempts| => if i in tx.aw then tx.aw[i] else db.attempts[i]))
  }

  function End(s: State, t: nat, outcome: Outcome): State
    requires t < |s.txs|
  {
    s.(locks := RowLocks.Release(s.locks, t),
       txs := s.txs[t := s.txs[t].(phase := Done(outcome), cw := map[], aw := map[])])
  }

  predicate Enabled(cfg: Config, s: State, a: Action) {
    match a
    case Tick => true
    case Crash(t) => t < |s.txs| && !s.txs[t].phase.Done?
    case Run(t) => t < |s.txs| && !s.txs[t].phase.Done? && ShapeOk(s.db, s.txs[t]) && !Blocked(cfg, s, t)
  }

  function Step(cfg: Config, s: State, a: Action): State
    requires Enabled(cfg, s, a)
  {
    match a
    case Tick => s.(now := s.now + 1)
    case Crash(t) => End(s, t, Crashed)
    case Run(t) =>
      match Next(cfg, s, t)
      case Go(tx, acquire) =>
        s.(txs := s.txs[t := tx], locks := RowLocks.Grant(s.locks, t, acquire))
      case Finish(outcome) => End(s, t, outcome)
      case Publish(outcome) => End(s.(db := Applied(s.db, s.txs[t])), t, outcome)
  }

  /** `acts` is a schedule that can be followed from `s`. */
  predicate IsRun(cfg: Config, s: State, acts: seq<Action>)
    decreases |acts|
  {
    acts == [] || (Enabled(cfg, s, acts[0]) && IsRun(cfg, Step(cfg, s, acts[0]), acts[1..]))
  }

  function After(cfg: Config, s: State, acts: seq<Action>): State
    requires IsRun(cfg, s, acts)
    decreases |acts|
  {
    if acts == [] then s else After(cfg, Step(cfg, s, acts[0]), acts[1..])
  }
}
