/**
 * Deadlock freedom and termination of the transactions of `Capacity` when every program
 * requests its counter rows in one order.
 */
module CapacityProgress {
  import opened Common
  import opened Capacity
  import opened CapacitySafety
  import RowLocks

  ghost predicate Unfinished(s: State, t: nat) {
    t < |s.txs| && !s.txs[t].phase.Done?
  }

  /** Candidate rows rank by id, counter rows above them by scope number. */
  function Rank(n: nat): Row -> nat {
    (r: Row) => match r case AttemptRow(id) => id case CounterRow(c) => n + c
  }

  function AllWants(cfg: Config, s: State): (r: seq<Option<Row>>)
    ensures |r| == |s.txs|
  {
    seq(|s.txs|, t requires 0 <= t < |s.txs| => Wants(cfg, s, t))
  }

  lemma HeldIsNotWanted(cfg: Config, s: State, t: nat)
    requires Inv(cfg, s) && t < |s.txs| && Wants(cfg, s, t).Some?
    ensures Wants(cfg, s, t).value !in Footprint(cfg, s.db, s.txs[t])
  {
    assert forall r | r in Held(cfg, s)[t] :: r in s.locks && s.locks[r] == t;
  }

  lemma WantRanksAbove(cfg: Config, s: State, t: nat, r: Row)
    requires cfg.Valid() && cfg.Ordered() && Inv(cfg, s) && t < |s.txs|
    requires Wants(cfg, s, t).Some? && r in Footprint(cfg, s.db, s.txs[t])
    ensures Rank(|s.db.attempts|)(r) < Rank(|s.db.attempts|)(Wants(cfg, s, t).value)
  {
    var tx := s.txs[t];
    assert TxOk(cfg, s.db, tx);
    HeldIsNotWanted(cfg, s, t);
    match tx.phase
    case LockScope(k) =>
      var take := cfg.take(tx.program.tenant);
      assert cfg.TenantOrdered(tx.program.tenant);
      var i :| 0 <= i < k && r == CounterRow(take[i]);
    case Scan(k, _, got) =>
      assert forall id <- got :: id < k;
    case Give(tenant, got, i, k) =>
      var give := cfg.give(tenant);
      assert cfg.TenantOrdered(tenant);
      assert give[k] in give;
      if i > 0 { assert false; }
      if r.CounterRow? {
        var j :| 0 <= j < k && r == CounterRow(give[j]);
      }
    case _ =>
  }

  /**
   * In every reachable state with an unfinished transaction some transaction can take its
   * next step, provided counters are always requested in ascending order.
   */
  lemma DeadlockFree(cfg: Config, s: State, t: nat) returns (u: nat)
    requires cfg.Valid() && cfg.Ordered() && Inv(cfg, s) && Unfinished(s, t)
    ensures u < |s.txs| && Enabled(cfg, s, Run(u))
  {
    var wants := AllWants(cfg, s);
    var held := Held(cfg, s);
    var rank := Rank(|s.db.attempts|);
    assert TxOk(cfg, s.db, s.txs[t]);
    if !Blocked(cfg, s, t) { return t; }
    assert RowLocks.Waits(s.locks, wants, t);
    forall v, r | 0 <= v < |held| && wants[v].Some? && r in held[v] ensures rank(r) < rank(wants[v].value) {
      WantRanksAbove(cfg, s, v, r);
    }
    u := RowLocks.SomeoneRuns(s.locks, held, wants, rank, t, RowLocks.MaxRank(wants, rank));
    assert TxOk(cfg, s.db, s.txs[u]);
  }

  // ------------------------------------------------------------------
  // Every schedule is finite
  // ------------------------------------------------------------------

  function Loop(cfg: Config, tenant: nat): nat {
    |cfg.give(tenant)| + 2
  }

  /** An upper bound on the statements a transaction still has to execute. */
  function Remaining(cfg: Config, db: Db, tx: Tx): nat {
    match tx.phase
    case Done(_) => 0
    case Commit(_, _) => 1
    case Claim(_) => 2
    case Bump(_) => 3
    case LockScope(k) => if tx.program.Lease? then Left(|cfg.take(tx.program.tenant)|, k) + 4 else 1
    case Give(tenant, got, i, k) => GiveLeft(cfg, tenant, |got|, i, k)
    case Scan(k, _, got) =>
      if tx.program.Recover? then ScanLeft(cfg, tx.program.tenant, |db.attempts|, k, |got|) else 1
    case Begin =>
      match tx.program
      case Lease(_, tenant) => |cfg.take(tenant)| + 5
      case Settle(id, _) => if id < |db.attempts| then GiveLeft(cfg, db.attempts[id].tenant, 1, 0, 0) + 1 else 1
      case Recover(tenant) => ScanLeft(cfg, tenant, |db.attempts|, 0, 0) + 1
  }

  function Left(n: nat, k: nat): nat {
    if k <= n then n - k else 0
  }

  function GiveLeft(cfg: Config, tenant: nat, got: nat, i: nat, k: nat): nat {
    Left(Times(Left(got, i), Loop(cfg, tenant)), k) + 2
  }

  function ScanLeft(cfg: Config, tenant: nat, n: nat, k: nat, got: nat): nat {
    Times(Left(n, k), Loop(cfg, tenant) + 1) + Times(got, Loop(cfg, tenant)) + 3
  }

  function Times(a: nat, b: nat): nat {
    if a == 0 then 0 else Times(a - 1, b) + b
  }

  lemma ScanShrinks(cfg: Config, s: State, t: nat)
    requires cfg.Valid() && Inv(cfg, s) && Enabled(cfg, s, Run(t)) && s.txs[t].phase.Scan?
    ensures Remaining(cfg, s.db, Next(cfg, s, t).tx) < Remaining(cfg, s.db, s.txs[t])
  {
    assert TxOk(cfg, s.db, s.txs[t]);
  }

  lemma GiveShrinks(cfg: Config, s: State, t: nat)
    requires cfg.Valid() && Inv(cfg, s) && Enabled(cfg, s, Run(t)) && s.txs[t].phase.Give?
    ensures Remaining(cfg, s.db, Next(cfg, s, t).tx) < Remaining(cfg, s.db, s.txs[t])
  {
    assert TxOk(cfg, s.db, s.txs[t]);
  }

  lemma StatementShrinks(cfg: Config, s: State, t: nat)
    requires cfg.Valid() && Inv(cfg, s) && Enabled(cfg, s, Run(t)) && Next(cfg, s, t).Go?
    ensures Remaining(cfg, s.db, Next(cfg, s, t).tx) < Remaining(cfg, s.db, s.txs[t])
  {
    assert TxOk(cfg, s.db, s.txs[t]);
    match s.txs[t].phase
    case Scan(_, _, _) => ScanShrinks(cfg, s, t);
    case Give(_, _, _, _) => GiveShrinks(cfg, s, t);
    case Begin =>
    case _ =>
  }

  function Total(cfg: Config, db: Db, txs: seq<Tx>): nat {
    if txs == [] then 0 else Total(cfg, db, txs[..|txs| - 1]) + Remaining(cfg, db, txs[|txs| - 1])
  }

  lemma {:induction false} TotalUpdate(cfg: Config, db: Db, txs: seq<Tx>, t: nat, tx: Tx)
    requires t < |txs|
    ensures Total(cfg, db, txs[t := tx])
         == Total(cfg, db, txs) - Remaining(cfg, db, txs[t]) + Remaining(cfg, db, tx)
    decreases |txs|
  {
    var n := |txs| - 1;
    if t == n {
      assert txs[t := tx][..n] == txs[..n];
    } else {
      assert txs[t := tx][..n] == txs[..n][t := tx];
      TotalUpdate(cfg, db, txs[..n], t, tx);
    }
  }

  lemma {:induction false} TotalSameTenants(cfg: Config, db: Db, db': Db, txs: seq<Tx>)
    requires |db'.attempts| == |db.attempts|
    requires forall i | 0 <= i < |db.attempts| :: db'.attempts[i].tenant == db.attempts[i].tenant
    ensures Total(cfg, db', txs) == Total(cfg, db, txs)
    decreases |txs|
  {
    if txs != [] { TotalSameTenants(cfg, db, db', txs[..|txs| - 1]); }
  }

  lemma EndShrinks(cfg: Config, s: State, t: nat, db: Db, outcome: Outcome)
    requires t < |s.txs| && !s.txs[t].phase.Done? && Remaining(cfg, s.db, s.txs[t]) > 0
    requires |db.attempts| == |s.db.attempts| && forall i | 0 <= i < |db.attempts| ::
        db.attempts[i].tenant == s.db.attempts[i].tenant
    ensures var e := End(s.(db := db), t, outcome); Total(cfg, e.db, e.txs) < Total(cfg, s.db, s.txs)
  {
    var tx := s.txs[t].(phase := Done(outcome), cw := map[], aw := map[]);
    TotalUpdate(cfg, s.db, s.txs, t, tx);
    TotalSameTenants(cfg, s.db, db, s.txs[t := tx]);
  }

  lemma PublishKeepsTenants(cfg: Config, s: State, t: nat)
    requires cfg.Valid() && Inv(cfg, s) && t < |s.txs| && s.txs[t].phase.Commit?
    ensures forall i | 0 <= i < |s.db.attempts| :: Applied(s.db, s.txs[t]).attempts[i].tenant == s.db.attempts[i].tenant
  {
    assert TxOk(cfg, s.db, s.txs[t]);
  }

  lemma StepShrinks(cfg: Config, s: State, a: Action)
    requires cfg.Valid() && Inv(cfg, s) && Enabled(cfg, s, a)
    ensures var s' := Step(cfg, s, a);
      if a.Tick? then Total(cfg, s'.db, s'.txs) == Total(cfg, s.db, s.txs)
      else Total(cfg, s'.db, s'.txs) < Total(cfg, s.db, s.txs)
  {
    match a
    case Tick =>
    case Crash(t) =>
      assert TxOk(cfg, s.db, s.txs[t]);
      EndShrinks(cfg, s, t, s.db, Crashed);
    case Run(t) =>
      assert TxOk(cfg, s.db, s.txs[t]);
      match Next(cfg, s, t)
      case Go(tx, _) =>
        StatementShrinks(cfg, s, t);
        TotalUpdate(cfg, s.db, s.txs, t, tx);
      case Finish(outcome) => EndShrinks(cfg, s, t, s.db, outcome);
      case Publish(outcome) =>
        PublishKeepsTenants(cfg, s, t);
        EndShrinks(cfg, s, t, Applied(s.db, s.txs[t]), outcome);
  }

  function Statements(acts: seq<Action>): nat {
    if acts == [] then 0 else (if acts[0].Tick? then 0 else 1) + Statements(acts[1..])
  }

  /** No schedule executes more statements than the initial measure. */
  lemma {:induction false} SchedulesAreFinite(cfg: Config, s: State, acts: seq<Action>)
    requires cfg.Valid() && Inv(cfg, s) && IsRun(cfg, s, acts)
    ensures Statements(acts) + Total(cfg, After(cfg, s, acts).db, After(cfg, s, acts).txs) <= Total(cfg, s.db, s.txs)
    decreases |acts|
  {
    if acts != [] {
      StepShrinks(cfg, s, acts[0]);
      StepKeeps(cfg, s, acts[0]);
      SchedulesAreFinite(cfg, Step(cfg, s, acts[0]), acts[1..]);
    }
  }

  /** A schedule that cannot be extended has finished every transaction. */
  lemma MaximalRunsFinish(cfg: Config, s: State, acts: seq<Action>)
    requires cfg.Valid() && cfg.Ordered() && Init(cfg, s) && IsRun(cfg, s, acts)
    requires forall t: nat :: !Enabled(cfg, After(cfg, s, acts), Run(t))
    ensures forall t | 0 <= t < |After(cfg, s, acts).txs| :: After(cfg, s, acts).txs[t].phase.Done?
  {
    var e := After(cfg, s, acts);
    InitHolds(cfg, s);
    RunKeeps(cfg, s, acts);
    forall t | 0 <= t < |e.txs| ensures e.txs[t].phase.Done? {
      if Unfinished(e, t) {
        var u := DeadlockFree(cfg, e, t);
      }
    }
  }
}
