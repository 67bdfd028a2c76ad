/**
 * What the transactions of `Capacity` owe their callers: a lease with room and rows succeeds, a
 * refusal has its cause, and recovery takes exactly what has expired.
 */
module CapacityGrants {
  import opened Common
  import opened Capacity
  import opened CapacitySafety
  import opened CapacityHistory
  import RowLocks

  // ------------------------------------------------------------------
  // Refusals have a cause
  // ------------------------------------------------------------------

  /** Some counter that a lease of the tenant compares has no unit left. */
  ghost predicate SomeFull(cfg: Config, db: Db, tenant: nat) {
    exists c <- cfg.take(tenant) ::
      cfg.tested(c) && c in db.counters && InUse(cfg, db.attempts, c) >= db.counters[c].capacity
  }

  ghost predicate SomeMissing(cfg: Config, db: Db, tenant: nat) {
    exists c <- cfg.take(tenant) :: cfg.tested(c) && c !in db.counters
  }

  /** Every reserved row of the tenant is locked by somebody else. */
  ghost predicate NoneFree(s: State, t: nat, tenant: nat) {
    forall i | 0 <= i < |s.db.attempts| && s.db.attempts[i].status == Reserved && s.db.attempts[i].tenant == tenant ::
      LockedByOther(s, t, AttemptRow(i))
  }

  ghost predicate HasCause(cfg: Config, s: State, t: nat, outcome: Outcome)
    requires t < |s.txs|
  {
    match outcome
    case Full => s.txs[t].program.Lease? && SomeFull(cfg, s.db, s.txs[t].program.tenant)
    case NoCounter => s.txs[t].program.Lease? && SomeMissing(cfg, s.db, s.txs[t].program.tenant)
    case NoCandidate => s.txs[t].program.Lease? && NoneFree(s, t, s.txs[t].program.tenant)
    case NoRow => s.txs[t].program.Settle? && !Due(s.db, s.txs[t].program.id, s.txs[t].program.owner)
    case Crashed => false
    case _ => true
  }

  lemma EndsForCause(cfg: Config, s: State, t: nat)
    requires Inv(cfg, s) && Enabled(cfg, s, Run(t)) && Step(cfg, s, Run(t)).txs[t].phase.Done?
    ensures HasCause(cfg, s, t, Step(cfg, s, Run(t)).txs[t].phase.outcome)
  {
    assert TxOk(cfg, s.db, s.txs[t]);
    if s.txs[t].phase.LockScope? {
      var take := cfg.take(s.txs[t].program.tenant);
      var k := s.txs[t].phase.k;
      if k < |take| {
        assert take[k] in take;
        if take[k] in s.db.counters { assert s.db.counters[take[k]].active == InUse(cfg, s.db.attempts, take[k]); }
      }
    }
  }

  /**
   * In every reachable state, a statement ends a lease as full only if a counter it compares has
   * all units in flight, as without counter only if one is missing, without candidate only if
   * all reserved rows are locked; and a settle without a row only if it is not due.
   */
  lemma RefusedForCause(cfg: Config, s: State, acts: seq<Action>, t: nat)
    requires cfg.Valid() && Init(cfg, s) && IsRun(cfg, s, acts)
    requires var e := After(cfg, s, acts); Enabled(cfg, e, Run(t)) && Step(cfg, e, Run(t)).txs[t].phase.Done?
    ensures var e := After(cfg, s, acts); HasCause(cfg, e, t, Step(cfg, e, Run(t)).txs[t].phase.outcome)
  {
    InitHolds(cfg, s);
    RunKeeps(cfg, s, acts);
    EndsForCause(cfg, After(cfg, s, acts), t);
  }

  // ------------------------------------------------------------------
  // Leases grant exactly what there is
  // ------------------------------------------------------------------

  /** Leases of the tenant among the transactions. */
  function LeasesOf(txs: seq<Tx>, tenant: nat): nat {
    if txs == [] then 0 else LeasesOf(txs[..|txs| - 1], tenant) + IsLease(txs[|txs| - 1], tenant)
  }

  function IsLease(tx: Tx, tenant: nat): nat {
    if tx.program.Lease? && tx.program.tenant == tenant then 1 else 0
  }

  /** Those of them that have reported a lease. */
  function Granted(txs: seq<Tx>, tenant: nat): nat {
    if txs == [] then 0 else Granted(txs[..|txs| - 1], tenant) + IsGranted(txs[|txs| - 1], tenant)
  }

  function IsGranted(tx: Tx, tenant: nat): nat {
    if IsLease(tx, tenant) == 1 && tx.phase.Done? && tx.phase.outcome.Leased? then 1 else 0
  }

  function ReservedOf(attempts: seq<Attempt>, tenant: nat): nat {
    if attempts == [] then 0
    else ReservedOf(attempts[..|attempts| - 1], tenant) + IsReserved(attempts[|attempts| - 1], tenant)
  }

  function IsReserved(a: Attempt, tenant: nat): nat {
    if a.status == Reserved && a.tenant == tenant then 1 else 0
  }

  lemma {:induction false} CountsUpdate(txs: seq<Tx>, t: nat, tx: Tx, tenant: nat)
    requires t < |txs|
    ensures Granted(txs[t := tx], tenant) == Granted(txs, tenant) - IsGranted(txs[t], tenant) + IsGranted(tx, tenant)
    ensures LeasesOf(txs[t := tx], tenant) == LeasesOf(txs, tenant) - IsLease(txs[t], tenant) + IsLease(tx, tenant)
  {
    var n := |txs| - 1;
    if t == n {
      assert txs[t := tx][..n] == txs[..n];
    } else {
      assert txs[t := tx][..n] == txs[..n][t := tx];
      CountsUpdate(txs[..n], t, tx, tenant);
    }
  }

  lemma {:induction false} ReservedUpdate(attempts: seq<Attempt>, id: nat, a: Attempt, tenant: nat)
    requires id < |attempts|
    ensures ReservedOf(attempts[id := a], tenant)
         == ReservedOf(attempts, tenant) - IsReserved(attempts[id], tenant) + IsReserved(a, tenant)
  {
    var n := |attempts| - 1;
    if id == n {
      assert attempts[id := a][..n] == attempts[..n];
    } else {
      assert attempts[id := a][..n] == attempts[..n][id := a];
      ReservedUpdate(attempts[..n], id, a, tenant);
    }
  }

  lemma {:induction false} NoneReserved(attempts: seq<Attempt>, tenant: nat)
    requires forall i | 0 <= i < |attempts| :: IsReserved(attempts[i], tenant) == 0
    ensures ReservedOf(attempts, tenant) == 0
  {
    if attempts != [] { NoneReserved(attempts[..|attempts| - 1], tenant); }
  }

  /** `c` is the only counter that leases of the tenant compare, and nobody else's leases occupy it. */
  ghost predicate OwnCounter(cfg: Config, db: Db, tenant: nat, c: nat) {
    && c in cfg.take(tenant) && cfg.tested(c) && c in db.counters
    && (forall d <- cfg.take(tenant) :: cfg.tested(d) ==> d == c)
    && (forall u: nat :: u != tenant ==> c !in cfg.take(u))
  }

  ghost predicate LeasesOnly(s: State) {
    forall t | 0 <= t < |s.txs| :: s.txs[t].program.Lease?
  }

  predicate NoCrash(acts: seq<Action>) {
    forall i | 0 <= i < |acts| :: !acts[i].Crash?
  }

  /** Why a lease of the tenant has ended, as of now. */
  ghost predicate Settled(cfg: Config, s: State, tenant: nat, c: nat, tx: Tx)
    requires c in s.db.counters
  {
    IsLease(tx, tenant) == 1 && tx.phase.Done? ==>
      || tx.phase.outcome.Leased?
      || (tx.phase.outcome.Full? && InUse(cfg, s.db.attempts, c) >= s.db.counters[c].capacity)
      || (tx.phase.outcome.NoCandidate? && ReservedOf(s.db.attempts, tenant) == 0)
  }

  /** What leases add in flight they take from the reserved rows, one each. */
  ghost predicate Tally(cfg: Config, s: State, tenant: nat, c: nat, used: nat, rows: nat, n: nat) {
    && LeasesOnly(s) && OwnCounter(cfg, s.db, tenant, c)
    && InUse(cfg, s.db.attempts, c) == used + Granted(s.txs, tenant)
    && ReservedOf(s.db.attempts, tenant) + Granted(s.txs, tenant) == rows
    && LeasesOf(s.txs, tenant) == n
    && forall t | 0 <= t < |s.txs| :: Settled(cfg, s, tenant, c, s.txs[t])
  }

  /** A lease that holds a row of its tenant holds the tenant's counter as well. */
  lemma HolderHoldsCounter(cfg: Config, db0: Db, s: State, u: nat, tenant: nat, c: nat, i: nat)
    requires History(cfg, db0, s) && LeasesOnly(s) && OwnCounter(cfg, s.db, tenant, c) && u < |s.txs|
    requires i < |s.db.attempts| && s.db.attempts[i].tenant == tenant
    requires AttemptRow(i) in Footprint(cfg, s.db, s.txs[u])
    ensures CounterRow(c) in s.locks && s.locks[CounterRow(c)] == u
  {
    assert TxOk(cfg, s.db, s.txs[u]) && Credited(cfg, s.db, s.txs[u]);
    assert CounterRow(c) in CounterRows(s.db, cfg.take(tenant));
    assert CounterRow(c) in Held(cfg, s)[u];
  }

  /** While a lease has its counter, nobody else has a row of its tenant. */
  lemma NobodyElsePicks(cfg: Config, db0: Db, s: State, t: nat, tenant: nat, c: nat, i: nat)
    requires History(cfg, db0, s) && LeasesOnly(s) && OwnCounter(cfg, s.db, tenant, c) && t < |s.txs|
    requires s.txs[t].program.tenant == tenant && s.txs[t].phase == LockScope(|cfg.take(tenant)|)
    requires i < |s.db.attempts| && s.db.attempts[i].tenant == tenant
    ensures !LockedByOther(s, t, AttemptRow(i))
  {
    var take := cfg.take(tenant);
    assert take[..|take|] == take;
    assert CounterRow(c) in CounterRows(s.db, take);
    assert CounterRow(c) in Held(cfg, s)[t];
    if LockedByOther(s, t, AttemptRow(i)) {
      var u := s.locks[AttemptRow(i)];
      assert AttemptRow(i) in Held(cfg, s)[u];
      HolderHoldsCounter(cfg, db0, s, u, tenant, c, i);
    }
  }

  /** The end of a lease of the tenant, when it comes. */
  lemma EndSettles(cfg: Config, db0: Db, s: State, t: nat, tenant: nat, c: nat)
    requires History(cfg, db0, s) && LeasesOnly(s) && OwnCounter(cfg, s.db, tenant, c)
    requires Enabled(cfg, s, Run(t)) && !s.txs[t].phase.Commit?
    ensures Settled(cfg, s, tenant, c, Step(cfg, s, Run(t)).txs[t])
  {
    var tx := s.txs[t];
    assert TxOk(cfg, s.db, tx);
    if tx.phase.LockScope? && tx.program.tenant == tenant {
      var take := cfg.take(tenant);
      var k := tx.phase.k;
      if k < |take| {
        assert take[k] in take;
        assert s.db.counters[c].active == InUse(cfg, s.db.attempts, c);
      } else if PickFrom(s, t, tenant, 0).None? {
        forall i | 0 <= i < |s.db.attempts| ensures IsReserved(s.db.attempts[i], tenant) == 0 {
          if s.db.attempts[i].tenant == tenant { NobodyElsePicks(cfg, db0, s, t, tenant, c, i); }
        }
        NoneReserved(s.db.attempts, tenant);
      }
    }
  }

  lemma CommitTallies(cfg: Config, db0: Db, s: State, t: nat, tenant: nat, c: nat, used: nat, rows: nat, n: nat)
    requires cfg.Valid() && History(cfg, db0, s) && Tally(cfg, s, tenant, c, used, rows, n)
    requires Enabled(cfg, s, Run(t)) && s.txs[t].phase.Commit?
    ensures Tally(cfg, Step(cfg, s, Run(t)), tenant, c, used, rows, n)
  {
    var tx, s' := s.txs[t], Step(cfg, s, Run(t));
    assert TxOk(cfg, s.db, tx) && Credited(cfg, s.db, tx) && tx.program.Lease?;
    var id := tx.phase.outcome.id;
    assert s'.db.attempts == s.db.attempts[id := tx.aw[id]];
    InUseUpdate(cfg, s.db.attempts, c, id, tx.aw[id]);
    ReservedUpdate(s.db.attempts, id, tx.aw[id], tenant);
    CountsUpdate(s.txs, t, s'.txs[t], tenant);
    forall u | 0 <= u < |s'.txs| ensures Settled(cfg, s', tenant, c, s'.txs[u]) {
      if u != t { assert Settled(cfg, s, tenant, c, s.txs[u]); }
    }
  }

  lemma StatementTallies(cfg: Config, db0: Db, s: State, t: nat, tenant: nat, c: nat, used: nat, rows: nat, n: nat)
    requires History(cfg, db0, s) && Tally(cfg, s, tenant, c, used, rows, n)
    requires Enabled(cfg, s, Run(t)) && !s.txs[t].phase.Commit?
    ensures Tally(cfg, Step(cfg, s, Run(t)), tenant, c, used, rows, n)
  {
    var s' := Step(cfg, s, Run(t));
    OtherSteps(cfg, s, Run(t));
    EndSettles(cfg, db0, s, t, tenant, c);
    assert s'.txs == s.txs[t := s'.txs[t]];
    CountsUpdate(s.txs, t, s'.txs[t], tenant);
    forall u | 0 <= u < |s'.txs| ensures Settled(cfg, s', tenant, c, s'.txs[u]) {
      if u != t { assert Settled(cfg, s, tenant, c, s.txs[u]); }
    }
  }

  lemma StepTallies(cfg: Config, db0: Db, s: State, a: Action, tenant: nat, c: nat, used: nat, rows: nat, n: nat)
    requires cfg.Valid() && History(cfg, db0, s) && Tally(cfg, s, tenant, c, used, rows, n)
    requires Enabled(cfg, s, a) && !a.Crash?
    ensures Tally(cfg, Step(cfg, s, a), tenant, c, used, rows, n)
  {
    if a.Run? {
      if s.txs[a.t].phase.Commit? {
        CommitTallies(cfg, db0, s, a.t, tenant, c, used, rows, n);
      } else {
        StatementTallies(cfg, db0, s, a.t, tenant, c, used, rows, n);
      }
    }
  }

  lemma {:induction false} RunTallies(cfg: Config, db0: Db, s: State, acts: seq<Action>, tenant: nat, c: nat,
                                      used: nat, rows: nat, n: nat)
    requires cfg.Valid() && History(cfg, db0, s) && IsRun(cfg, s, acts) && NoCrash(acts)
    requires Tally(cfg, s, tenant, c, used, rows, n)
    ensures Tally(cfg, After(cfg, s, acts), tenant, c, used, rows, n)
    ensures History(cfg, db0, After(cfg, s, acts))
    decreases |acts|
  {
    if acts != [] {
      HistoryStep(cfg, db0, s, acts[0]);
      StepTallies(cfg, db0, s, acts[0], tenant, c, used, rows, n);
      RunTallies(cfg, db0, Step(cfg, s, acts[0]), acts[1..], tenant, c, used, rows, n);
    }
  }

  lemma {:induction false} NoneGranted(txs: seq<Tx>, tenant: nat)
    requires forall t | 0 <= t < |txs| :: txs[t].phase == Begin
    ensures Granted(txs, tenant) == 0
  {
    if txs != [] { NoneGranted(txs[..|txs| - 1], tenant); }
  }

  lemma {:induction false} AllGranted(txs: seq<Tx>, tenant: nat)
    requires forall t | 0 <= t < |txs| :: IsGranted(txs[t], tenant) == IsLease(txs[t], tenant)
    ensures Granted(txs, tenant) == LeasesOf(txs, tenant)
  {
    if txs != [] { AllGranted(txs[..|txs| - 1], tenant); }
  }

  lemma {:induction false} GrantedAtMost(txs: seq<Tx>, tenant: nat)
    ensures Granted(txs, tenant) <= LeasesOf(txs, tenant)
  {
    if txs != [] { GrantedAtMost(txs[..|txs| - 1], tenant); }
  }

  function Min(a: int, b: int): int { if a <= b then a else b }

  lemma InitTally(cfg: Config, s: State, tenant: nat, c: nat)
    requires Init(cfg, s) && LeasesOnly(s) && OwnCounter(cfg, s.db, tenant, c)
    ensures Tally(cfg, s, tenant, c, InUse(cfg, s.db.attempts, c), ReservedOf(s.db.attempts, tenant),
                  LeasesOf(s.txs, tenant))
  {
    NoneGranted(s.txs, tenant);
  }

  lemma CapacityStays(cfg: Config, s: State, acts: seq<Action>, c: nat)
    requires IsRun(cfg, s, acts) && c in s.db.counters && c in After(cfg, s, acts).db.counters
    ensures After(cfg, s, acts).db.counters[c].capacity == s.db.counters[c].capacity
  {
    ScopesFixed(cfg, s, acts, c);
  }

  ghost predicate AllDone(e: State) {
    forall t | 0 <= t < |e.txs| :: e.txs[t].phase.Done?
  }

  lemma FinishedTally(cfg: Config, e: State, tenant: nat, c: nat, used: nat, rows: nat, n: nat)
    requires WithinQuota(cfg, e.db) && Conserved(cfg, e.db) && Tally(cfg, e, tenant, c, used, rows, n) && AllDone(e)
    ensures Granted(e.txs, tenant) == Min(n, Min(e.db.counters[c].capacity - used, rows))
  {
    GrantedAtMost(e.txs, tenant);
    assert e.db.counters[c].active == InUse(cfg, e.db.attempts, c) <= e.db.counters[c].capacity;
    if t :| 0 <= t < |e.txs| && IsGranted(e.txs[t], tenant) != IsLease(e.txs[t], tenant) {
      assert Settled(cfg, e, tenant, c, e.txs[t]);
    } else {
      AllGranted(e.txs, tenant);
    }
  }

  /** Leases, free units and reserved rows of the tenant, whichever is least. */
  function Grantable(cfg: Config, s: State, tenant: nat, c: nat): int
    requires c in s.db.counters
  {
    Min(LeasesOf(s.txs, tenant),
        Min(s.db.counters[c].capacity - InUse(cfg, s.db.attempts, c), ReservedOf(s.db.attempts, tenant)))
  }

  lemma ReachedTally(cfg: Config, s: State, acts: seq<Action>, tenant: nat, c: nat)
    requires cfg.Valid() && Init(cfg, s) && LeasesOnly(s) && OwnCounter(cfg, s.db, tenant, c)
    requires IsRun(cfg, s, acts) && NoCrash(acts)
    ensures var e := After(cfg, s, acts);
      && WithinQuota(cfg, e.db) && Conserved(cfg, e.db)
      && Tally(cfg, e, tenant, c, InUse(cfg, s.db.attempts, c), ReservedOf(s.db.attempts, tenant),
               LeasesOf(s.txs, tenant))
  {
    InitHistory(cfg, s);
    InitTally(cfg, s, tenant, c);
    RunTallies(cfg, s.db, s, acts, tenant, c, InUse(cfg, s.db.attempts, c), ReservedOf(s.db.attempts, tenant),
      LeasesOf(s.txs, tenant));
  }

  /**
   * Leases of any tenants and nothing else, no crash, any schedule: once all are done, exactly
   * as many of a tenant's leases have been granted as there were leases, free units and
   * reserved rows of it, whichever was least.
   */
  lemma LeasesGrantExactly(cfg: Config, s: State, acts: seq<Action>, tenant: nat, c: nat)
    requires cfg.Valid() && Init(cfg, s) && LeasesOnly(s) && OwnCounter(cfg, s.db, tenant, c)
    requires IsRun(cfg, s, acts) && NoCrash(acts) && AllDone(After(cfg, s, acts))
    ensures Granted(After(cfg, s, acts).txs, tenant) == Grantable(cfg, s, tenant, c)
  {
    var used, rows, n := InUse(cfg, s.db.attempts, c), ReservedOf(s.db.attempts, tenant), LeasesOf(s.txs, tenant);
    ReachedTally(cfg, s, acts, tenant, c);
    CapacityStays(cfg, s, acts, c);
    FinishedTally(cfg, After(cfg, s, acts), tenant, c, used, rows, n);
  }
}
