/**
 * The two-level control proof: one `global` counter above one counter per tenant.
 */
module ControlPlane {
  import opened Common
  import opened Capacity
  import opened CapacitySafety
  import opened CapacityProgress
  import opened CapacityGrants

  const GLOBAL: nat := 0

  /** A tenant's own counter row. */
  function TenantScope(tenant: nat): nat {
    tenant + 1
  }

  /**
   * Leases lock global, then tenant, and compare the tenant's capacity only.  The settle's
   * single `UPDATE ... WHERE scope IN (...)` visits its two rows in scan order.
   */
  function TwoLevel(globalFirst: bool, ttl: nat): Config {
    Config(tenant => [GLOBAL, TenantScope(tenant)],
           tenant => if globalFirst then [GLOBAL, TenantScope(tenant)] else [TenantScope(tenant), GLOBAL],
           c => c != GLOBAL,
           ttl)
  }

  lemma TwoLevelValid(globalFirst: bool, ttl: nat)
    ensures TwoLevel(globalFirst, ttl).Valid()
    ensures TwoLevel(true, ttl).Ordered()
  {
    var cfg := TwoLevel(globalFirst, ttl);
    forall tenant: nat ensures cfg.TenantValid(tenant) && TwoLevel(true, ttl).TenantOrdered(tenant) {
      assert cfg.take(tenant) == [GLOBAL, TenantScope(tenant)];
    }
  }

  function InFlightCount(attempts: seq<Attempt>): nat {
    if attempts == [] then 0
    else InFlightCount(attempts[..|attempts| - 1]) + (if attempts[|attempts| - 1].status == InFlight then 1 else 0)
  }

  /** Sum of the in-flight counts charged to the first `tenants` tenants. */
  function SumInUse(cfg: Config, attempts: seq<Attempt>, tenants: nat): nat {
    if tenants == 0 then 0
    else SumInUse(cfg, attempts, tenants - 1) + InUse(cfg, attempts, TenantScope(tenants - 1))
  }

  lemma {:induction false} GlobalCountsAll(globalFirst: bool, ttl: nat, attempts: seq<Attempt>)
    ensures InUse(TwoLevel(globalFirst, ttl), attempts, GLOBAL) == InFlightCount(attempts)
  {
    if attempts != [] {
      GlobalCountsAll(globalFirst, ttl, attempts[..|attempts| - 1]);
      assert GLOBAL in TwoLevel(globalFirst, ttl).take(attempts[|attempts| - 1].tenant);
    }
  }

  /** Adding one attempt adds one to exactly its own tenant's term. */
  lemma {:induction false} SumInUseSnoc(globalFirst: bool, ttl: nat, attempts: seq<Attempt>, tenants: nat)
    requires attempts != []
    ensures var cfg := TwoLevel(globalFirst, ttl);
      var last := attempts[|attempts| - 1];
      SumInUse(cfg, attempts, tenants) == SumInUse(cfg, attempts[..|attempts| - 1], tenants)
        + (if last.status == InFlight && last.tenant < tenants then 1 else 0)
  {
    if tenants > 0 {
      SumInUseSnoc(globalFirst, ttl, attempts, tenants - 1);
      var last := attempts[|attempts| - 1];
      assert TenantScope(tenants - 1) in TwoLevel(globalFirst, ttl).take(last.tenant) <==> last.tenant == tenants - 1;
    }
  }

  lemma {:induction false} TenantsCoverAll(globalFirst: bool, ttl: nat, attempts: seq<Attempt>, tenants: nat)
    requires forall a <- attempts :: a.tenant < tenants
    ensures SumInUse(TwoLevel(globalFirst, ttl), attempts, tenants) == InFlightCount(attempts)
  {
    if attempts == [] {
      EmptySum(globalFirst, ttl, tenants);
    } else {
      TenantsCoverAll(globalFirst, ttl, attempts[..|attempts| - 1], tenants);
      SumInUseSnoc(globalFirst, ttl, attempts, tenants);
    }
  }

  lemma {:induction false} EmptySum(globalFirst: bool, ttl: nat, tenants: nat)
    ensures SumInUse(TwoLevel(globalFirst, ttl), [], tenants) == 0
  {
    if tenants > 0 { EmptySum(globalFirst, ttl, tenants - 1); }
  }

  function SumActive(counters: map<nat, Counter>, tenants: nat): int
    requires forall t | 0 <= t < tenants :: TenantScope(t) in counters
  {
    if tenants == 0 then 0 else SumActive(counters, tenants - 1) + counters[TenantScope(tenants - 1)].active
  }

  lemma {:induction false} SumActiveIsInUse(cfg: Config, db: Db, tenants: nat)
    requires Conserved(cfg, db) && forall t | 0 <= t < tenants :: TenantScope(t) in db.counters
    ensures SumActive(db.counters, tenants) == SumInUse(cfg, db.attempts, tenants)
  {
    if tenants > 0 { SumActiveIsInUse(cfg, db, tenants - 1); }
  }

  lemma {:induction false} TenantsFixed(cfg: Config, s: State, acts: seq<Action>)
    requires cfg.Valid() && Inv(cfg, s) && IsRun(cfg, s, acts)
    ensures |After(cfg, s, acts).db.attempts| == |s.db.attempts|
    ensures forall i | 0 <= i < |s.db.attempts| :: After(cfg, s, acts).db.attempts[i].tenant == s.db.attempts[i].tenant
    decreases |acts|
  {
    if acts != [] {
      StepKeeps(cfg, s, acts[0]);
      StepTenants(cfg, s, acts[0]);
      TenantsFixed(cfg, Step(cfg, s, acts[0]), acts[1..]);
    }
  }

  lemma StepTenants(cfg: Config, s: State, a: Action)
    requires cfg.Valid() && Inv(cfg, s) && Enabled(cfg, s, a)
    ensures |Step(cfg, s, a).db.attempts| == |s.db.attempts|
    ensures forall i | 0 <= i < |s.db.attempts| :: Step(cfg, s, a).db.attempts[i].tenant == s.db.attempts[i].tenant
  {
    if a.Run? { assert TxOk(cfg, s.db, s.txs[a.t]); }
  }

  /**
   * Over every interleaving: global `active` is the number of in-flight attempts and the sum
   * of the tenants' `active`, and every tenant stays within its own capacity.
   */
  lemma GlobalIsSumOfTenants(globalFirst: bool, ttl: nat, s: State, acts: seq<Action>, tenants: nat)
    requires var cfg := TwoLevel(globalFirst, ttl); Init(cfg, s) && IsRun(cfg, s, acts)
    requires GLOBAL in s.db.counters
    requires forall t | 0 <= t < tenants :: TenantScope(t) in s.db.counters
    requires forall a <- s.db.attempts :: a.tenant < tenants
    ensures var e := After(TwoLevel(globalFirst, ttl), s, acts);
      && GLOBAL in e.db.counters && (forall t | 0 <= t < tenants :: TenantScope(t) in e.db.counters)
      && e.db.counters[GLOBAL].active == InFlightCount(e.db.attempts)
      && e.db.counters[GLOBAL].active == SumActive(e.db.counters, tenants)
      && (forall t | 0 <= t < tenants ::
            e.db.counters[TenantScope(t)].active <= e.db.counters[TenantScope(t)].capacity)
  {
    var cfg := TwoLevel(globalFirst, ttl);
    var e := After(cfg, s, acts);
    TwoLevelValid(globalFirst, ttl);
    InitHolds(cfg, s);
    RunKeeps(cfg, s, acts);
    ScopesFixed(cfg, s, acts, GLOBAL);
    forall t | 0 <= t < tenants ensures TenantScope(t) in e.db.counters {
      ScopesFixed(cfg, s, acts, TenantScope(t));
    }
    TenantsFixed(cfg, s, acts);
    GlobalCountsAll(globalFirst, ttl, e.db.attempts);
    TenantsCoverAll(globalFirst, ttl, e.db.attempts, tenants);
    SumActiveIsInUse(cfg, e.db, tenants);
  }

  /** The global row is no limit to leases: each tenant gets the least of its leases, free units and rows. */
  lemma TenantsGrantExactly(globalFirst: bool, ttl: nat, s: State, acts: seq<Action>, tenant: nat)
    requires Init(TwoLevel(globalFirst, ttl), s) && LeasesOnly(s) && TenantScope(tenant) in s.db.counters
    requires var cfg := TwoLevel(globalFirst, ttl);
      IsRun(cfg, s, acts) && NoCrash(acts) && AllDone(After(cfg, s, acts))
    ensures var cfg := TwoLevel(globalFirst, ttl);
      Granted(After(cfg, s, acts).txs, tenant) == Grantable(cfg, s, tenant, TenantScope(tenant))
  {
    var cfg := TwoLevel(globalFirst, ttl);
    TwoLevelValid(globalFirst, ttl);
    assert cfg.take(tenant) == [GLOBAL, TenantScope(tenant)];
    assert forall u: nat :: cfg.take(u) == [GLOBAL, TenantScope(u)];
    LeasesGrantExactly(cfg, s, acts, tenant, TenantScope(tenant));
  }

  // ------------------------------------------------------------------
  // The scan order of the settle decides about deadlock
  // ------------------------------------------------------------------

  /** Somebody is unfinished and nobody can take a step. */
  ghost predicate Stuck(cfg: Config, s: State) {
    && (exists t :: Unfinished(s, t))
    && (forall t: nat :: !Enabled(cfg, s, Run(t)))
  }

  /** One reserved row, one in-flight row of the same tenant, a lease and a settle. */
  function Crossing(lease: Phase, settle: Phase, locks: map<Row, nat>, cw: map<nat, int>,
                    aw: map<nat, Attempt>): State
  {
    State(Db(map[0 := Counter(2, 1), 1 := Counter(2, 1)],
             [Attempt(0, InFlight, Some(7), 9, false), Attempt(0, Reserved, None, 0, false)]),
          locks,
          [Tx(Lease(8, 0), lease, 0, map[], map[]), Tx(Settle(0, 7), settle, 0, cw, aw)],
          0)
  }

  const SETTLED: map<nat, Attempt> := map[0 := Attempt(0, Succeeded, Some(7), 9, true)]

  const CROSSED: State :=
    Crossing(LockScope(1), Give(0, [0], 0, 1),
             map[CounterRow(0) := 0, AttemptRow(0) := 1, CounterRow(1) := 1], map[1 := 0], SETTLED)

  const UNCROSSED: State := Crossing(Begin, Begin, map[], map[], map[])

  lemma CrossingInit(ttl: nat)
    ensures Init(TwoLevel(false, ttl), UNCROSSED)
  {
    var cfg := TwoLevel(false, ttl);
    var attempts := UNCROSSED.db.attempts;
    assert attempts[..1] == [attempts[0]] && attempts[..1][..0] == [];
    assert cfg.take(0) == [GLOBAL, TenantScope(0)];
    forall c | c in UNCROSSED.db.counters ensures InUse(cfg, attempts, c) == 1 {
      assert InUse(cfg, attempts[..1], c) == 1;
    }
  }

  lemma LeaseTakesGlobal(ttl: nat)
    ensures var cfg := TwoLevel(false, ttl);
      && Enabled(cfg, UNCROSSED, Run(0))
      && Step(cfg, UNCROSSED, Run(0)) == Crossing(LockScope(0), Begin, map[], map[], map[])
      && Enabled(cfg, Crossing(LockScope(0), Begin, map[], map[], map[]), Run(0))
      && Step(cfg, Crossing(LockScope(0), Begin, map[], map[], map[]), Run(0))
         == Crossing(LockScope(1), Begin, map[CounterRow(0) := 0], map[], map[])
  {
  }

  lemma SettleTakesRow(ttl: nat)
    ensures var cfg := TwoLevel(false, ttl);
      var s2 := Crossing(LockScope(1), Begin, map[CounterRow(0) := 0], map[], map[]);
      var s3 := Crossing(LockScope(1), Give(0, [0], 0, 0), map[CounterRow(0) := 0, AttemptRow(0) := 1], map[], SETTLED);
      Enabled(cfg, s2, Run(1)) && Step(cfg, s2, Run(1)) == s3
  {
  }

  lemma SettleTakesTenant(ttl: nat)
    ensures var cfg := TwoLevel(false, ttl);
      var s3 := Crossing(LockScope(1), Give(0, [0], 0, 0), map[CounterRow(0) := 0, AttemptRow(0) := 1], map[], SETTLED);
      Enabled(cfg, s3, Run(1)) && Step(cfg, s3, Run(1)) == CROSSED
  {
    var cfg := TwoLevel(false, ttl);
    assert cfg.give(0) == [1, 0];
  }

  lemma CrossedIsStuck(ttl: nat)
    ensures Stuck(TwoLevel(false, ttl), CROSSED)
  {
    var cfg := TwoLevel(false, ttl);
    assert cfg.give(0) == [1, 0] && cfg.take(0) == [0, 1];
    assert Unfinished(CROSSED, 0);
    assert Blocked(cfg, CROSSED, 0) && Blocked(cfg, CROSSED, 1);
    forall t: nat ensures !Enabled(cfg, CROSSED, Run(t)) {
    }
  }

  lemma CrossingReached(ttl: nat)
    ensures var cfg := TwoLevel(false, ttl);
      var acts := [Run(0), Run(0), Run(1), Run(1)];
      IsRun(cfg, UNCROSSED, acts) && After(cfg, UNCROSSED, acts) == CROSSED
  {
    var cfg := TwoLevel(false, ttl);
    LeaseTakesGlobal(ttl);
    SettleTakesRow(ttl);
    SettleTakesTenant(ttl);
    var s1 := Step(cfg, UNCROSSED, Run(0));
    var s2 := Step(cfg, s1, Run(0));
    var s3 := Step(cfg, s2, Run(1));
    Chain(cfg, s3, Run(1), [], CROSSED);
    Chain(cfg, s2, Run(1), [Run(1)], CROSSED);
    Chain(cfg, s1, Run(0), [Run(1), Run(1)], CROSSED);
    Chain(cfg, UNCROSSED, Run(0), [Run(0), Run(1), Run(1)], CROSSED);
    assert [Run(0)] + [Run(0), Run(1), Run(1)] == [Run(0), Run(0), Run(1), Run(1)];
    assert [Run(0)] + [Run(1), Run(1)] == [Run(0), Run(1), Run(1)];
    assert [Run(1)] + [Run(1)] == [Run(1), Run(1)] && [Run(1)] + [] == [Run(1)];
  }

  lemma Chain(cfg: Config, s: State, a: Action, rest: seq<Action>, e: State)
    requires Enabled(cfg, s, a) && IsRun(cfg, Step(cfg, s, a), rest) && After(cfg, Step(cfg, s, a), rest) == e
    ensures IsRun(cfg, s, [a] + rest) && After(cfg, s, [a] + rest) == e
  {
    assert ([a] + rest)[1..] == rest;
  }

  lemma GlobalFirstNeverStuck(ttl: nat, s: State, acts: seq<Action>)
    requires Init(TwoLevel(true, ttl), s) && IsRun(TwoLevel(true, ttl), s, acts)
    ensures !Stuck(TwoLevel(true, ttl), After(TwoLevel(true, ttl), s, acts))
  {
    var cfg := TwoLevel(true, ttl);
    var e := After(cfg, s, acts);
    TwoLevelValid(true, ttl);
    InitHolds(cfg, s);
    RunKeeps(cfg, s, acts);
    if t: nat :| Unfinished(e, t) {
      var u := DeadlockFree(cfg, e, t);
    }
  }

  /** No reachable state is stuck exactly when the settle visits the global row first. */
  lemma DeadlockFreeIffGlobalFirst(globalFirst: bool, ttl: nat)
    ensures globalFirst <==>
      forall s, acts | Init(TwoLevel(globalFirst, ttl), s) && IsRun(TwoLevel(globalFirst, ttl), s, acts) ::
        !Stuck(TwoLevel(globalFirst, ttl), After(TwoLevel(globalFirst, ttl), s, acts))
  {
    if globalFirst {
      forall s, acts | Init(TwoLevel(true, ttl), s) && IsRun(TwoLevel(true, ttl), s, acts)
        ensures !Stuck(TwoLevel(true, ttl), After(TwoLevel(true, ttl), s, acts))
      {
        GlobalFirstNeverStuck(ttl, s, acts);
      }
    } else {
      CrossingInit(ttl);
      CrossingReached(ttl);
      CrossedIsStuck(ttl);
    }
  }
}
