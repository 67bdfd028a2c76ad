/** One counter row per tenant: leases, settles and recoveries of a single-level deployment. */
module TenantCounters {
  import opened Common
  import opened Capacity
  import opened CapacitySafety
  import opened CapacityProgress
  import opened CapacityGrants

  /** Every lease locks, tests and occupies its own tenant's row, and every return gives that row back. */
  function PerTenant(ttl: nat): Config {
    Config(tenant => [tenant], tenant => [tenant], c => true, ttl)
  }

  lemma PerTenantValid(ttl: nat)
    ensures PerTenant(ttl).Valid() && PerTenant(ttl).Ordered()
  {
    forall tenant: nat ensures PerTenant(ttl).TenantValid(tenant) && PerTenant(ttl).TenantOrdered(tenant) {
      assert PerTenant(ttl).take(tenant) == [tenant];
    }
  }

  function InFlightOf(attempts: seq<Attempt>, tenant: nat): nat {
    if attempts == [] then 0
    else
      var last := attempts[|attempts| - 1];
      InFlightOf(attempts[..|attempts| - 1], tenant) + if last.status == InFlight && last.tenant == tenant then 1 else 0
  }

  lemma {:induction false} InUseIsInFlight(ttl: nat, attempts: seq<Attempt>, tenant: nat)
    ensures InUse(PerTenant(ttl), attempts, tenant) == InFlightOf(attempts, tenant)
  {
    if attempts != [] {
      InUseIsInFlight(ttl, attempts[..|attempts| - 1], tenant);
      assert PerTenant(ttl).take(attempts[|attempts| - 1].tenant) == [attempts[|attempts| - 1].tenant];
    }
  }

  /**
   * Over every interleaving of leases, settles, duplicate or late settles, recoveries and
   * crashes before commit: a tenant's committed counter is the number of its in-flight
   * attempts and stays within its capacity.
   */
  lemma TenantQuota(ttl: nat, s: State, acts: seq<Action>, tenant: nat)
    requires Init(PerTenant(ttl), s) && IsRun(PerTenant(ttl), s, acts) && tenant in s.db.counters
    ensures var e := After(PerTenant(ttl), s, acts).db;
      && tenant in e.counters && e.counters[tenant].capacity == s.db.counters[tenant].capacity
      && e.counters[tenant].active == InFlightOf(e.attempts, tenant) <= e.counters[tenant].capacity
  {
    PerTenantValid(ttl);
    QuotaAndConservation(PerTenant(ttl), s, acts, tenant);
    InUseIsInFlight(ttl, After(PerTenant(ttl), s, acts).db.attempts, tenant);
  }

  /** Leases mixed with settles and recoveries cannot deadlock: a run that cannot go on has finished everybody. */
  lemma TenantRunsFinish(ttl: nat, s: State, acts: seq<Action>)
    requires Init(PerTenant(ttl), s) && IsRun(PerTenant(ttl), s, acts)
    requires forall t: nat :: !Enabled(PerTenant(ttl), After(PerTenant(ttl), s, acts), Run(t))
    ensures forall t | 0 <= t < |After(PerTenant(ttl), s, acts).txs| ::
        After(PerTenant(ttl), s, acts).txs[t].phase.Done?
  {
    PerTenantValid(ttl);
    MaximalRunsFinish(PerTenant(ttl), s, acts);
  }

  /** Leases alone take, for every tenant with a counter, exactly the least of leases, free units and rows. */
  lemma TenantGrantsExactly(ttl: nat, s: State, acts: seq<Action>, tenant: nat)
    requires Init(PerTenant(ttl), s) && LeasesOnly(s) && tenant in s.db.counters
    requires IsRun(PerTenant(ttl), s, acts) && NoCrash(acts) && AllDone(After(PerTenant(ttl), s, acts))
    ensures Granted(After(PerTenant(ttl), s, acts).txs, tenant)
         == Min(LeasesOf(s.txs, tenant),
                Min(s.db.counters[tenant].capacity - InFlightOf(s.db.attempts, tenant),
                    ReservedOf(s.db.attempts, tenant)))
  {
    PerTenantValid(ttl);
    assert PerTenant(ttl).take(tenant) == [tenant];
    InUseIsInFlight(ttl, s.db.attempts, tenant);
    LeasesGrantExactly(PerTenant(ttl), s, acts, tenant, tenant);
  }
}
