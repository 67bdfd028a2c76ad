/**
 * Recovery in `Capacity`: only attempts whose lease has run out are taken back, and every
 * attempt that had run out when the recovery began has ended when it commits.
 */
module CapacityRecovery {
  import opened Common
  import opened Capacity
  import opened CapacitySafety
  import opened CapacityHistory

  // ------------------------------------------------------------------
  // Only what has expired
  // ------------------------------------------------------------------

  /** In flight for the tenant, not applied, and past the end of its lease at that time. */
  predicate RunOut(a: Attempt, tenant: nat, at: nat) {
    a.status == InFlight && a.tenant == tenant && !a.applied && a.until < at
  }

  /** What a recovery has collected so far, or is about to publish. */
  function Collected(tx: Tx): seq<nat> {
    match tx.phase
    case Scan(_, _, got) => got
    case Give(_, got, _, _) => got
    case Commit(_, outcome) => if outcome.Returned? then outcome.ids else []
    case _ => []
  }

  ghost predicate AllRunOut(db: Db, now: nat, tx: Tx) {
    tx.program.Recover? && !tx.phase.Begin? && !tx.phase.Done? ==>
      tx.at <= now
      && forall id <- Collected(tx) :: id < |db.attempts| && RunOut(db.attempts[id], tx.program.tenant, tx.at)
  }

  ghost predicate Ripe(s: State) {
    forall t | 0 <= t < |s.txs| :: AllRunOut(s.db, s.now, s.txs[t])
  }

  /** A commit does not touch the rows that another transaction has locked. */
  lemma CommitSparesRow(cfg: Config, s: State, t: nat, u: nat, id: nat)
    requires cfg.Valid() && Inv(cfg, s) && t < |s.txs| && u < |s.txs| && u != t && s.txs[t].phase.Commit?
    requires id < |s.db.attempts| && AttemptRow(id) in Footprint(cfg, s.db, s.txs[u])
    ensures Applied(s.db, s.txs[t]).attempts[id] == s.db.attempts[id]
  {
    FootprintsApart(cfg, s, t, u);
    assert TxOk(cfg, s.db, s.txs[t]);
    WritesAreHeld(cfg, s.db, s.txs[t]);
  }

  lemma CollectedIsHeld(cfg: Config, s: State, u: nat, id: nat)
    requires u < |s.txs| && s.txs[u].program.Recover? && id in Collected(s.txs[u])
    ensures AttemptRow(id) in Footprint(cfg, s.db, s.txs[u])
  {
    assert AttemptRow(id) in AttemptRows(Collected(s.txs[u]));
  }

  lemma OwnStepRipe(cfg: Config, s: State, t: nat)
    requires Inv(cfg, s) && Enabled(cfg, s, Run(t)) && !s.txs[t].phase.Commit? && AllRunOut(s.db, s.now, s.txs[t])
    ensures AllRunOut(s.db, s.now, Step(cfg, s, Run(t)).txs[t])
  {
    assert TxOk(cfg, s.db, s.txs[t]);
  }

  lemma OthersRipe(cfg: Config, s: State, t: nat, u: nat)
    requires cfg.Valid() && Inv(cfg, s) && t < |s.txs| && u < |s.txs| && u != t && s.txs[t].phase.Commit?
    requires AllRunOut(s.db, s.now, s.txs[u])
    ensures AllRunOut(Applied(s.db, s.txs[t]), s.now, s.txs[u])
  {
    if s.txs[u].program.Recover? {
      forall id <- Collected(s.txs[u]) | id < |s.db.attempts|
        ensures Applied(s.db, s.txs[t]).attempts[id] == s.db.attempts[id]
      {
        CollectedIsHeld(cfg, s, u, id);
        CommitSparesRow(cfg, s, t, u, id);
      }
    }
  }

  lemma StepRipe(cfg: Config, s: State, a: Action)
    requires cfg.Valid() && Inv(cfg, s) && Ripe(s) && Enabled(cfg, s, a)
    ensures Ripe(Step(cfg, s, a))
  {
    var s' := Step(cfg, s, a);
    forall u | 0 <= u < |s'.txs| ensures AllRunOut(s'.db, s'.now, s'.txs[u]) {
      assert AllRunOut(s.db, s.now, s.txs[u]);
      if a.Run? && s.txs[a.t].phase.Commit? {
        if u != a.t { OthersRipe(cfg, s, a.t, u); }
      } else if !a.Tick? {
        OtherSteps(cfg, s, a);
        if u == a.t && a.Run? { OwnStepRipe(cfg, s, u); }
      }
    }
  }

  lemma {:induction false} RunRipe(cfg: Config, db0: Db, s: State, acts: seq<Action>)
    requires cfg.Valid() && History(cfg, db0, s) && Ripe(s) && IsRun(cfg, s, acts)
    ensures Ripe(After(cfg, s, acts)) && History(cfg, db0, After(cfg, s, acts))
    decreases |acts|
  {
    if acts != [] {
      StepRipe(cfg, s, acts[0]);
      HistoryStep(cfg, db0, s, acts[0]);
      RunRipe(cfg, db0, Step(cfg, s, acts[0]), acts[1..]);
    }
  }

  /** The step takes attempt `id` back as unknown. */
  predicate TakesBack(cfg: Config, s: State, a: Action, id: nat)
    requires Enabled(cfg, s, a)
  {
    id < |s.db.attempts| && s.db.attempts[id].status != Unknown
    && id < |Step(cfg, s, a).db.attempts| && Step(cfg, s, a).db.attempts[id].status == Unknown
  }

  lemma TakenBackHadRunOut(cfg: Config, db0: Db, s: State, a: Action, id: nat)
    requires cfg.Valid() && History(cfg, db0, s) && Ripe(s) && Enabled(cfg, s, a) && TakesBack(cfg, s, a, id)
    ensures a.Run? && s.txs[a.t].program.Recover? && RunOut(s.db.attempts[id], s.txs[a.t].program.tenant, s.now)
  {
    if !a.Tick? && !(a.Run? && s.txs[a.t].phase.Commit?) {
      OtherSteps(cfg, s, a);
    } else if a.Run? {
      var tx := s.txs[a.t];
      assert TxOk(cfg, s.db, tx) && Credited(cfg, s.db, tx) && AllRunOut(s.db, s.now, tx);
      assert id in tx.aw;
    }
  }

  /**
   * In every reachable state, an attempt is taken back only by a recovery of its tenant, and
   * only while it is in flight, not applied, and past the end of its lease.
   */
  lemma OnlyExpiredTakenBack(cfg: Config, s: State, acts: seq<Action>, a: Action, id: nat)
    requires cfg.Valid() && Init(cfg, s) && IsRun(cfg, s, acts)
    requires Enabled(cfg, After(cfg, s, acts), a) && TakesBack(cfg, After(cfg, s, acts), a, id)
    ensures var e := After(cfg, s, acts);
      a.Run? && e.txs[a.t].program.Recover? && RunOut(e.db.attempts[id], e.txs[a.t].program.tenant, e.now)
  {
    InitHistory(cfg, s);
    RunRipe(cfg, s.db, s, acts);
    TakenBackHadRunOut(cfg, s.db, After(cfg, s, acts), a, id);
  }

  // ------------------------------------------------------------------
  // All that has expired
  // ------------------------------------------------------------------

  /** Recovery `t` has attempt `id` still before it or among its rows. */
  ghost predicate Caught(tx: Tx, id: nat, tenant: nat, at: nat) {
    && tx.program == Recover(tenant) && tx.at == at
    && match tx.phase
       case Scan(k, snap, got) => id in snap && (id in got || id >= k)
       case Give(_, got, _, _) => id in got
       case Commit(_, outcome) => outcome.Returned? && id in outcome.ids
       case Done(outcome) => outcome.Crashed?
       case _ => false
  }

  ghost predicate Doomed(s: State, t: nat, id: nat, tenant: nat, at: nat) {
    t < |s.txs| && id < |s.db.attempts|
    && (Over(s.db.attempts[id]) || (RunOut(s.db.attempts[id], tenant, at) && Caught(s.txs[t], id, tenant, at)))
  }

  lemma CommitDooms(cfg: Config, s: State, u: nat, t: nat, id: nat, tenant: nat, at: nat)
    requires cfg.Valid() && Inv(cfg, s) && Enabled(cfg, s, Run(u)) && s.txs[u].phase.Commit?
    requires Doomed(s, t, id, tenant, at)
    ensures Doomed(Step(cfg, s, Run(u)), t, id, tenant, at)
  {
    CommitHasEffect(cfg, s, u);
  }

  lemma StatementDooms(cfg: Config, s: State, t: nat, id: nat, tenant: nat, at: nat)
    requires Inv(cfg, s) && Enabled(cfg, s, Run(t)) && !s.txs[t].phase.Commit?
    requires Doomed(s, t, id, tenant, at)
    ensures Doomed(Step(cfg, s, Run(t)), t, id, tenant, at)
  {
    assert TxOk(cfg, s.db, s.txs[t]);
  }

  lemma StepDooms(cfg: Config, s: State, a: Action, t: nat, id: nat, tenant: nat, at: nat)
    requires cfg.Valid() && Inv(cfg, s) && Enabled(cfg, s, a) && Doomed(s, t, id, tenant, at)
    ensures Doomed(Step(cfg, s, a), t, id, tenant, at)
  {
    if a.Run? && s.txs[a.t].phase.Commit? {
      CommitDooms(cfg, s, a.t, t, id, tenant, at);
    } else if !a.Tick? {
      OtherSteps(cfg, s, a);
      if a == Run(t) { StatementDooms(cfg, s, t, id, tenant, at); }
    }
  }

  lemma {:induction false} RunDooms(cfg: Config, s: State, acts: seq<Action>, t: nat, id: nat, tenant: nat, at: nat)
    requires cfg.Valid() && Inv(cfg, s) && IsRun(cfg, s, acts) && Doomed(s, t, id, tenant, at)
    ensures Doomed(After(cfg, s, acts), t, id, tenant, at)
    decreases |acts|
  {
    if acts != [] {
      StepKeeps(cfg, s, acts[0]);
      StepDooms(cfg, s, acts[0], t, id, tenant, at);
      RunDooms(cfg, Step(cfg, s, acts[0]), acts[1..], t, id, tenant, at);
    }
  }

  /**
   * For every run and everything that goes on beside it: an attempt of the tenant that had run
   * out when a recovery began has ended, settled or taken back, when the recovery has committed.
   */
  lemma RecoveryIsComplete(cfg: Config, s: State, before: seq<Action>, t: nat, id: nat, after: seq<Action>)
    requires cfg.Valid() && Init(cfg, s) && IsRun(cfg, s, before)
    requires var b := After(cfg, s, before);
      && Enabled(cfg, b, Run(t)) && b.txs[t].program.Recover? && b.txs[t].phase.Begin? && id < |b.db.attempts|
      && RunOut(b.db.attempts[id], b.txs[t].program.tenant, b.now) && IsRun(cfg, Step(cfg, b, Run(t)), after)
    requires var e := After(cfg, Step(cfg, After(cfg, s, before), Run(t)), after);
      t < |e.txs| && e.txs[t].phase.Done? && !e.txs[t].phase.outcome.Crashed?
    ensures var e := After(cfg, Step(cfg, After(cfg, s, before), Run(t)), after);
      id < |e.db.attempts| && Over(e.db.attempts[id])
  {
    var b := After(cfg, s, before);
    InitHolds(cfg, s);
    RunKeeps(cfg, s, before);
    StepKeeps(cfg, b, Run(t));
    assert Doomed(Step(cfg, b, Run(t)), t, id, b.txs[t].program.tenant, b.now);
    RunDooms(cfg, Step(cfg, b, Run(t)), after, t, id, b.txs[t].program.tenant, b.now);
  }
}
