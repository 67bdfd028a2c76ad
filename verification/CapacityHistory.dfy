/**
 * What finished transactions may claim: every lease is granted once, handed back at most
 * once, and only by its owner or by recovery.
 */
module CapacityHistory {
  import opened Common
  import opened Capacity
  import opened CapacitySafety
  import RowLocks

  predicate Over(a: Attempt) {
    a.status == Succeeded || a.status == Unknown
  }

  predicate Leases(tx: Tx, id: nat) {
    tx.phase.Done? && tx.phase.outcome == Leased(id)
  }

  predicate Returns(tx: Tx, id: nat) {
    tx.phase.Done? && tx.phase.outcome.Returned? && id in tx.phase.outcome.ids
  }

  /** Every attempt that left `Reserved` did so through exactly one committed lease. */
  ghost predicate LeasedOnce(db0: Db, s: State) {
    && |s.db.attempts| == |db0.attempts|
    && (forall t, u, id | 0 <= t < |s.txs| && 0 <= u < |s.txs| && Leases(s.txs[t], id) && Leases(s.txs[u], id) ::
        t == u)
    && (forall t, id: nat {:trigger Leases(s.txs[t], id)} | 0 <= t < |s.txs| && Leases(s.txs[t], id) ::
          id < |s.db.attempts| && db0.attempts[id].status == Reserved && s.db.attempts[id].status != Reserved)
    && (forall id: nat | id < |s.db.attempts| && db0.attempts[id].status == Reserved
        && s.db.attempts[id].status != Reserved ::
          exists t :: 0 <= t < |s.txs| && Leases(s.txs[t], id))
    && (forall id: nat | id < |s.db.attempts| && s.db.attempts[id].status == Reserved ::
        db0.attempts[id].status == Reserved)
  }

  /** Every attempt that ended did so through exactly one committed settle or recovery. */
  ghost predicate ReturnedOnce(db0: Db, s: State) {
    && |s.db.attempts| == |db0.attempts|
    && (forall t, u, id | 0 <= t < |s.txs| && 0 <= u < |s.txs| && Returns(s.txs[t], id) && Returns(s.txs[u], id) ::
        t == u)
    && (forall t, id: nat {:trigger Returns(s.txs[t], id)} | 0 <= t < |s.txs| && Returns(s.txs[t], id) ::
          id < |s.db.attempts| && !Over(db0.attempts[id]) && Over(s.db.attempts[id]))
    && (forall id: nat | id < |s.db.attempts| && !Over(db0.attempts[id]) && Over(s.db.attempts[id]) ::
          exists t :: 0 <= t < |s.txs| && Returns(s.txs[t], id))
    && (forall id: nat | id < |s.db.attempts| && Over(db0.attempts[id]) :: Over(s.db.attempts[id]))
  }

  /** Committed rows still carry the name of whoever leased them, and say how they ended. */
  ghost predicate Credited(cfg: Config, db: Db, tx: Tx) {
    match tx.program
    case Lease(_, _) =>
      && (tx.phase.Commit? && tx.phase.outcome.Leased? && tx.phase.outcome.id in tx.aw ==>
            LeaseWritten(cfg, tx, tx.aw[tx.phase.outcome.id]))
      && (tx.phase.Done? ==> !tx.phase.outcome.Returned?)
      && (tx.phase.Commit? ==> !tx.phase.outcome.Returned?)
      && !tx.phase.Give?
      && (tx.phase.Done? && tx.phase.outcome.Leased? && tx.phase.outcome.id < |db.attempts| ==>
            LeaseWritten(cfg, tx, db.attempts[tx.phase.outcome.id]))
    case Settle(id, owner) =>
      && (tx.phase.Give? ==> tx.phase.got == [id] && SettledRow(tx.aw, id, owner))
      && (tx.phase.Commit? ==> tx.phase.outcome == Returned([id]) && SettledRow(tx.aw, id, owner))
      && (tx.phase.Done? && tx.phase.outcome.Returned? ==> tx.phase.outcome == Returned([id]))
      && (tx.phase.Done? && tx.phase.outcome.Returned? && id < |db.attempts| ==>
            db.attempts[id].owner == Some(owner) && db.attempts[id].status == Succeeded && db.attempts[id].applied)
    case Recover(tenant) =>
      && (tx.phase.Scan? ==> forall id <- tx.phase.got :: id in tx.aw ==> tx.aw[id].status == Unknown)
      && (tx.phase.Give? ==> forall id <- tx.phase.got :: id in tx.aw ==> tx.aw[id].status == Unknown)
      && (tx.phase.Commit? && tx.phase.outcome.Returned? ==>
            forall id <- tx.phase.outcome.ids :: id in tx.aw ==> tx.aw[id].status == Unknown)
      && (tx.phase.Done? && tx.phase.outcome.Returned? ==>
            forall id <- tx.phase.outcome.ids :: id < |db.attempts| ==> db.attempts[id].status == Unknown)
  }

  /** The row of a granted lease: its worker, its tenant, and the time to live from when it began. */
  ghost predicate LeaseWritten(cfg: Config, tx: Tx, a: Attempt)
    requires tx.program.Lease?
  {
    a.owner == Some(tx.program.worker) && a.tenant == tx.program.tenant && a.until == tx.at + cfg.ttl
  }

  ghost predicate SettledRow(aw: map<nat, Attempt>, id: nat, owner: nat) {
    id in aw && aw[id].owner == Some(owner) && aw[id].status == Succeeded && aw[id].applied
  }

  ghost predicate History(cfg: Config, db0: Db, s: State) {
    && Inv(cfg, s)
    && LeasedOnce(db0, s)
    && ReturnedOnce(db0, s)
    && (forall t | 0 <= t < |s.txs| :: Credited(cfg, s.db, s.txs[t]))
  }

  lemma Quiet(db0: Db, s: State, s': State, t: nat)
    requires t < |s.txs| && s'.db == s.db && |s'.txs| == |s.txs|
    requires forall u | 0 <= u < |s.txs| && u != t :: s'.txs[u] == s.txs[u]
    requires !s.txs[t].phase.Done?
    requires s'.txs[t].phase.Done? ==> !s'.txs[t].phase.outcome.Leased? && !s'.txs[t].phase.outcome.Returned?
    requires LeasedOnce(db0, s) && ReturnedOnce(db0, s)
    ensures LeasedOnce(db0, s') && ReturnedOnce(db0, s')
  {
    forall id: nat | id < |s.db.attempts| && db0.attempts[id].status == Reserved && s.db.attempts[id].status != Reserved
      ensures exists u :: 0 <= u < |s'.txs| && Leases(s'.txs[u], id)
    {
      var u :| 0 <= u < |s.txs| && Leases(s.txs[u], id);
      assert Leases(s'.txs[u], id);
    }
    forall id: nat | id < |s.db.attempts| && !Over(db0.attempts[id]) && Over(s.db.attempts[id])
      ensures exists u :: 0 <= u < |s'.txs| && Returns(s'.txs[u], id)
    {
      var u :| 0 <= u < |s.txs| && Returns(s.txs[u], id);
      assert Returns(s'.txs[u], id);
    }
  }

  predicate SameLease(a: Attempt, b: Attempt) {
    b.owner == a.owner && b.tenant == a.tenant && b.until == a.until
  }

  /** What a commit does to the attempt table: it moves one reserved row, or ends in-flight rows. */
  ghost predicate CommitEffect(att: seq<Attempt>, att': seq<Attempt>, outcome: Outcome) {
    && |att'| == |att|
    && match outcome
       case Leased(id) =>
         && id < |att| && att[id].status == Reserved && att'[id].status == InFlight
         && (forall i | 0 <= i < |att| && i != id :: att'[i] == att[i])
       case Returned(got) =>
         && (forall i <- got ::
               i < |att| && att[i].status == InFlight && Over(att'[i]) && SameLease(att[i], att'[i]))
         && (forall i | 0 <= i < |att| && i !in got :: att'[i] == att[i])
       case _ => false
  }

  lemma CommitHasEffect(cfg: Config, s: State, t: nat)
    requires cfg.Valid() && Inv(cfg, s) && t < |s.txs| && s.txs[t].phase.Commit?
    ensures CommitEffect(s.db.attempts, Applied(s.db, s.txs[t]).attempts, s.txs[t].phase.outcome)
  {
    assert TxOk(cfg, s.db, s.txs[t]);
  }

  lemma LeaseHistory(db0: Db, s: State, s': State, t: nat)
    requires t < |s.txs| && |s'.txs| == |s.txs| && LeasedOnce(db0, s)
    requires s'.txs[t].phase.Done? && !s.txs[t].phase.Done?
    requires forall u | 0 <= u < |s.txs| && u != t :: s'.txs[u] == s.txs[u]
    requires CommitEffect(s.db.attempts, s'.db.attempts, s'.txs[t].phase.outcome)
    ensures LeasedOnce(db0, s')
  {
    forall id: nat | id < |s.db.attempts| && db0.attempts[id].status == Reserved
        && s'.db.attempts[id].status != Reserved
      ensures exists u :: 0 <= u < |s'.txs| && Leases(s'.txs[u], id)
    {
      if s.db.attempts[id].status != Reserved {
        var u :| 0 <= u < |s.txs| && Leases(s.txs[u], id);
        assert Leases(s'.txs[u], id);
      } else {
        assert Leases(s'.txs[t], id);
      }
    }
    forall u, id: nat | 0 <= u < |s'.txs| && Leases(s'.txs[u], id)
      ensures id < |s.db.attempts| && db0.attempts[id].status == Reserved && s'.db.attempts[id].status != Reserved
      ensures u != t ==> s.db.attempts[id].status != Reserved
    {
      if u != t {
        assert Leases(s.txs[u], id);
      } else {
        assert s'.txs[t].phase.outcome == Leased(id);
      }
    }
  }

  lemma ReturnHistory(db0: Db, s: State, s': State, t: nat)
    requires t < |s.txs| && |s'.txs| == |s.txs| && ReturnedOnce(db0, s)
    requires s'.txs[t].phase.Done? && !s.txs[t].phase.Done?
    requires forall u | 0 <= u < |s.txs| && u != t :: s'.txs[u] == s.txs[u]
    requires CommitEffect(s.db.attempts, s'.db.attempts, s'.txs[t].phase.outcome)
    ensures ReturnedOnce(db0, s')
  {
    forall id: nat | id < |s.db.attempts| && !Over(db0.attempts[id]) && Over(s'.db.attempts[id])
      ensures exists u :: 0 <= u < |s'.txs| && Returns(s'.txs[u], id)
    {
      if Over(s.db.attempts[id]) {
        var u :| 0 <= u < |s.txs| && Returns(s.txs[u], id);
        assert Returns(s'.txs[u], id);
      } else {
        assert Returns(s'.txs[t], id);
      }
    }
    forall u, id: nat | 0 <= u < |s'.txs| && Returns(s'.txs[u], id)
      ensures id < |s.db.attempts| && !Over(db0.attempts[id]) && Over(s'.db.attempts[id])
      ensures u != t ==> Over(s.db.attempts[id])
    {
      if u != t {
        assert Returns(s.txs[u], id);
      } else {
        assert id in s'.txs[t].phase.outcome.ids;
      }
    }
  }

  /** A commit leaves the claims of every other transaction true, since it touches only rows in use. */
  lemma OtherCredit(cfg: Config, db: Db, db': Db, outcome: Outcome, tx: Tx)
    requires CommitEffect(db.attempts, db'.attempts, outcome) && Credited(cfg, db, tx)
    requires forall id: nat | Leases(tx, id) :: id < |db.attempts| && db.attempts[id].status != Reserved
    requires forall id: nat | Returns(tx, id) :: id < |db.attempts| && Over(db.attempts[id])
    ensures Credited(cfg, db', tx)
  {
    if tx.phase.Done? {
      if tx.phase.outcome.Leased? { assert Leases(tx, tx.phase.outcome.id); }
      if tx.phase.outcome.Returned? {
        assert forall id <- tx.phase.outcome.ids :: Returns(tx, id);
      }
    }
  }

  /** The commit of `t` leaves the claim of every transaction true. */
  lemma CommitCredit(cfg: Config, db0: Db, s: State, t: nat, u: nat)
    requires cfg.Valid() && History(cfg, db0, s) && Enabled(cfg, s, Run(t)) && s.txs[t].phase.Commit?
    requires u < |s.txs|
    ensures Credited(cfg, Step(cfg, s, Run(t)).db, Step(cfg, s, Run(t)).txs[u])
  {
    assert Credited(cfg, s.db, s.txs[u]);
    if u == t {
      assert TxOk(cfg, s.db, s.txs[t]);
    } else {
      CommitHasEffect(cfg, s, t);
      OtherCredit(cfg, s.db, Applied(s.db, s.txs[t]), s.txs[t].phase.outcome, s.txs[u]);
    }
  }

  lemma LeaseCredit(cfg: Config, s: State, t: nat)
    requires Enabled(cfg, s, Run(t)) && !s.txs[t].phase.Commit? && s.txs[t].program.Lease?
    requires Credited(cfg, s.db, s.txs[t]) && TxOk(cfg, s.db, s.txs[t])
    ensures Credited(cfg, s.db, Step(cfg, s, Run(t)).txs[t])
  {
    match s.txs[t].phase
    case LockScope(k) => assert !LeaseMove(cfg, s, t, k).Publish?;
    case _ =>
  }

  lemma SettleCredit(cfg: Config, s: State, t: nat)
    requires Enabled(cfg, s, Run(t)) && !s.txs[t].phase.Commit? && s.txs[t].program.Settle?
    requires Credited(cfg, s.db, s.txs[t])
    ensures Credited(cfg, s.db, Step(cfg, s, Run(t)).txs[t])
  {
  }

  lemma RecoverCredit(cfg: Config, s: State, t: nat)
    requires Enabled(cfg, s, Run(t)) && !s.txs[t].phase.Commit? && s.txs[t].program.Recover?
    requires Credited(cfg, s.db, s.txs[t])
    ensures Credited(cfg, s.db, Step(cfg, s, Run(t)).txs[t])
  {
  }

  lemma GoCredit(cfg: Config, s: State, t: nat)
    requires Enabled(cfg, s, Run(t)) && !s.txs[t].phase.Commit?
    requires Credited(cfg, s.db, s.txs[t]) && TxOk(cfg, s.db, s.txs[t])
    ensures Credited(cfg, s.db, Step(cfg, s, Run(t)).txs[t])
  {
    match s.txs[t].program
    case Lease(_, _) => LeaseCredit(cfg, s, t);
    case Settle(_, _) => SettleCredit(cfg, s, t);
    case Recover(_) => RecoverCredit(cfg, s, t);
  }

  /** A step that does not commit changes no table and makes no claim. */
  lemma OtherSteps(cfg: Config, s: State, a: Action)
    requires Enabled(cfg, s, a) && !a.Tick? && !(a.Run? && s.txs[a.t].phase.Commit?)
    ensures var s' := Step(cfg, s, a);
      && s'.db == s.db && |s'.txs| == |s.txs|
      && (forall u | 0 <= u < |s.txs| && u != a.t :: s'.txs[u] == s.txs[u])
      && s'.txs[a.t].program == s.txs[a.t].program
      && (s'.txs[a.t].phase.Done? ==> !s'.txs[a.t].phase.outcome.Leased? && !s'.txs[a.t].phase.outcome.Returned?)
  {
  }

  lemma HistoryStep(cfg: Config, db0: Db, s: State, a: Action)
    requires cfg.Valid() && History(cfg, db0, s) && Enabled(cfg, s, a)
    ensures History(cfg, db0, Step(cfg, s, a))
  {
    StepKeeps(cfg, s, a);
    if a.Run? && s.txs[a.t].phase.Commit? {
      HistoryCommit(cfg, db0, s, a.t);
    } else if !a.Tick? {
      OtherSteps(cfg, s, a);
      Quiet(db0, s, Step(cfg, s, a), a.t);
      assert Credited(cfg, s.db, s.txs[a.t]);
      if a.Run? { GoCredit(cfg, s, a.t); }
    }
  }

  lemma HistoryCommit(cfg: Config, db0: Db, s: State, t: nat)
    requires cfg.Valid() && History(cfg, db0, s) && Enabled(cfg, s, Run(t)) && s.txs[t].phase.Commit?
    ensures var s' := Step(cfg, s, Run(t));
      LeasedOnce(db0, s') && ReturnedOnce(db0, s') && forall u | 0 <= u < |s'.txs| :: Credited(cfg, s'.db, s'.txs[u])
  {
    var s' := Step(cfg, s, Run(t));
    CommitHasEffect(cfg, s, t);
    LeaseHistory(db0, s, s', t);
    ReturnHistory(db0, s, s', t);
    forall u | 0 <= u < |s'.txs| ensures Credited(cfg, s'.db, s'.txs[u]) {
      CommitCredit(cfg, db0, s, t, u);
    }
  }

  lemma {:induction false} HistoryHolds(cfg: Config, db0: Db, s: State, acts: seq<Action>)
    requires cfg.Valid() && History(cfg, db0, s) && IsRun(cfg, s, acts)
    ensures History(cfg, db0, After(cfg, s, acts))
    decreases |acts|
  {
    if acts != [] {
      HistoryStep(cfg, db0, s, acts[0]);
      HistoryHolds(cfg, db0, Step(cfg, s, acts[0]), acts[1..]);
    }
  }

  lemma InitHistory(cfg: Config, s: State)
    requires Init(cfg, s)
    ensures History(cfg, s.db, s)
  {
    InitHolds(cfg, s);
  }

  lemma ReachedHistory(cfg: Config, s: State, acts: seq<Action>)
    requires cfg.Valid() && Init(cfg, s) && IsRun(cfg, s, acts)
    ensures History(cfg, s.db, After(cfg, s, acts))
  {
    InitHistory(cfg, s);
    HistoryHolds(cfg, s.db, s, acts);
  }

  /**
   * Exactly once.  In any run, an attempt leaves `Reserved` iff one transaction leased it,
   * ends iff one transaction returned it, and no two transactions claim the same row.
   */
  lemma LeasedAndReturnedOnce(cfg: Config, s: State, acts: seq<Action>, id: nat)
    requires cfg.Valid() && Init(cfg, s) && IsRun(cfg, s, acts) && id < |s.db.attempts|
    ensures var e := After(cfg, s, acts);
      && |e.db.attempts| == |s.db.attempts|
      && (s.db.attempts[id].status == Reserved ==>
            (e.db.attempts[id].status != Reserved <==> exists t :: 0 <= t < |e.txs| && Leases(e.txs[t], id)))
      && (!Over(s.db.attempts[id]) ==>
            (Over(e.db.attempts[id]) <==> exists t :: 0 <= t < |e.txs| && Returns(e.txs[t], id)))
      && (forall t, u | 0 <= t < |e.txs| && 0 <= u < |e.txs| && Leases(e.txs[t], id) && Leases(e.txs[u], id) :: t == u)
      && (forall t, u | 0 <= t < |e.txs| && 0 <= u < |e.txs| && Returns(e.txs[t], id) && Returns(e.txs[u], id) ::
          t == u)
  {
    ReachedHistory(cfg, s, acts);
  }

  /** What a finished transaction's report says about the tables. */
  ghost predicate ReportHolds(cfg: Config, db: Db, tx: Tx) {
    && (tx.program.Settle? && tx.phase.Done? && tx.phase.outcome.Returned? ==>
          && tx.phase.outcome == Returned([tx.program.id]) && tx.program.id < |db.attempts|
          && db.attempts[tx.program.id].owner == Some(tx.program.owner)
          && db.attempts[tx.program.id].status == Succeeded)
    && (tx.program.Recover? && tx.phase.Done? && tx.phase.outcome.Returned? ==>
          forall id <- tx.phase.outcome.ids :: id < |db.attempts| && db.attempts[id].status == Unknown)
    && (tx.program.Lease? && tx.phase.Done? && tx.phase.outcome.Leased? ==>
          && tx.phase.outcome.id < |db.attempts|
          && LeaseWritten(cfg, tx, db.attempts[tx.phase.outcome.id]))
  }

  lemma CreditedReport(cfg: Config, db0: Db, e: State, t: nat)
    requires History(cfg, db0, e) && t < |e.txs|
    ensures ReportHolds(cfg, e.db, e.txs[t])
  {
    var tx := e.txs[t];
    assert Credited(cfg, e.db, tx);
    if tx.phase.Done? && tx.phase.outcome.Returned? {
      assert forall id <- tx.phase.outcome.ids :: Returns(tx, id);
      if tx.program.Settle? { assert Returns(tx, tx.program.id); }
    }
    if tx.phase.Done? && tx.phase.outcome.Leased? { assert Leases(tx, tx.phase.outcome.id); }
  }

  /**
   * Only the owner settles: a settle that reports success named the recorded owner, and a
   * recovery never overwrites a settled row or the other way round.
   */
  lemma WinnerIsRecorded(cfg: Config, s: State, acts: seq<Action>, t: nat)
    requires cfg.Valid() && Init(cfg, s) && IsRun(cfg, s, acts) && t < |After(cfg, s, acts).txs|
    ensures ReportHolds(cfg, After(cfg, s, acts).db, After(cfg, s, acts).txs[t])
  {
    ReachedHistory(cfg, s, acts);
    CreditedReport(cfg, s.db, After(cfg, s, acts), t);
  }

  /** The attempt is in flight under this owner, so that a settle by it still finds its row. */
  predicate Due(db: Db, id: nat, owner: nat) {
    id < |db.attempts| && Settleable(db.attempts[id], owner)
  }

  /** Transaction `t` has ended without a row; the tables and all locks are as they were. */
  ghost predicate NoRowEnd(e: State, e': State, t: nat)
    requires t < |e.txs|
  {
    && e'.db == e.db && e'.locks == e.locks && |e'.txs| == |e.txs|
    && e'.txs[t].phase == Done(NoRow)
    && forall u | 0 <= u < |e.txs| && u != t :: e'.txs[u] == e.txs[u]
  }

  lemma NothingHeld(cfg: Config, e: State, t: nat)
    requires RowLocks.LocksAre(e.locks, Held(cfg, e)) && t < |e.txs| && e.txs[t].phase.Begin?
    ensures RowLocks.Release(e.locks, t) == e.locks
  {
    assert Held(cfg, e)[t] == {};
  }

  /** A settle between its first statement and its commit has its attempt in flight under its owner. */
  lemma UnderWayIsDue(cfg: Config, db: Db, tx: Tx)
    requires TxOk(cfg, db, tx) && Credited(cfg, db, tx) && tx.program.Settle?
    ensures tx.phase.Begin? || tx.phase.Done? || Due(db, tx.program.id, tx.program.owner)
  {
    var id := tx.program.id;
    if tx.phase.Give? {
      assert id in tx.phase.got;
    } else if tx.phase.Commit? {
      assert id in tx.phase.outcome.ids;
    }
  }

  lemma FirstStatementFindsNoRow(cfg: Config, e: State, t: nat)
    requires RowLocks.LocksAre(e.locks, Held(cfg, e)) && t < |e.txs| && e.txs[t].phase.Begin?
    requires e.txs[t].program.Settle? && !Due(e.db, e.txs[t].program.id, e.txs[t].program.owner)
    ensures Enabled(cfg, e, Run(t)) && NoRowEnd(e, Step(cfg, e, Run(t)), t)
  {
    NothingHeld(cfg, e, t);
  }

  /** Transaction `t` is over, or its first statement ends it without a row. */
  ghost predicate EndsWithoutRow(cfg: Config, e: State, t: nat)
    requires t < |e.txs|
  {
    e.txs[t].phase.Done?
    || (e.txs[t].phase.Begin? && Enabled(cfg, e, Run(t)) && NoRowEnd(e, Step(cfg, e, Run(t)), t))
  }

  lemma LateSettle(cfg: Config, db0: Db, e: State, t: nat)
    requires History(cfg, db0, e) && t < |e.txs|
    requires e.txs[t].program.Settle? && !Due(e.db, e.txs[t].program.id, e.txs[t].program.owner)
    ensures EndsWithoutRow(cfg, e, t)
  {
    assert TxOk(cfg, e.db, e.txs[t]) && Credited(cfg, e.db, e.txs[t]);
    UnderWayIsDue(cfg, e.db, e.txs[t]);
    if e.txs[t].phase.Begin? { FirstStatementFindsNoRow(cfg, e, t); }
  }

  /**
   * In every reachable state, a settle whose attempt is not in flight under its owner has
   * either ended or not begun: a second settle, a settle by somebody else, or one that lost
   * to a recovery. It is never blocked; its first statement finds no row, and it ends with
   * nothing written and nothing locked.
   */
  lemma LateSettleChangesNothing(cfg: Config, s: State, acts: seq<Action>, t: nat)
    requires cfg.Valid() && Init(cfg, s) && IsRun(cfg, s, acts) && t < |After(cfg, s, acts).txs|
    requires var e := After(cfg, s, acts);
      e.txs[t].program.Settle? && !Due(e.db, e.txs[t].program.id, e.txs[t].program.owner)
    ensures EndsWithoutRow(cfg, After(cfg, s, acts), t)
  {
    ReachedHistory(cfg, s, acts);
    LateSettle(cfg, s.db, After(cfg, s, acts), t);
  }
}
