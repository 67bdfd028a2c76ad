/**
 * Quota and conservation for the transactions of `Capacity`,
 * over every interleaving, duplicate and crash.
 */
module CapacitySafety {
  import opened Common
  import opened Capacity
  import RowLocks

  // ------------------------------------------------------------------
  // The conserved quantity
  // ------------------------------------------------------------------

  predicate Uses(cfg: Config, a: Attempt, c: nat) {
    a.status == InFlight && c in cfg.take(a.tenant)
  }

  /** Number of in-flight attempts that occupy counter `c`. */
  function InUse(cfg: Config, attempts: seq<Attempt>, c: nat): nat {
    if attempts == [] then 0
    else InUse(cfg, attempts[..|attempts| - 1], c) + (if Uses(cfg, attempts[|attempts| - 1], c) then 1 else 0)
  }

  lemma {:induction false} InUseUpdate(cfg: Config, attempts: seq<Attempt>, c: nat, id: nat, a: Attempt)
    requires id < |attempts|
    ensures InUse(cfg, attempts[id := a], c)
         == InUse(cfg, attempts, c) - (if Uses(cfg, attempts[id], c) then 1 else 0) + (if Uses(cfg, a, c) then 1 else 0)
  {
    var n := |attempts| - 1;
    if id == n {
      assert attempts[id := a][..n] == attempts[..n];
    } else {
      assert attempts[id := a][..n] == attempts[..n][id := a];
      InUseUpdate(cfg, attempts[..n], c, id, a);
    }
  }

  function Overlay(attempts: seq<Attempt>, aw: map<nat, Attempt>): (r: seq<Attempt>)
    ensures |r| == |attempts|
  {
    seq(|attempts|, i requires 0 <= i < |attempts| => if i in aw then aw[i] else attempts[i])
  }

  /** Rows `got` are in flight for `tenant` and `aw` takes each of them out of flight. */
  ghost predicate Returning(attempts: seq<Attempt>, aw: map<nat, Attempt>, tenant: nat, got: seq<nat>) {
    && Distinct(got)
    && (forall id <- got :: id < |attempts| && attempts[id].status == InFlight && attempts[id].tenant == tenant)
    && aw.Keys == (set id | id in got)
    && (forall id <- got :: aw[id].tenant == tenant && (aw[id].status == Succeeded || aw[id].status == Unknown))
    && (forall id <- got :: aw[id].owner == attempts[id].owner && aw[id].until == attempts[id].until)
  }

  lemma {:induction false} InUseReturned(cfg: Config, attempts: seq<Attempt>, aw: map<nat, Attempt>,
                                         tenant: nat, got: seq<nat>, c: nat)
    requires Returning(attempts, aw, tenant, got)
    ensures InUse(cfg, Overlay(attempts, aw), c)
         == InUse(cfg, attempts, c) - (if c in cfg.take(tenant) then |got| else 0)
    decreases |got|
  {
    if got == [] {
      assert Overlay(attempts, aw) == attempts;
    } else {
      var n := |got| - 1;
      var id := got[n];
      var less := aw - {id};
      assert id in got && id < |attempts|;
      assert forall x <- got[..n] :: x in got && x != id;
      assert forall x :: x in less.Keys <==> x in got[..n];
      InUseReturned(cfg, attempts, less, tenant, got[..n], c);
      assert Overlay(attempts, aw) == Overlay(attempts, less)[id := aw[id]];
      InUseUpdate(cfg, Overlay(attempts, less), c, id, aw[id]);
    }
  }

  // ------------------------------------------------------------------
  // What every transaction keeps while it runs
  // ------------------------------------------------------------------

  function CounterRows(db: Db, scopes: seq<nat>): set<Row> {
    set c | c in scopes && c in db.counters :: CounterRow(c)
  }

  function AttemptRows(ids: seq<nat>): set<Row> {
    set id | id in ids :: AttemptRow(id)
  }

  /** The rows a transaction holds, read off its phase. */
  function Footprint(cfg: Config, db: Db, tx: Tx): set<Row> {
    match tx.phase
    case Begin => {}
    case LockScope(k) =>
      if tx.program.Lease? && k <= |cfg.take(tx.program.tenant)|
      then CounterRows(db, cfg.take(tx.program.tenant)[..k]) else {}
    case Bump(id) => if tx.program.Lease? then CounterRows(db, cfg.take(tx.program.tenant)) + {AttemptRow(id)} else {}
    case Claim(id) => if tx.program.Lease? then CounterRows(db, cfg.take(tx.program.tenant)) + {AttemptRow(id)} else {}
    case Scan(_, _, got) => AttemptRows(got)
    case Give(tenant, got, i, k) => AttemptRows(got) + GivenRows(cfg, db, tenant, got, i, k)
    case Commit(tenant, outcome) => CommitRows(cfg, db, tenant, outcome)
    case Done(_) => {}
  }

  function GivenRows(cfg: Config, db: Db, tenant: nat, got: seq<nat>, i: nat, k: nat): set<Row> {
    if got == [] then {}
    else if i > 0 then CounterRows(db, cfg.give(tenant))
    else if k <= |cfg.give(tenant)| then CounterRows(db, cfg.give(tenant)[..k])
    else {}
  }

  function CommitRows(cfg: Config, db: Db, tenant: nat, outcome: Outcome): set<Row> {
    match outcome
    case Leased(id) => CounterRows(db, cfg.take(tenant)) + {AttemptRow(id)}
    case Returned(got) => AttemptRows(got) + (if got == [] then {} else CounterRows(db, cfg.give(tenant)))
    case _ => {}
  }

  ghost predicate ScopesTested(cfg: Config, db: Db, scopes: seq<nat>) {
    forall c <- scopes :: cfg.tested(c) ==> c in db.counters && db.counters[c].active < db.counters[c].capacity
  }

  ghost predicate Chosen(cfg: Config, db: Db, tx: Tx, tenant: nat, id: nat) {
    && tx.program.Lease? && tx.program.tenant == tenant
    && ScopesTested(cfg, db, cfg.take(tenant))
    && id < |db.attempts| && db.attempts[id].status == Reserved && db.attempts[id].tenant == tenant
  }

  ghost predicate Bumped(cfg: Config, db: Db, tx: Tx, tenant: nat) {
    && (forall c :: c in tx.cw <==> c in cfg.take(tenant) && c in db.counters)
    && (forall c | c in tx.cw :: tx.cw[c] == db.counters[c].active + 1)
  }

  /** How often counter `c` has been decremented once `i` rows and `k` counters of the next are done. */
  function Given(cfg: Config, tenant: nat, c: nat, i: nat, k: nat): nat {
    if c !in cfg.give(tenant) then 0
    else i + (if k <= |cfg.give(tenant)| && c in cfg.give(tenant)[..k] then 1 else 0)
  }

  ghost predicate Decremented(cfg: Config, db: Db, tx: Tx, tenant: nat, i: nat, k: nat) {
    && (forall c :: c in tx.cw <==> c in db.counters && Given(cfg, tenant, c, i, k) > 0)
    && (forall c | c in tx.cw :: tx.cw[c] == db.counters[c].active - Given(cfg, tenant, c, i, k))
  }

  ghost predicate TxOk(cfg: Config, db: Db, tx: Tx) {
    && ShapeOk(db, tx)
    && match tx.phase
       case Begin => tx.cw == map[] && tx.aw == map[]
       case LockScope(k) =>
         && tx.cw == map[] && tx.aw == map[]
         && k <= |cfg.take(tx.program.tenant)|
         && ScopesTested(cfg, db, cfg.take(tx.program.tenant)[..k])
       case Bump(id) => tx.cw == map[] && tx.aw == map[] && Chosen(cfg, db, tx, tx.program.tenant, id)
       case Claim(id) =>
         tx.aw == map[] && Chosen(cfg, db, tx, tx.program.tenant, id) && Bumped(cfg, db, tx, tx.program.tenant)
       case Scan(k, snap, got) =>
         && tx.cw == map[]
         && Returning(db.attempts, tx.aw, tx.program.tenant, got)
         && k <= |db.attempts| && (forall id <- got :: id < k)
       case Give(tenant, got, i, k) =>
         && Returning(db.attempts, tx.aw, tenant, got)
         && i <= |got| && k <= |cfg.give(tenant)| && (i == |got| ==> k == 0)
         && Decremented(cfg, db, tx, tenant, i, k)
       case Commit(tenant, outcome) =>
         (match outcome
          case Leased(id) =>
            && Chosen(cfg, db, tx, tenant, id) && Bumped(cfg, db, tx, tenant)
            && tx.aw.Keys == {id} && tx.aw[id].status == InFlight && tx.aw[id].tenant == tenant
          case Returned(got) => Returning(db.attempts, tx.aw, tenant, got) && Decremented(cfg, db, tx, tenant, |got|, 0)
          case _ => false)
       case Done(_) => true
  }

  function Held(cfg: Config, s: State): (r: seq<set<Row>>)
    ensures |r| == |s.txs|
  {
    seq(|s.txs|, t requires 0 <= t < |s.txs| => Footprint(cfg, s.db, s.txs[t]))
  }

  /** Conservation: committed `active` is the number of in-flight attempts, for every counter row. */
  ghost predicate Conserved(cfg: Config, db: Db) {
    forall c | c in db.counters :: db.counters[c].active == InUse(cfg, db.attempts, c)
  }

  /** Quota: no tested counter exceeds its capacity. */
  ghost predicate WithinQuota(cfg: Config, db: Db) {
    forall c | c in db.counters && cfg.tested(c) :: db.counters[c].active <= db.counters[c].capacity
  }

  ghost predicate Inv(cfg: Config, s: State) {
    && RowLocks.LocksAre(s.locks, Held(cfg, s))
    && (forall t | 0 <= t < |s.txs| :: TxOk(cfg, s.db, s.txs[t]))
    && Conserved(cfg, s.db)
    && WithinQuota(cfg, s.db)
  }

  ghost predicate Init(cfg: Config, s: State) {
    && s.locks == map[]
    && (forall tx <- s.txs :: tx.phase == Begin && tx.cw == map[] && tx.aw == map[])
    && Conserved(cfg, s.db)
    && WithinQuota(cfg, s.db)
  }

  // ------------------------------------------------------------------
  // Preservation
  // ------------------------------------------------------------------

  /** Databases that agree on the rows a transaction holds. */
  ghost predicate AgreeOn(db: Db, db': Db, rows: set<Row>) {
    && db'.counters.Keys == db.counters.Keys && |db'.attempts| == |db.attempts|
    && (forall c | c in db.counters && CounterRow(c) in rows :: db.counters[c] == db'.counters[c])
    && (forall id: nat | id < |db.attempts| && AttemptRow(id) in rows :: db.attempts[id] == db'.attempts[id])
  }

  lemma AgreeScopes(cfg: Config, db: Db, db': Db, rows: set<Row>, scopes: seq<nat>)
    requires AgreeOn(db, db', rows) && CounterRows(db, scopes) <= rows
    ensures CounterRows(db', scopes) == CounterRows(db, scopes)
    ensures ScopesTested(cfg, db, scopes) ==> ScopesTested(cfg, db', scopes)
    ensures forall c | c in scopes && c in db.counters :: db'.counters[c] == db.counters[c]
  {
    forall c | c in scopes && c in db.counters ensures db'.counters[c] == db.counters[c] {
      assert CounterRow(c) in CounterRows(db, scopes);
    }
  }

  lemma AgreeGot(db: Db, db': Db, rows: set<Row>, aw: map<nat, Attempt>, tenant: nat, got: seq<nat>)
    requires AgreeOn(db, db', rows) && AttemptRows(got) <= rows && Returning(db.attempts, aw, tenant, got)
    ensures Returning(db'.attempts, aw, tenant, got)
  {
    forall id <- got ensures db'.attempts[id] == db.attempts[id] {
      assert AttemptRow(id) in AttemptRows(got);
    }
  }

  lemma AgreeGiven(cfg: Config, db: Db, db': Db, tx: Tx, rows: set<Row>, tenant: nat, got: seq<nat>, i: nat, k: nat)
    requires AgreeOn(db, db', rows) && GivenRows(cfg, db, tenant, got, i, k) <= rows
    requires i <= |got| && k <= |cfg.give(tenant)| && (i == |got| ==> k == 0)
    requires Decremented(cfg, db, tx, tenant, i, k)
    ensures Decremented(cfg, db', tx, tenant, i, k)
    ensures GivenRows(cfg, db', tenant, got, i, k) == GivenRows(cfg, db, tenant, got, i, k)
  {
    var give := cfg.give(tenant);
    var scopes := if got == [] then [] else if i > 0 then give else give[..k];
    assert GivenRows(cfg, db, tenant, got, i, k) == CounterRows(db, scopes);
    AgreeScopes(cfg, db, db', rows, scopes);
    forall c | c in tx.cw ensures db'.counters[c] == db.counters[c] {
      assert c in scopes;
    }
  }

  /** A transaction's invariant only reads rows it holds. */
  lemma TxFrame(cfg: Config, db: Db, db': Db, tx: Tx)
    requires cfg.Valid() && TxOk(cfg, db, tx) && AgreeOn(db, db', Footprint(cfg, db, tx))
    ensures TxOk(cfg, db', tx) && Footprint(cfg, db', tx) == Footprint(cfg, db, tx)
  {
    var rows := Footprint(cfg, db, tx);
    match tx.phase
    case LockScope(k) => AgreeScopes(cfg, db, db', rows, cfg.take(tx.program.tenant)[..k]);
    case Bump(id) => AgreeScopes(cfg, db, db', rows, cfg.take(tx.program.tenant));
    case Claim(id) => AgreeScopes(cfg, db, db', rows, cfg.take(tx.program.tenant));
    case Scan(_, _, got) => AgreeGot(db, db', rows, tx.aw, tx.program.tenant, got);
    case Give(tenant, got, i, k) =>
      AgreeGot(db, db', rows, tx.aw, tenant, got);
      AgreeGiven(cfg, db, db', tx, rows, tenant, got, i, k);
    case Commit(tenant, outcome) =>
      if outcome.Leased? {
        AgreeScopes(cfg, db, db', rows, cfg.take(tenant));
      } else {
        AgreeGot(db, db', rows, tx.aw, tenant, outcome.ids);
        AgreeGiven(cfg, db, db', tx, rows, tenant, outcome.ids, |outcome.ids|, 0);
      }
    case _ =>
  }

  /** What one statement that neither ends nor commits has to establish. */
  ghost predicate GoOk(cfg: Config, s: State, t: nat, tx: Tx, acquire: set<Row>)
    requires t < |s.txs|
  {
    && TxOk(cfg, s.db, tx)
    && Footprint(cfg, s.db, tx) == Footprint(cfg, s.db, s.txs[t]) + acquire
    && (forall r | r in acquire :: !LockedByOther(s, t, r))
  }

  lemma GoBegin(cfg: Config, s: State, t: nat)
    requires cfg.Valid() && Inv(cfg, s) && Enabled(cfg, s, Run(t)) && s.txs[t].phase.Begin?
    requires Next(cfg, s, t).Go?
    ensures GoOk(cfg, s, t, Next(cfg, s, t).tx, Next(cfg, s, t).acquire)
  {
    var tx := s.txs[t];
    if tx.program.Settle? {
      var a := s.db.attempts[tx.program.id];
      assert AttemptRows([tx.program.id]) == {AttemptRow(tx.program.id)};
      assert cfg.TenantValid(a.tenant);
    }
  }

  lemma GoLease(cfg: Config, s: State, t: nat)
    requires cfg.Valid() && Inv(cfg, s) && Enabled(cfg, s, Run(t)) && s.txs[t].phase.LockScope?
    requires Next(cfg, s, t).Go?
    ensures GoOk(cfg, s, t, Next(cfg, s, t).tx, Next(cfg, s, t).acquire)
  {
    var tx := s.txs[t];
    var take := cfg.take(tx.program.tenant);
    var k := tx.phase.k;
    if k < |take| {
      assert take[..k + 1] == take[..k] + [take[k]];
      assert CounterRows(s.db, take[..k + 1])
          == CounterRows(s.db, take[..k]) + (if take[k] in s.db.counters then {CounterRow(take[k])} else {});
    } else {
      assert take[..k] == take;
    }
  }

  /** The end of the scan, or a row that is not the transaction's. */
  lemma ScanOver(cfg: Config, s: State, t: nat)
    requires cfg.Valid() && Inv(cfg, s) && t < |s.txs| && s.txs[t].phase.Scan? && s.txs[t].program.Recover?
    requires s.txs[t].phase.k >= |s.db.attempts|
    ensures GoOk(cfg, s, t, s.txs[t].(phase := Give(s.txs[t].program.tenant, s.txs[t].phase.got, 0, 0)), {})
  {
    assert TxOk(cfg, s.db, s.txs[t]);
    assert cfg.TenantValid(s.txs[t].program.tenant);
    assert forall c :: Given(cfg, s.txs[t].program.tenant, c, 0, 0) == 0;
  }

  /** One more expired row taken out of flight. */
  lemma ReturningNext(attempts: seq<Attempt>, aw: map<nat, Attempt>, tenant: nat, got: seq<nat>, k: nat)
    requires Returning(attempts, aw, tenant, got) && (forall id <- got :: id < k)
    requires k < |attempts| && attempts[k].status == InFlight && attempts[k].tenant == tenant
    ensures Returning(attempts, aw[k := attempts[k].(status := Unknown)], tenant, got + [k])
    ensures AttemptRows(got + [k]) == AttemptRows(got) + {AttemptRow(k)}
    ensures forall id <- got + [k] :: id < k + 1
  {
  }

  lemma ScanTakes(cfg: Config, s: State, t: nat)
    requires cfg.Valid() && Inv(cfg, s) && Enabled(cfg, s, Run(t)) && s.txs[t].phase.Scan?
    requires s.txs[t].phase.k < |s.db.attempts|
    ensures var m := ScanMove(s, t, s.txs[t].phase.k, s.txs[t].phase.snap, s.txs[t].phase.got);
      GoOk(cfg, s, t, m.tx, m.acquire)
  {
    var tx := s.txs[t];
    assert TxOk(cfg, s.db, tx);
    if Recoverable(s.db.attempts[tx.phase.k], tx.program.tenant, tx.at) {
      ReturningNext(s.db.attempts, tx.aw, tx.program.tenant, tx.phase.got, tx.phase.k);
    }
  }

  lemma GoScan(cfg: Config, s: State, t: nat)
    requires cfg.Valid() && Inv(cfg, s) && Enabled(cfg, s, Run(t)) && s.txs[t].phase.Scan?
    requires Next(cfg, s, t).Go?
    ensures GoOk(cfg, s, t, Next(cfg, s, t).tx, Next(cfg, s, t).acquire)
  {
    if s.txs[t].phase.k >= |s.db.attempts| { ScanOver(cfg, s, t); } else { ScanTakes(cfg, s, t); }
  }

  /** Moving the decrement loop on by one counter. */
  lemma GivenNext(cfg: Config, tenant: nat, i: nat, k: nat)
    requires cfg.Valid() && k < |cfg.give(tenant)|
    ensures forall c :: Given(cfg, tenant, c, i, k + 1)
                     == Given(cfg, tenant, c, i, k) + (if c == cfg.give(tenant)[k] then 1 else 0)
  {
    var give := cfg.give(tenant);
    assert cfg.TenantValid(tenant);
    assert give[..k + 1] == give[..k] + [give[k]];
    assert give[k] !in give[..k];
  }

  lemma GivenWrap(cfg: Config, tenant: nat, i: nat)
    ensures forall c :: Given(cfg, tenant, c, i + 1, 0) == Given(cfg, tenant, c, i, |cfg.give(tenant)|)
  {
    assert cfg.give(tenant)[..|cfg.give(tenant)|] == cfg.give(tenant);
  }

  lemma GivenRowsNext(cfg: Config, db: Db, tenant: nat, got: seq<nat>, i: nat, k: nat)
    requires i < |got| && k < |cfg.give(tenant)|
    ensures GivenRows(cfg, db, tenant, got, i, k + 1)
         == GivenRows(cfg, db, tenant, got, i, k)
          + (if cfg.give(tenant)[k] in db.counters then {CounterRow(cfg.give(tenant)[k])} else {})
  {
    var give := cfg.give(tenant);
    assert give[..k + 1] == give[..k] + [give[k]];
  }

  /** One counter row lowered, or skipped because it does not exist. */
  lemma DecrementedNext(cfg: Config, db: Db, tx: Tx, tenant: nat, i: nat, k: nat)
    requires cfg.Valid() && Decremented(cfg, db, tx, tenant, i, k) && k < |cfg.give(tenant)|
    ensures var c := cfg.give(tenant)[k];
      var next := if c in db.counters then tx.(cw := tx.cw[c := Visible(db, tx, c) - 1]) else tx;
      Decremented(cfg, db, next, tenant, i, k + 1)
  {
    GivenNext(cfg, tenant, i, k);
  }

  lemma GiveWrites(cfg: Config, s: State, t: nat)
    requires cfg.Valid() && Inv(cfg, s) && Enabled(cfg, s, Run(t)) && s.txs[t].phase.Give?
    requires s.txs[t].phase.i < |s.txs[t].phase.got|
    ensures TxOk(cfg, s.db, GiveMove(cfg, s, t, s.txs[t].phase.tenant, s.txs[t].phase.got,
                                     s.txs[t].phase.i, s.txs[t].phase.k).tx)
  {
    var tx := s.txs[t];
    var tenant, i, k := tx.phase.tenant, tx.phase.i, tx.phase.k;
    assert TxOk(cfg, s.db, tx);
    if k < |cfg.give(tenant)| { DecrementedNext(cfg, s.db, tx, tenant, i, k); } else { GivenWrap(cfg, tenant, i); }
  }

  lemma GiveLocks(cfg: Config, s: State, t: nat)
    requires Enabled(cfg, s, Run(t)) && s.txs[t].phase.Give? && s.txs[t].phase.i < |s.txs[t].phase.got|
    requires TxOk(cfg, s.db, s.txs[t])
    ensures var m := GiveMove(cfg, s, t, s.txs[t].phase.tenant, s.txs[t].phase.got, s.txs[t].phase.i, s.txs[t].phase.k);
      && Footprint(cfg, s.db, m.tx) == Footprint(cfg, s.db, s.txs[t]) + m.acquire
      && (forall r | r in m.acquire :: !LockedByOther(s, t, r))
  {
    var tenant, got, i, k := s.txs[t].phase.tenant, s.txs[t].phase.got, s.txs[t].phase.i, s.txs[t].phase.k;
    var give := cfg.give(tenant);
    if k < |give| { GivenRowsNext(cfg, s.db, tenant, got, i, k); } else { assert give[..k] == give; }
  }

  lemma GoGive(cfg: Config, s: State, t: nat)
    requires cfg.Valid() && Inv(cfg, s) && Enabled(cfg, s, Run(t)) && s.txs[t].phase.Give?
    requires Next(cfg, s, t).Go?
    ensures GoOk(cfg, s, t, Next(cfg, s, t).tx, Next(cfg, s, t).acquire)
  {
    var tx := s.txs[t];
    var tenant, got, i, k := tx.phase.tenant, tx.phase.got, tx.phase.i, tx.phase.k;
    if i < |got| {
      GiveWrites(cfg, s, t);
      GiveLocks(cfg, s, t);
    }
  }

  lemma GoRest(cfg: Config, s: State, t: nat)
    requires cfg.Valid() && Inv(cfg, s) && Enabled(cfg, s, Run(t))
    requires s.txs[t].phase.Bump? || s.txs[t].phase.Claim?
    ensures Next(cfg, s, t).Go? && GoOk(cfg, s, t, Next(cfg, s, t).tx, Next(cfg, s, t).acquire)
  {
  }

  lemma HeldAfter(cfg: Config, s: State, t: nat, tx: Tx)
    requires t < |s.txs|
    ensures Held(cfg, s.(txs := s.txs[t := tx])) == Held(cfg, s)[t := Footprint(cfg, s.db, tx)]
  {
  }

  lemma LocksAfterGo(cfg: Config, s: State, t: nat, tx: Tx, acquire: set<Row>)
    requires t < |s.txs| && RowLocks.LocksAre(s.locks, Held(cfg, s))
    requires Footprint(cfg, s.db, tx) == Footprint(cfg, s.db, s.txs[t]) + acquire
    requires forall r | r in acquire :: !LockedByOther(s, t, r)
    ensures RowLocks.LocksAre(RowLocks.Grant(s.locks, t, acquire), Held(cfg, s.(txs := s.txs[t := tx])))
  {
    RowLocks.GrantKeeps(s.locks, Held(cfg, s), t, acquire);
    HeldAfter(cfg, s, t, tx);
  }

  lemma FootprintsApart(cfg: Config, s: State, t: nat, u: nat)
    requires RowLocks.LocksAre(s.locks, Held(cfg, s)) && t < |s.txs| && u < |s.txs| && u != t
    ensures Footprint(cfg, s.db, s.txs[u]) !! Footprint(cfg, s.db, s.txs[t])
  {
    forall r | r in Footprint(cfg, s.db, s.txs[u]) ensures r !in Footprint(cfg, s.db, s.txs[t]) {
      assert r in Held(cfg, s)[u] && (r in Held(cfg, s)[t] <==> r in Footprint(cfg, s.db, s.txs[t]));
      assert s.locks[r] == u;
    }
  }

  /** Nothing but the rows of `t` differs. */
  ghost predicate OnlyRowsOf(cfg: Config, s: State, t: nat, db: Db)
    requires t < |s.txs|
  {
    forall rows | rows !! Footprint(cfg, s.db, s.txs[t]) :: AgreeOn(s.db, db, rows)
  }

  lemma OtherUndisturbed(cfg: Config, s: State, t: nat, db: Db, u: nat)
    requires cfg.Valid() && Inv(cfg, s) && t < |s.txs| && u < |s.txs| && u != t && OnlyRowsOf(cfg, s, t, db)
    ensures TxOk(cfg, db, s.txs[u]) && Footprint(cfg, db, s.txs[u]) == Footprint(cfg, s.db, s.txs[u])
  {
    FootprintsApart(cfg, s, t, u);
    TxFrame(cfg, s.db, db, s.txs[u]);
  }

  lemma LocksAfterEnd(cfg: Config, s: State, t: nat, db: Db, outcome: Outcome)
    requires RowLocks.LocksAre(s.locks, Held(cfg, s)) && t < |s.txs|
    requires forall u | 0 <= u < |s.txs| && u != t :: Footprint(cfg, db, s.txs[u]) == Footprint(cfg, s.db, s.txs[u])
    ensures RowLocks.LocksAre(RowLocks.Release(s.locks, t), Held(cfg, End(s.(db := db), t, outcome)))
  {
    RowLocks.ReleaseKeeps(s.locks, Held(cfg, s), t);
    assert Held(cfg, End(s.(db := db), t, outcome)) == Held(cfg, s)[t := {}];
  }

  /** Ending a transaction whose committed effect leaves every other footprint alone. */
  lemma EndKeeps(cfg: Config, s: State, t: nat, db: Db, outcome: Outcome)
    requires cfg.Valid() && Inv(cfg, s) && t < |s.txs| && OnlyRowsOf(cfg, s, t, db)
    ensures RowLocks.LocksAre(RowLocks.Release(s.locks, t), Held(cfg, End(s.(db := db), t, outcome)))
    ensures forall u | 0 <= u < |s.txs| :: TxOk(cfg, db, End(s.(db := db), t, outcome).txs[u])
  {
    forall u | 0 <= u < |s.txs| && u != t
      ensures TxOk(cfg, db, s.txs[u]) && Footprint(cfg, db, s.txs[u]) == Footprint(cfg, s.db, s.txs[u])
    {
      OtherUndisturbed(cfg, s, t, db, u);
    }
    LocksAfterEnd(cfg, s, t, db, outcome);
  }

  /** A committing transaction holds every row it wrote. */
  lemma WritesAreHeld(cfg: Config, db: Db, tx: Tx)
    requires cfg.Valid() && TxOk(cfg, db, tx) && tx.phase.Commit?
    ensures forall c | c in tx.cw :: CounterRow(c) in Footprint(cfg, db, tx)
    ensures forall id | id in tx.aw :: AttemptRow(id) in Footprint(cfg, db, tx)
  {
    var tenant := tx.phase.tenant;
    assert cfg.TenantValid(tenant);
    forall c | c in tx.cw ensures CounterRow(c) in Footprint(cfg, db, tx) {
      assert c in cfg.take(tenant) && c in cfg.give(tenant) && c in db.counters;
      assert CounterRow(c) in CounterRows(db, cfg.take(tenant));
      assert CounterRow(c) in CounterRows(db, cfg.give(tenant));
    }
    forall id | id in tx.aw ensures AttemptRow(id) in Footprint(cfg, db, tx) {
      if tx.phase.outcome.Returned? { assert AttemptRow(id) in AttemptRows(tx.phase.outcome.ids); }
    }
  }

  /** A commit moves each counter by exactly what it moves the in-flight count. */
  lemma PublishCounts(cfg: Config, db: Db, tx: Tx)
    requires cfg.Valid() && TxOk(cfg, db, tx) && tx.phase.Commit?
    requires Conserved(cfg, db) && WithinQuota(cfg, db)
    ensures Conserved(cfg, Applied(db, tx)) && WithinQuota(cfg, Applied(db, tx))
  {
    var tenant := tx.phase.tenant;
    assert cfg.TenantValid(tenant);
    var db' := Applied(db, tx);
    assert db'.attempts == Overlay(db.attempts, tx.aw);
    forall c | c in db'.counters
      ensures db'.counters[c].active == InUse(cfg, db'.attempts, c)
      ensures cfg.tested(c) ==> db'.counters[c].active <= db'.counters[c].capacity
    {
      match tx.phase.outcome
      case Leased(id) =>
        assert db'.attempts == db.attempts[id := tx.aw[id]];
        InUseUpdate(cfg, db.attempts, c, id, tx.aw[id]);
      case Returned(got) =>
        InUseReturned(cfg, db.attempts, tx.aw, tenant, got, c);
        assert Given(cfg, tenant, c, |got|, 0) == if c in cfg.give(tenant) then |got| else 0;
    }
  }

  lemma GoKeeps(cfg: Config, s: State, t: nat)
    requires cfg.Valid() && Inv(cfg, s) && Enabled(cfg, s, Run(t)) && Next(cfg, s, t).Go?
    ensures Inv(cfg, Step(cfg, s, Run(t)))
  {
    match s.txs[t].phase {
      case Begin => GoBegin(cfg, s, t);
      case LockScope(_) => GoLease(cfg, s, t);
      case Scan(_, _, _) => GoScan(cfg, s, t);
      case Give(_, _, _, _) => GoGive(cfg, s, t);
      case _ => GoRest(cfg, s, t);
    }
    LocksAfterGo(cfg, s, t, Next(cfg, s, t).tx, Next(cfg, s, t).acquire);
    assert Held(cfg, Step(cfg, s, Run(t))) == Held(cfg, s.(txs := s.txs[t := Next(cfg, s, t).tx]));
  }

  lemma PublishKeeps(cfg: Config, s: State, t: nat)
    requires cfg.Valid() && Inv(cfg, s) && Enabled(cfg, s, Run(t)) && Next(cfg, s, t).Publish?
    ensures Inv(cfg, Step(cfg, s, Run(t)))
  {
    var db := Applied(s.db, s.txs[t]);
    WritesAreHeld(cfg, s.db, s.txs[t]);
    EndKeeps(cfg, s, t, db, Next(cfg, s, t).outcome);
    PublishCounts(cfg, s.db, s.txs[t]);
  }

  /** Every enabled action keeps the invariant. */
  lemma StepKeeps(cfg: Config, s: State, a: Action)
    requires cfg.Valid() && Inv(cfg, s) && Enabled(cfg, s, a)
    ensures Inv(cfg, Step(cfg, s, a))
  {
    match a
    case Tick =>
    case Crash(t) => EndKeeps(cfg, s, t, s.db, Crashed);
    case Run(t) =>
      match Next(cfg, s, t)
      case Go(_, _) => GoKeeps(cfg, s, t);
      case Finish(outcome) => EndKeeps(cfg, s, t, s.db, outcome);
      case Publish(_) => PublishKeeps(cfg, s, t);
  }

  lemma InitHolds(cfg: Config, s: State)
    requires Init(cfg, s)
    ensures Inv(cfg, s)
  {
  }

  /** Every enabled action keeps the invariant, so every schedule does. */
  lemma {:induction false} RunKeeps(cfg: Config, s: State, acts: seq<Action>)
    requires cfg.Valid() && Inv(cfg, s) && IsRun(cfg, s, acts)
    ensures Inv(cfg, After(cfg, s, acts))
    decreases |acts|
  {
    if acts != [] {
      StepKeeps(cfg, s, acts[0]);
      RunKeeps(cfg, Step(cfg, s, acts[0]), acts[1..]);
    }
  }

  /**
   * Over every interleaving of any number of leases, settles, recoveries, duplicates and
   * crashes, committed `active` is the number of in-flight attempts, and no tested counter
   * passes its capacity.
   */
  lemma QuotaAndConservation(cfg: Config, s: State, acts: seq<Action>, c: nat)
    requires cfg.Valid() && Init(cfg, s) && IsRun(cfg, s, acts) && c in s.db.counters
    ensures c in After(cfg, s, acts).db.counters
    ensures After(cfg, s, acts).db.counters[c].active == InUse(cfg, After(cfg, s, acts).db.attempts, c)
    ensures After(cfg, s, acts).db.counters[c].capacity == s.db.counters[c].capacity
    ensures cfg.tested(c) ==> InUse(cfg, After(cfg, s, acts).db.attempts, c) <= s.db.counters[c].capacity
  {
    InitHolds(cfg, s);
    RunKeeps(cfg, s, acts);
    ScopesFixed(cfg, s, acts, c);
  }

  lemma {:induction false} ScopesFixed(cfg: Config, s: State, acts: seq<Action>, c: nat)
    requires IsRun(cfg, s, acts) && c in s.db.counters
    ensures c in After(cfg, s, acts).db.counters
    ensures After(cfg, s, acts).db.counters[c].capacity == s.db.counters[c].capacity
    decreases |acts|
  {
    if acts != [] { ScopesFixed(cfg, Step(cfg, s, acts[0]), acts[1..], c); }
  }

  /**
   * The `active > 0` guard and the CHECK constraint never bite: whenever a return reaches a
   * counter, that counter is still positive.
   */
  lemma ReturnFindsPositive(cfg: Config, s: State, t: nat)
    requires cfg.Valid() && Inv(cfg, s) && t < |s.txs| && s.txs[t].phase.Give?
    requires s.txs[t].phase.i < |s.txs[t].phase.got| && s.txs[t].phase.k < |cfg.give(s.txs[t].phase.tenant)|
    requires cfg.give(s.txs[t].phase.tenant)[s.txs[t].phase.k] in s.db.counters
    ensures Visible(s.db, s.txs[t], cfg.give(s.txs[t].phase.tenant)[s.txs[t].phase.k]) > 0
  {
    var tx := s.txs[t];
    var tenant, got, i, k := tx.phase.tenant, tx.phase.got, tx.phase.i, tx.phase.k;
    var c := cfg.give(tenant)[k];
    assert cfg.TenantValid(tenant);
    assert c !in cfg.give(tenant)[..k];
    InUseReturned(cfg, s.db.attempts, tx.aw, tenant, got, c);
    assert Given(cfg, tenant, c, i, k) == i;
  }
}
