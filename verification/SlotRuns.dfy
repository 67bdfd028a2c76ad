/** Any number of concurrent lease calls and runs sharing one slot map. */
module SlotRuns {
  import opened Common
  import opened Slots

  datatype Run = Run(runId: nat, kind: Kind, finished: bool)

  /** `requests` holds the lease requests that have been sent and not answered. */
  datatype State = State(worker: Worker, requests: map<nat, Kind>, runs: seq<Run>)

  datatype Action = Begin(kind: Kind) | Answer(request: nat, reply: LeaseReply) | End(run: nat)

  predicate Enabled(s: State, a: Action) {
    match a
    case Begin(_) => true
    case Answer(n, _) => n in s.requests
    case End(r) => r < |s.runs| && !s.runs[r].finished
  }

  function Step(s: State, a: Action): State
    requires Enabled(s, a)
  {
    match a
    case Begin(kind) =>
      if !MayLease(s.worker, kind) then s
      else var w := Reserve(s.worker, kind); s.(worker := w, requests := s.requests[w.slotSeq := kind])
    case Answer(n, reply) =>
      var kind := s.requests[n];
      State(Answered(s.worker, kind, Reserved(kind, n), reply, |s.runs|), s.requests - {n},
            if reply.Job? then s.runs + [Run(reply.runId, kind, false)] else s.runs)
    case End(r) =>
      s.(worker := RunEnded(s.worker, s.runs[r].runId, s.runs[r].kind, r),
         runs := s.runs[r := s.runs[r].(finished := true)])
  }

  predicate IsRun(s: State, acts: seq<Action>)
    decreases |acts|
  {
    acts == [] || (Enabled(s, acts[0]) && IsRun(Step(s, acts[0]), acts[1..]))
  }

  function After(s: State, acts: seq<Action>): State
    requires IsRun(s, acts)
    decreases |acts|
  {
    if acts == [] then s else After(Step(s, acts[0]), acts[1..])
  }

  function Start(config: Config): State {
    State(Worker(config, map[], 0), map[], [])
  }

  // ------------------------------------------------------------------
  // Invariant
  // ------------------------------------------------------------------

  /** Reservations are exactly the unanswered requests. */
  ghost predicate PendingMatch(s: State) {
    && (forall k | k in s.worker.slots :: s.worker.slots[k].Pending? <==> k.Reserved?)
    && (forall k | k in s.worker.slots && k.Reserved? ::
          k.seqNo in s.requests && s.requests[k.seqNo] == k.kind == s.worker.slots[k].kind)
    && (forall n | n in s.requests :: Reserved(s.requests[n], n) in s.worker.slots && n <= s.worker.slotSeq)
  }

  /** A run's entry stands under its own id, and only while the run lasts. */
  ghost predicate EntriesLive(s: State) {
    forall k | k in s.worker.slots && k.RunId? ::
      && s.worker.slots[k].Active? && s.worker.slots[k].run < |s.runs|
      && !s.runs[s.worker.slots[k].run].finished
      && s.runs[s.worker.slots[k].run].runId == k.id
      && s.runs[s.worker.slots[k].run].kind == s.worker.slots[k].kind
  }

  ghost predicate WithinBudget(w: Worker) {
    forall kind :: OfKind(w.slots, kind) == {} || |OfKind(w.slots, kind)| <= Budget(w.config, kind)
  }

  ghost predicate Inv(s: State) {
    PendingMatch(s) && EntriesLive(s) && WithinBudget(s.worker)
  }

  lemma EntryAdded(slots: map<Key, Slot>, key: Key, slot: Slot, k: Kind)
    ensures OfKind(slots[key := slot], k) == OfKind(slots, k) - {key} + if slot.kind == k then {key} else {}
  {
  }

  lemma EntryRemoved(slots: map<Key, Slot>, key: Key, k: Kind)
    ensures OfKind(slots - {key}, k) == OfKind(slots, k) - {key}
  {
  }

  lemma BeginKeepsBudget(w: Worker, kind: Kind)
    requires WithinBudget(w) && MayLease(w, kind)
    ensures WithinBudget(Reserve(w, kind))
  {
    forall k {
      EntryAdded(w.slots, Reserved(kind, w.slotSeq + 1), Pending(kind), k);
    }
  }

  lemma BeginKeeps(s: State, kind: Kind)
    requires Inv(s)
    ensures Inv(Step(s, Begin(kind)))
  {
    if MayLease(s.worker, kind) {
      BeginKeepsBudget(s.worker, kind);
    }
  }

  /** One entry of a kind may be put in place of another of that kind. */
  lemma ReplaceEntry(slots: map<Key, Slot>, key: Key, key': Key, kind: Kind, run: nat, k: Kind)
    requires key in slots && slots[key].kind == kind
    ensures |OfKind(slots - {key}, k)| <= |OfKind(slots, k)|
    ensures |OfKind((slots - {key})[key' := Active(kind, run)], k)| <= |OfKind(slots, k)|
  {
    var before := OfKind(slots, k);
    EntryRemoved(slots, key, k);
    EntryAdded(slots - {key}, key', Active(kind, run), k);
    assert key in before <==> k == kind;
    assert |before - {key} - {key'}| <= |before - {key}|;
  }

  lemma AnswerKeepsBudget(s: State, n: nat, reply: LeaseReply)
    requires Inv(s) && n in s.requests
    ensures WithinBudget(Step(s, Answer(n, reply)).worker)
  {
    var kind := s.requests[n];
    var key := Reserved(kind, n);
    forall k ensures |OfKind(Answered(s.worker, kind, key, reply, |s.runs|).slots, k)| <= |OfKind(s.worker.slots, k)| {
      ReplaceEntry(s.worker.slots, key, if reply.Job? then RunId(reply.runId) else key, kind, |s.runs|, k);
    }
  }

  lemma AnswerKeeps(s: State, n: nat, reply: LeaseReply)
    requires Inv(s) && n in s.requests
    ensures Inv(Step(s, Answer(n, reply)))
  {
    AnswerKeepsBudget(s, n, reply);
  }

  lemma EndKeeps(s: State, r: nat)
    requires Inv(s) && Enabled(s, End(r))
    ensures Inv(Step(s, End(r)))
  {
    var w := s.worker;
    var key := RunId(s.runs[r].runId);
    var w' := RunEnded(w, s.runs[r].runId, s.runs[r].kind, r);
    forall k {
      EntryRemoved(w.slots, key, k);
    }
    forall k | k in w'.slots && k.RunId? ensures w'.slots[k].Active? && w'.slots[k].run != r {
      assert k in w.slots && w.slots[k].Active?;
    }
  }

  lemma StepKeeps(s: State, a: Action)
    requires Inv(s) && Enabled(s, a)
    ensures Inv(Step(s, a))
  {
    match a
    case Begin(kind) => BeginKeeps(s, kind);
    case Answer(n, reply) => AnswerKeeps(s, n, reply);
    case End(r) => EndKeeps(s, r);
  }

  /** The steward budget is only ever raised, the assistant budget is fixed. */
  ghost predicate BudgetGrows(c: Config, c': Config) {
    c'.stewardMaxConcurrentCalls >= c.stewardMaxConcurrentCalls && c'.maxConcurrentRuns == c.maxConcurrentRuns
        && c'.role == c.role
  }

  lemma {:induction false} RunKeeps(s: State, acts: seq<Action>)
    requires Inv(s) && IsRun(s, acts)
    ensures Inv(After(s, acts)) && BudgetGrows(s.worker.config, After(s, acts).worker.config)
    decreases |acts|
  {
    if acts != [] {
      StepKeeps(s, acts[0]);
      assert BudgetGrows(s.worker.config, Step(s, acts[0]).worker.config);
      RunKeeps(Step(s, acts[0]), acts[1..]);
    }
  }

  // ------------------------------------------------------------------
  // Main results
  // ------------------------------------------------------------------

  /**
   * Over every interleaving: the entries of a kind never exceed that kind's budget,
   * reservations are exactly the unanswered requests, no finished run keeps an entry, and
   * the steward budget has not gone down.
   */
  lemma SlotsStayWithinBudget(config: Config, acts: seq<Action>, kind: Kind)
    requires IsRun(Start(config), acts)
    ensures var e := After(Start(config), acts);
      && (OfKind(e.worker.slots, kind) == {} || |OfKind(e.worker.slots, kind)| <= Budget(e.worker.config, kind))
      && (forall k, n :: Reserved(k, n) in e.worker.slots <==> n in e.requests && e.requests[n] == k)
      && (forall k | k in e.worker.slots && e.worker.slots[k].Active? ::
            e.worker.slots[k].run < |e.runs| && !e.runs[e.worker.slots[k].run].finished)
      && BudgetGrows(config, e.worker.config)
  {
    RunKeeps(Start(config), acts);
    var e := After(Start(config), acts);
    assert PendingMatch(e) && EntriesLive(e);
    assert forall k | k in e.worker.slots && e.worker.slots[k].Active? :: k.RunId?;
  }

  /** The limit heard in one step. */
  function LimitHeard(s: State, a: Action): (r: seq<int>)
    requires Enabled(s, a)
    ensures |r| <= 1
  {
    if a.Answer? && s.requests[a.request] == Steward && a.reply.Job? && a.reply.maxConcurrent.Some?
    then [a.reply.maxConcurrent.value] else []
  }

  /** The concurrency limits that the server has sent with steward leases, in order. */
  function LimitsHeard(s: State, acts: seq<Action>): seq<int>
    requires IsRun(s, acts)
    decreases |acts|
  {
    if acts == [] then [] else LimitHeard(s, acts[0]) + LimitsHeard(Step(s, acts[0]), acts[1..])
  }

  function Highest(own: int, heard: seq<int>): int
    decreases |heard|
  {
    if heard == [] then own else Highest(if heard[0] > own then heard[0] else own, heard[1..])
  }

  lemma HighestConcat(own: int, first: seq<int>, rest: seq<int>)
    requires |first| <= 1
    ensures Highest(own, first + rest) == Highest(Highest(own, first), rest)
  {
    if first == [] {
      assert first + rest == rest;
    } else {
      assert (first + rest)[1..] == rest && first[1..] == [];
    }
  }

  /** The steward budget is always the highest of its configured value and every limit heard. */
  lemma {:induction false} StewardBudgetIsHighest(s: State, acts: seq<Action>)
    requires IsRun(s, acts)
    ensures After(s, acts).worker.config.stewardMaxConcurrentCalls
         == Highest(s.worker.config.stewardMaxConcurrentCalls, LimitsHeard(s, acts))
    decreases |acts|
  {
    if acts != [] {
      StewardBudgetIsHighest(Step(s, acts[0]), acts[1..]);
      HighestConcat(s.worker.config.stewardMaxConcurrentCalls, LimitHeard(s, acts[0]),
          LimitsHeard(Step(s, acts[0]), acts[1..]));
    }
  }

  /** Every executing run holds its own entry. */
  ghost predicate Tracked(s: State) {
    forall r | 0 <= r < |s.runs| && !s.runs[r].finished ::
      RunId(s.runs[r].runId) in s.worker.slots && s.worker.slots[RunId(s.runs[r].runId)] == Active(s.runs[r].kind, r)
  }

  /** A lease brings an id that no executing run has. */
  ghost predicate FreshId(s: State, a: Action) {
    a.Answer? && a.reply.Job? ==> forall r | 0 <= r < |s.runs| && !s.runs[r].finished ::
        s.runs[r].runId != a.reply.runId
  }

  lemma TrackedIffFreshId(s: State, a: Action)
    requires Inv(s) && Tracked(s) && Enabled(s, a)
    ensures Tracked(Step(s, a)) <==> FreshId(s, a)
  {
    var s' := Step(s, a);
    if !FreshId(s, a) {
      var r :| 0 <= r < |s.runs| && !s.runs[r].finished && s.runs[r].runId == a.reply.runId;
      assert s'.runs[r] == s.runs[r];
      assert s'.worker.slots[RunId(s.runs[r].runId)].run == |s.runs|;
    }
  }

  ghost predicate AlwaysTracked(s: State, acts: seq<Action>)
    requires IsRun(s, acts)
    decreases |acts|
  {
    Tracked(s) && (acts == [] || AlwaysTracked(Step(s, acts[0]), acts[1..]))
  }

  ghost predicate AlwaysFresh(s: State, acts: seq<Action>)
    requires IsRun(s, acts)
    decreases |acts|
  {
    acts == [] || (FreshId(s, acts[0]) && AlwaysFresh(Step(s, acts[0]), acts[1..]))
  }

  /** Executing runs and slots agree throughout exactly when no lease repeats the id of an executing run. */
  lemma {:induction false} TrackedIffFreshIds(s: State, acts: seq<Action>)
    requires Inv(s) && Tracked(s) && IsRun(s, acts)
    ensures AlwaysTracked(s, acts) <==> AlwaysFresh(s, acts)
    decreases |acts|
  {
    if acts != [] {
      StepKeeps(s, acts[0]);
      TrackedIffFreshId(s, acts[0]);
      var s' := Step(s, acts[0]);
      if Tracked(s') {
        TrackedIffFreshIds(s', acts[1..]);
      } else {
        assert !AlwaysTracked(s', acts[1..]);
      }
    }
  }

  function Executing(s: State, kind: Kind): set<nat> {
    set r: nat | r < |s.runs| && !s.runs[r].finished && s.runs[r].kind == kind
  }

  function Outstanding(s: State, kind: Kind): set<nat> {
    set n | n in s.requests && s.requests[n] == kind
  }

  lemma {:induction false} InjectionSize(items: set<nat>, f: nat -> Key, keys: set<Key>)
    requires forall i | i in items :: f(i) in keys
    requires forall i, j | i in items && j in items && f(i) == f(j) :: i == j
    ensures |items| <= |keys|
  {
    if items != {} {
      var i :| i in items;
      InjectionSize(items - {i}, f, keys - {f(i)});
    }
  }

  function Reservations(entries: set<Key>): set<Key> {
    set k | k in entries && k.Reserved?
  }

  lemma RunsHaveEntries(s: State, kind: Kind)
    requires Inv(s) && Tracked(s)
    ensures var entries := OfKind(s.worker.slots, kind); |Executing(s, kind)| <= |entries - Reservations(entries)|
  {
    var entries := OfKind(s.worker.slots, kind);
    var runKey := (r: nat) => if r < |s.runs| then RunId(s.runs[r].runId) else RunId(0);
    forall i, j | i in Executing(s, kind) && j in Executing(s, kind) && runKey(i) == runKey(j) ensures i == j {
      assert s.worker.slots[runKey(i)] == Active(kind, i) && s.worker.slots[runKey(j)] == Active(kind, j);
    }
    InjectionSize(Executing(s, kind), runKey, entries - Reservations(entries));
  }

  lemma RequestsHaveEntries(s: State, kind: Kind)
    requires Inv(s)
    ensures |Outstanding(s, kind)| <= |Reservations(OfKind(s.worker.slots, kind))|
  {
    InjectionSize(Outstanding(s, kind), (n: nat) => Reserved(kind, n), Reservations(OfKind(s.worker.slots, kind)));
  }

  /** With every run tracked, executing runs and unanswered requests together fit the budget. */
  lemma ExecutingFitBudget(s: State, kind: Kind)
    requires Inv(s) && Tracked(s)
    ensures var n := |Executing(s, kind)| + |Outstanding(s, kind)|; n == 0 || n <= Budget(s.worker.config, kind)
  {
    var entries := OfKind(s.worker.slots, kind);
    RunsHaveEntries(s, kind);
    RequestsHaveEntries(s, kind);
    assert |entries| == |entries - Reservations(entries)| + |Reservations(entries)| by {
      assert entries == (entries - Reservations(entries)) + Reservations(entries);
    }
  }

  /** Executing runs fit the budget in every state of a run whose leases never repeat an executing id. */
  lemma {:induction false} FreshIdsFitBudget(s: State, acts: seq<Action>, kind: Kind)
    requires Inv(s) && Tracked(s) && IsRun(s, acts) && AlwaysFresh(s, acts)
    ensures var e := After(s, acts); var n := |Executing(e, kind)|; n == 0 || n <= Budget(e.worker.config, kind)
    decreases |acts|
  {
    if acts == [] {
      ExecutingFitBudget(s, kind);
    } else {
      StepKeeps(s, acts[0]);
      TrackedIffFreshId(s, acts[0]);
      FreshIdsFitBudget(Step(s, acts[0]), acts[1..], kind);
    }
  }

  // ------------------------------------------------------------------
  // Roles
  // ------------------------------------------------------------------

  /** What a role keeps out. */
  ghost predicate RoleKept(s: State) {
    && (s.worker.config.role == AssistantOnly ==>
          (forall r <- s.runs :: r.kind == Assistant) && forall n | n in s.requests :: s.requests[n] == Assistant)
    && (s.worker.config.role == StewardOnly ==>
          (forall r <- s.runs :: r.kind == Steward) && forall n | n in s.requests :: s.requests[n] == Steward)
  }

  lemma {:induction false} RunKeepsRole(s: State, acts: seq<Action>)
    requires RoleKept(s) && IsRun(s, acts)
    ensures RoleKept(After(s, acts)) && After(s, acts).worker.config.role == s.worker.config.role
    decreases |acts|
  {
    if acts != [] { RunKeepsRole(Step(s, acts[0]), acts[1..]); }
  }

  /** A sidecar of one role never requests or runs anything of the other kind; one of both roles can lease either. */
  lemma RolesAreKept(config: Config, acts: seq<Action>)
    requires IsRun(Start(config), acts)
    ensures RoleKept(After(Start(config), acts))
    ensures config.role == Both && Budget(config, Assistant) > 0 ==> MayLease(Start(config).worker, Assistant)
    ensures config.role == Both && Budget(config, Steward) > 0 ==> MayLease(Start(config).worker, Steward)
  {
    RunKeepsRole(Start(config), acts);
    forall kind ensures OfKind(Start(config).worker.slots, kind) == {} {
    }
  }

  // ------------------------------------------------------------------
  // Exactly which configurations can be overrun
  // ------------------------------------------------------------------

  /** More runs of the kind execute than its budget allows. */
  ghost predicate Overruns(s: State, kind: Kind) {
    var n := |Executing(s, kind)|; n > 0 && n > Budget(s.worker.config, kind)
  }

  ghost predicate CanOverrun(config: Config, kind: Kind) {
    exists acts :: IsRun(Start(config), acts) && Overruns(After(Start(config), acts), kind)
  }

  /**
   * The kind has a slot to start with, and a second run can come under the first one's id: a
   * steward's budget can be raised by the server, an assistant needs a second slot of either kind.
   */
  predicate MayOverrun(config: Config, kind: Kind) {
    && EnabledKind(config.role, kind) && Budget(config, kind) >= 1
    && (kind == Assistant ==> Budget(config, Assistant) >= 2 || (config.role.Both? && Budget(config, Steward) >= 1))
  }

  lemma RoomByTotal(w: Worker, kind: Kind)
    requires EnabledKind(w.config.role, kind) && |w.slots| < Budget(w.config, kind)
    ensures MayLease(w, kind)
  {
    assert OfKind(w.slots, kind) <= w.slots.Keys;
    SubsetSize(OfKind(w.slots, kind), w.slots.Keys);
  }

  lemma SubsetSize<T>(a: set<T>, b: set<T>)
    requires a <= b
    ensures |a| <= |b|
  {
    assert b == a + (b - a);
  }

  /** After a lease with an id, begun and answered in a state with room; the server allows two steward calls. */
  function Leased(s: State, kind: Kind, id: nat): State {
    var config := if AdoptsServerConcurrency(kind) then Adopted(s.worker.config, Some(2)) else s.worker.config;
    State(Worker(config, s.worker.slots[RunId(id) := Active(kind, |s.runs|)], s.worker.slotSeq + 1),
          s.requests, s.runs + [Run(id, kind, false)])
  }

  lemma LeaseSteps(s: State, kind: Kind, id: nat) returns (acts: seq<Action>)
    requires Inv(s) && MayLease(s.worker, kind)
    ensures IsRun(s, acts) && After(s, acts) == Leased(s, kind, id) && Inv(Leased(s, kind, id))
  {
    var n := s.worker.slotSeq + 1;
    var s1 := Step(s, Begin(kind));
    var answer := Answer(n, Job(id, Some(2)));
    assert n !in s.requests && Reserved(kind, n) !in s.worker.slots;
    assert s1.requests - {n} == s.requests;
    assert s1.worker.slots - {Reserved(kind, n)} == s.worker.slots;
    LastStep(s1, answer);
    FirstStep(s, Begin(kind), [answer]);
    acts := [Begin(kind)] + [answer];
    RunKeeps(s, acts);
  }

  lemma {:induction false} RunConcat(s: State, a: seq<Action>, b: seq<Action>)
    requires IsRun(s, a) && IsRun(After(s, a), b)
    ensures IsRun(s, a + b) && After(s, a + b) == After(After(s, a), b)
    decreases |a|
  {
    if a == [] {
      assert a + b == b;
    } else {
      assert (a + b)[1..] == a[1..] + b;
      RunConcat(Step(s, a[0]), a[1..], b);
    }
  }

  /** `n` executing runs share one id, and so one entry. */
  ghost predicate Piled(config: Config, s: State, kind: Kind, n: nat) {
    && Inv(s) && s.worker.slots.Keys <= {RunId(7)} && |s.runs| == n
    && (forall r | 0 <= r < n :: s.runs[r] == Run(7, kind, false))
    && s.worker.config == (if n > 0 && kind == Steward then Adopted(config, Some(2)) else config)
    && (n == 0 ==> s.worker.slots == map[])
  }

  lemma OneMorePiled(config: Config, s: State, kind: Kind, n: nat) returns (acts: seq<Action>)
    requires Piled(config, s, kind, n) && EnabledKind(config.role, kind) && Budget(config, kind) >= 1
    requires kind == Assistant ==> Budget(config, kind) >= 2
    ensures IsRun(s, acts) && Piled(config, After(s, acts), kind, n + 1)
  {
    SubsetSize(s.worker.slots.Keys, {RunId(7)});
    RoomByTotal(s.worker, kind);
    acts := LeaseSteps(s, kind, 7);
  }

  lemma {:induction false} PiledByAny(config: Config, kind: Kind, n: nat) returns (acts: seq<Action>)
    requires EnabledKind(config.role, kind) && Budget(config, kind) >= 1
    requires kind == Assistant ==> Budget(config, kind) >= 2
    ensures IsRun(Start(config), acts) && Piled(config, After(Start(config), acts), kind, n)
  {
    var s := Start(config);
    if n == 0 {
      acts := [];
    } else {
      var before := PiledByAny(config, kind, n - 1);
      var more := OneMorePiled(config, After(s, before), kind, n - 1);
      RunConcat(s, before, more);
      acts := before + more;
    }
  }

  ghost function FirstNumbers(n: nat): (r: set<nat>)
    ensures |r| == n && forall i: nat :: i in r <==> i < n
  {
    if n == 0 then {} else FirstNumbers(n - 1) + {n - 1}
  }

  /**
   * A repeated id hides a run from the count: leasing one id over and over starts any number
   * of assistants on any budget of two or more, and any number of stewards on any budget.
   */
  lemma RepeatedIdOverruns(config: Config, kind: Kind, n: nat) returns (acts: seq<Action>)
    requires EnabledKind(config.role, kind) && Budget(config, kind) >= 1
    requires kind == Assistant ==> Budget(config, kind) >= 2
    ensures IsRun(Start(config), acts)
    ensures var e := After(Start(config), acts);
      && |Executing(e, kind)| == n && Budget(e.worker.config, kind) <= Budget(Adopted(config, Some(2)), kind)
  {
    acts := PiledByAny(config, kind, n);
    var e := After(Start(config), acts);
    assert Executing(e, kind) == FirstNumbers(n);
  }

  /** A kind with no entry has room. */
  lemma RoomWhenNone(w: Worker, kind: Kind)
    requires EnabledKind(w.config.role, kind) && Budget(w.config, kind) >= 1
    requires forall k | k in w.slots :: w.slots[k].kind != kind
    ensures MayLease(w, kind)
  {
    assert OfKind(w.slots, kind) == {};
  }

  lemma ThreeLeases(s0: State, s1: State, s2: State)
    requires Inv(s0) && s0.worker.slots == map[] && s0.worker.config.role.Both?
    requires Budget(s0.worker.config, Assistant) >= 1 && Budget(s0.worker.config, Steward) >= 1
    requires s1 == Leased(s0, Assistant, 7) && s2 == Leased(s1, Steward, 7)
    ensures MayLease(s0.worker, Assistant) && MayLease(s1.worker, Steward) && MayLease(s2.worker, Assistant)
  {
    RoomWhenNone(s0.worker, Assistant);
    RoomWhenNone(s1.worker, Steward);
    RoomWhenNone(s2.worker, Assistant);
  }

  lemma TwoAssistants(s: State, budget: int)
    requires s.worker.config.maxConcurrentRuns == budget <= 1
    requires s.runs == [Run(7, Assistant, false), Run(7, Steward, false), Run(8, Assistant, false)]
    ensures Overruns(s, Assistant)
  {
    assert Executing(s, Assistant) == {0, 2};
  }

  /** A steward's lease under an assistant's id frees the assistant's only slot. */
  lemma OtherKindOverruns(config: Config) returns (acts: seq<Action>)
    requires config.role.Both? && Budget(config, Assistant) == 1 && Budget(config, Steward) >= 1
    ensures IsRun(Start(config), acts) && Overruns(After(Start(config), acts), Assistant)
  {
    var s0 := Start(config);
    var s1 := Leased(s0, Assistant, 7);
    var s2 := Leased(s1, Steward, 7);
    var s3 := Leased(s2, Assistant, 8);
    ThreeLeases(s0, s1, s2);
    var a := LeaseSteps(s0, Assistant, 7);
    var b := LeaseSteps(s1, Steward, 7);
    var c := LeaseSteps(s2, Assistant, 8);
    RunConcat(s0, a, b);
    RunConcat(s0, a + b, c);
    acts := a + b + c;
    TwoAssistants(s3, 1);
  }

  /** No slot, request or run of this kind, and no way to one. */
  ghost predicate NoneOf(s: State, kind: Kind) {
    && !(EnabledKind(s.worker.config.role, kind) && Budget(s.worker.config, kind) >= 1)
    && (forall n | n in s.requests :: s.requests[n] != kind)
    && (forall r | 0 <= r < |s.runs| :: s.runs[r].kind != kind)
  }

  lemma NoneOfStep(s: State, a: Action, kind: Kind)
    requires NoneOf(s, kind) && Enabled(s, a)
    ensures NoneOf(Step(s, a), kind)
  {
  }

  lemma {:induction false} NoneOfRun(s: State, acts: seq<Action>, kind: Kind)
    requires NoneOf(s, kind) && IsRun(s, acts)
    ensures NoneOf(After(s, acts), kind)
    decreases |acts|
  {
    if acts != [] {
      NoneOfStep(s, acts[0], kind);
      NoneOfRun(Step(s, acts[0]), acts[1..], kind);
    }
  }

  /** With one assistant slot in all, an answered request means that nothing executes. */
  lemma OneSlotIsFresh(s: State, a: Action)
    requires Inv(s) && Tracked(s) && Enabled(s, a) && NoneOf(s, Steward) && s.worker.config.maxConcurrentRuns <= 1
    ensures FreshId(s, a)
  {
    if a.Answer? {
      ExecutingFitBudget(s, Assistant);
      assert s.requests[a.request] == Assistant;
      assert a.request in Outstanding(s, Assistant);
      assert Executing(s, Assistant) == {};
      forall r | 0 <= r < |s.runs| ensures s.runs[r].finished {
        assert s.runs[r].kind == Assistant;
        assert r !in Executing(s, Assistant);
      }
    }
  }

  lemma {:induction false} OneSlotFits(s: State, acts: seq<Action>)
    requires Inv(s) && Tracked(s) && IsRun(s, acts) && NoneOf(s, Steward) && s.worker.config.maxConcurrentRuns <= 1
    ensures !Overruns(After(s, acts), Assistant)
    decreases |acts|
  {
    if acts == [] {
      ExecutingFitBudget(s, Assistant);
    } else {
      StepKeeps(s, acts[0]);
      OneSlotIsFresh(s, acts[0]);
      TrackedIffFreshId(s, acts[0]);
      NoneOfStep(s, acts[0], Steward);
      OneSlotFits(Step(s, acts[0]), acts[1..]);
    }
  }

  lemma NoneFits(config: Config, acts: seq<Action>, kind: Kind)
    requires IsRun(Start(config), acts) && NoneOf(Start(config), kind)
    ensures !Overruns(After(Start(config), acts), kind)
  {
    NoneOfRun(Start(config), acts, kind);
    assert Executing(After(Start(config), acts), kind) == {};
  }

  /** For every configuration and kind: some run overruns the kind's budget exactly under `MayOverrun`. */
  lemma OverrunIff(config: Config, kind: Kind)
    ensures CanOverrun(config, kind) <==> MayOverrun(config, kind)
  {
    if MayOverrun(config, kind) {
      if kind == Assistant && Budget(config, kind) == 1 {
        var acts := OtherKindOverruns(config);
      } else {
        var n := Budget(Adopted(config, Some(2)), kind) + 1;
        var acts := RepeatedIdOverruns(config, kind, n);
        assert Overruns(After(Start(config), acts), kind);
      }
    } else {
      forall acts | IsRun(Start(config), acts) ensures !Overruns(After(Start(config), acts), kind) {
        if NoneOf(Start(config), kind) {
          NoneFits(config, acts, kind);
        } else {
          OneSlotFits(Start(config), acts);
        }
      }
    }
  }

  lemma LastStep(s: State, a: Action)
    requires Enabled(s, a)
    ensures IsRun(s, [a]) && After(s, [a]) == Step(s, a)
  {
  }

  lemma FirstStep(s: State, a: Action, rest: seq<Action>)
    requires Enabled(s, a) && IsRun(Step(s, a), rest)
    ensures IsRun(s, [a] + rest) && After(s, [a] + rest) == After(Step(s, a), rest)
  {
    assert ([a] + rest)[1..] == rest;
  }
}
