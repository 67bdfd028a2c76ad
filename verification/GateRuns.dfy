/** Any number of calls using one gate, interleaved at the granularity of its condition lock. */
module GateRuns {
  import opened Common
  import opened Gate

  datatype Status = Inside | Waiting(ticket: nat) | Finished | RefusedFull | RefusedLate

  /** One call of `slot`; calls are numbered in order of arrival. */
  datatype Call = Call(priority: int, status: Status)

  datatype System = System(gate: GateState, calls: seq<Call>)

  datatype Action = Arrive(priority: int, expired: bool) | Wake(call: nat, expired: bool) | Finish(call: nat)

  function StatusOf(o: Outcome): Status
    requires !o.BadPriority?
  {
    match o
    case Entered => Inside
    case Queued(t) => Waiting(t)
    case QueueFull => RefusedFull
    case TimedOut => RefusedLate
  }

  /** A waiting call's ticket is in the gate, otherwise its wait loop would not be running. */
  predicate Enabled(s: System, a: Action) {
    match a
    case Arrive(_, _) => true
    case Wake(c, _) => c < |s.calls| && s.calls[c].status.Waiting? && s.calls[c].status.ticket in s.gate.tickets
    case Finish(c) => c < |s.calls| && s.calls[c].status.Inside?
  }

  function Step(s: System, a: Action): System
    requires Enabled(s, a)
  {
    match a
    case Arrive(priority, expired) =>
      var (g, o) := Arrival(s.gate, priority, expired);
      if o.BadPriority? then s else System(g, s.calls + [Call(priority, StatusOf(o))])
    case Wake(c, expired) =>
      var (g, o) := Attempt(s.gate, s.calls[c].status.ticket, expired);
      System(g, s.calls[c := s.calls[c].(status := StatusOf(o))])
    case Finish(c) =>
      System(Released(s.gate), s.calls[c := s.calls[c].(status := Finished)])
  }

  predicate IsRun(s: System, acts: seq<Action>)
    decreases |acts|
  {
    acts == [] || (Enabled(s, acts[0]) && IsRun(Step(s, acts[0]), acts[1..]))
  }

  function After(s: System, acts: seq<Action>): System
    requires IsRun(s, acts)
    decreases |acts|
  {
    if acts == [] then s else After(Step(s, acts[0]), acts[1..])
  }

  // ------------------------------------------------------------------
  // Counting calls by status
  // ------------------------------------------------------------------

  datatype Kind = In | Wait | Done | Full | Late

  function KindOf(c: Call): Kind {
    match c.status
    case Inside => In
    case Waiting(_) => Wait
    case Finished => Done
    case RefusedFull => Full
    case RefusedLate => Late
  }

  function Count(calls: seq<Call>, k: Kind): nat {
    if calls == [] then 0
    else Count(calls[..|calls| - 1], k) + One(calls[|calls| - 1], k)
  }

  function One(c: Call, k: Kind): nat {
    if KindOf(c) == k then 1 else 0
  }

  lemma {:induction false} CountUpdate(calls: seq<Call>, i: nat, c: Call, k: Kind)
    requires i < |calls|
    ensures Count(calls[i := c], k) == Count(calls, k) - One(calls[i], k) + One(c, k)
  {
    var n := |calls| - 1;
    if i == n {
      assert calls[i := c][..n] == calls[..n];
    } else {
      assert calls[i := c][..n] == calls[..n][i := c];
      CountUpdate(calls[..n], i, c, k);
    }
  }

  lemma CountAppend(calls: seq<Call>, c: Call, k: Kind)
    ensures Count(calls + [c], k) == Count(calls, k) + One(c, k)
  {
    assert (calls + [c])[..|calls|] == calls;
  }

  /** Every call has exactly one fate. */
  lemma {:induction false} EveryCallCounted(calls: seq<Call>)
    ensures |calls| == Count(calls, In) + Count(calls, Wait) + Count(calls, Done) + Count(calls, Full)
        + Count(calls, Late)
  {
    if calls != [] { EveryCallCounted(calls[..|calls| - 1]); }
  }

  // ------------------------------------------------------------------
  // Invariant
  // ------------------------------------------------------------------

  ghost predicate TicketOf(s: System, i: nat, t: nat)
    requires i < |s.calls|
  {
    s.calls[i].status == Waiting(t)
  }

  /** Every ticket in the gate belongs to a waiting call. */
  ghost predicate TicketsOwned(s: System) {
    forall t | t in s.gate.tickets :: exists i | 0 <= i < |s.calls| :: TicketOf(s, i, t)
  }

  /** A waiting call's ticket is in the gate, with its priority. */
  ghost predicate WaiterKnown(g: GateState, c: Call) {
    c.status.Waiting? ==>
      c.status.ticket in g.tickets && c.status.ticket < g.nextTicket && g.tickets[c.status.ticket] == c.priority
  }

  ghost predicate TicketsGrow(calls: seq<Call>) {
    forall i, j | 0 <= i < j < |calls| && calls[i].status.Waiting? && calls[j].status.Waiting? ::
      calls[i].status.ticket < calls[j].status.ticket
  }

  /** Tickets and waiting calls correspond, and tickets grow with arrival. */
  ghost predicate TicketsMatch(s: System) {
    TicketsOwned(s) && (forall i | 0 <= i < |s.calls| :: WaiterKnown(s.gate, s.calls[i])) && TicketsGrow(s.calls)
  }

  ghost predicate MetricsMatch(g: GateState) {
    && g.metrics.active == g.active <= g.metrics.maxObservedActive <= g.maxConcurrent
    && g.metrics.waitingOnline == |OnlineTickets(g.tickets)|
    && g.metrics.waitingBackground == |OtherTickets(g.tickets)|
  }

  ghost predicate CountsMatch(s: System) {
    && s.gate.active == Count(s.calls, In)
    && |s.gate.tickets| == Count(s.calls, Wait)
    && s.gate.metrics.completed == Count(s.calls, Done)
    && s.gate.metrics.queueFull == Count(s.calls, Full)
    && s.gate.metrics.timeout == Count(s.calls, Late)
  }

  ghost predicate Inv(s: System) {
    TicketsMatch(s) && MetricsMatch(s.gate) && CountsMatch(s)
    && |s.gate.tickets| <= s.gate.maxWaiting
  }

  /** No call has entered ahead of a waiting one that came earlier with as good a priority. */
  ghost predicate NobodyOvertaken(calls: seq<Call>) {
    forall i, j | 0 <= i < j < |calls| && calls[i].status.Waiting? && calls[i].priority <= calls[j].priority ::
      !calls[j].status.Inside? && !calls[j].status.Finished?
  }

  // ------------------------------------------------------------------
  // What one critical section does to the gate
  // ------------------------------------------------------------------

  /** The counters moved by exactly these amounts. */
  ghost predicate Moved(g: GateState, g': GateState, active: int, done: int, full: int, late: int) {
    && g'.maxConcurrent == g.maxConcurrent && g'.maxWaiting == g.maxWaiting
    && g'.active == g.active + active && g'.metrics.completed == g.metrics.completed + done
    && g'.metrics.queueFull == g.metrics.queueFull + full && g'.metrics.timeout == g.metrics.timeout + late
  }

  lemma OneFewer(g: GateState, ticket: nat)
    requires ticket in g.tickets
    ensures |g.tickets - {ticket}| == |g.tickets| - 1
  {
    assert (g.tickets - {ticket}).Keys == g.tickets.Keys - {ticket};
  }

  lemma AttemptEffect(g: GateState, ticket: nat, expired: bool)
    requires ticket in g.tickets && MetricsMatch(g)
    ensures var (g', o) := Attempt(g, ticket, expired);
      && MetricsMatch(g') && g'.nextTicket == g.nextTicket
      && match o
         case Entered => Moved(g, g', 1, 0, 0, 0) && g'.tickets == g.tickets - {ticket} && IsBest(g.tickets, ticket)
         case TimedOut => Moved(g, g', 0, 0, 0, 1) && g'.tickets == g.tickets - {ticket}
         case Queued(t) => g' == g && t == ticket
         case _ => false
  {
  }

  lemma ArrivalEffect(g: GateState, priority: int, expired: bool)
    requires MetricsMatch(g) && |g.tickets| <= g.maxWaiting && g.nextTicket !in g.tickets
    ensures var (g', o) := Arrival(g, priority, expired);
      && MetricsMatch(g') && g'.nextTicket >= g.nextTicket && |g'.tickets| <= g.maxWaiting
      && match o
         case Entered => Moved(g, g', 1, 0, 0, 0) && g'.tickets == g.tickets
                         && forall u | u in g.tickets :: priority < g.tickets[u]
                             || (priority == g.tickets[u] && g.nextTicket < u)
         case TimedOut => Moved(g, g', 0, 0, 0, 1) && g'.tickets == g.tickets
         case QueueFull => Moved(g, g', 0, 0, 1, 0) && g'.tickets == g.tickets
         case Queued(t) => && Moved(g, g', 0, 0, 0, 0) && t == g.nextTicket < g'.nextTicket
                           && g'.tickets == g.tickets[t := priority] && |g'.tickets| == |g.tickets| + 1
         case BadPriority => g' == g
  {
    var joined := WithNewTicket(g, priority);
    assert joined.tickets - {g.nextTicket} == g.tickets;
    AttemptEffect(joined, g.nextTicket, expired);
    assert forall u | u in g.tickets :: u in joined.tickets;
  }

  // ------------------------------------------------------------------
  // Every step keeps the invariant
  // ------------------------------------------------------------------

  lemma FreshTicket(s: System)
    requires TicketsMatch(s)
    ensures forall t | t in s.gate.tickets :: t < s.gate.nextTicket
  {
    forall t | t in s.gate.tickets ensures t < s.gate.nextTicket {
      var i :| 0 <= i < |s.calls| && TicketOf(s, i, t);
    }
  }

  lemma OwnedAfterArrival(s: System, g: GateState, c: Call)
    requires TicketsOwned(s)
    requires forall t | t in g.tickets :: t in s.gate.tickets || c.status == Waiting(t)
    ensures TicketsOwned(System(g, s.calls + [c]))
  {
    var s' := System(g, s.calls + [c]);
    forall t | t in g.tickets ensures exists i | 0 <= i < |s'.calls| :: TicketOf(s', i, t) {
      if t in s.gate.tickets {
        var i :| 0 <= i < |s.calls| && TicketOf(s, i, t);
        assert TicketOf(s', i, t);
      } else {
        assert TicketOf(s', |s.calls|, t);
      }
    }
  }

  lemma GrowsByNewest(g: GateState, calls: seq<Call>, c: Call)
    requires TicketsGrow(calls) && (forall i | 0 <= i < |calls| :: WaiterKnown(g, calls[i]))
    requires c.status.Waiting? ==> c.status.ticket == g.nextTicket
    ensures TicketsGrow(calls + [c])
  {
  }

  lemma KnownAfterArrival(g: GateState, g': GateState, calls: seq<Call>, c: Call)
    requires forall i | 0 <= i < |calls| :: WaiterKnown(g, calls[i])
    requires forall t | t in g.tickets && t < g.nextTicket :: t in g'.tickets && g'.tickets[t] == g.tickets[t]
    requires g'.nextTicket >= g.nextTicket && WaiterKnown(g', c)
    ensures forall i | 0 <= i < |calls + [c]| :: WaiterKnown(g', (calls + [c])[i])
  {
    forall i | 0 <= i < |calls + [c]| ensures WaiterKnown(g', (calls + [c])[i]) {
      if i < |calls| { assert WaiterKnown(g, calls[i]); }
    }
  }

  /** An arriving call that waits has the newest ticket. */
  lemma TicketsAfterArrival(s: System, g: GateState, c: Call)
    requires TicketsMatch(s) && g.nextTicket >= s.gate.nextTicket
    requires c.status.Waiting? ==>
               c.status.ticket == s.gate.nextTicket < g.nextTicket
                   && g.tickets == s.gate.tickets[c.status.ticket := c.priority]
    requires !c.status.Waiting? ==> g.tickets == s.gate.tickets
    ensures TicketsMatch(System(g, s.calls + [c]))
  {
    OwnedAfterArrival(s, g, c);
    GrowsByNewest(s.gate, s.calls, c);
    KnownAfterArrival(s.gate, g, s.calls, c);
  }

  lemma TicketsAfterLeaving(s: System, i: nat, g: GateState, status: Status)
    requires TicketsMatch(s) && g.nextTicket == s.gate.nextTicket && i < |s.calls| && !status.Waiting?
    requires g.tickets == if s.calls[i].status.Waiting? then s.gate.tickets - {s.calls[i].status.ticket}
        else s.gate.tickets
    ensures TicketsMatch(System(g, s.calls[i := s.calls[i].(status := status)]))
  {
    var s' := System(g, s.calls[i := s.calls[i].(status := status)]);
    forall t | t in g.tickets ensures exists j | 0 <= j < |s'.calls| :: TicketOf(s', j, t) {
      var j :| 0 <= j < |s.calls| && TicketOf(s, j, t);
      assert TicketOf(s', j, t);
    }
  }

  lemma ArrivalKeeps(s: System, priority: int, expired: bool)
    requires Inv(s)
    ensures Inv(Step(s, Arrive(priority, expired)))
  {
    FreshTicket(s);
    ArrivalEffect(s.gate, priority, expired);
    var (g, o) := Arrival(s.gate, priority, expired);
    if !o.BadPriority? {
      var c := Call(priority, StatusOf(o));
      TicketsAfterArrival(s, g, c);
      forall k ensures Count(s.calls + [c], k) == Count(s.calls, k) + One(c, k) {
        CountAppend(s.calls, c, k);
      }
    }
  }

  lemma AllCounts(calls: seq<Call>, i: nat, status: Status)
    requires i < |calls|
    ensures var c := calls[i].(status := status);
      forall k :: Count(calls[i := c], k) == Count(calls, k) - One(calls[i], k) + One(c, k)
  {
    forall k {
      CountUpdate(calls, i, calls[i].(status := status), k);
    }
  }

  /** A waiting call leaves the queue, into the slot or with a timeout. */
  lemma LeaveKeepsCounts(s: System, i: nat, g: GateState, status: Status)
    requires CountsMatch(s) && i < |s.calls| && s.calls[i].status.Waiting?
    requires s.calls[i].status.ticket in s.gate.tickets && g.tickets == s.gate.tickets - {s.calls[i].status.ticket}
    requires (status.Inside? && Moved(s.gate, g, 1, 0, 0, 0)) || (status.RefusedLate? && Moved(s.gate, g, 0, 0, 0, 1))
    ensures CountsMatch(System(g, s.calls[i := s.calls[i].(status := status)])) && |g.tickets| <= |s.gate.tickets|
  {
    OneFewer(s.gate, s.calls[i].status.ticket);
    AllCounts(s.calls, i, status);
  }

  lemma WakeKeeps(s: System, i: nat, expired: bool)
    requires Inv(s) && Enabled(s, Wake(i, expired))
    ensures Inv(Step(s, Wake(i, expired)))
  {
    var ticket := s.calls[i].status.ticket;
    AttemptEffect(s.gate, ticket, expired);
    var (g, o) := Attempt(s.gate, ticket, expired);
    if o.Queued? {
      assert s.calls[i := s.calls[i].(status := StatusOf(o))] == s.calls;
    } else {
      TicketsAfterLeaving(s, i, g, StatusOf(o));
      LeaveKeepsCounts(s, i, g, StatusOf(o));
    }
  }

  lemma FinishKeeps(s: System, i: nat)
    requires Inv(s) && Enabled(s, Finish(i))
    ensures Inv(Step(s, Finish(i)))
  {
    TicketsAfterLeaving(s, i, Released(s.gate), Finished);
    AllCounts(s.calls, i, Finished);
  }

  lemma StepKeeps(s: System, a: Action)
    requires Inv(s) && Enabled(s, a)
    ensures Inv(Step(s, a))
  {
    match a
    case Arrive(priority, expired) => ArrivalKeeps(s, priority, expired);
    case Wake(i, expired) => WakeKeeps(s, i, expired);
    case Finish(i) => FinishKeeps(s, i);
  }

  lemma ArrivalOvertakesNobody(s: System, priority: int, expired: bool)
    requires Inv(s) && NobodyOvertaken(s.calls)
    ensures NobodyOvertaken(Step(s, Arrive(priority, expired)).calls)
  {
    FreshTicket(s);
    ArrivalEffect(s.gate, priority, expired);
  }

  lemma WakeOvertakesNobody(s: System, i: nat, expired: bool)
    requires Inv(s) && NobodyOvertaken(s.calls) && Enabled(s, Wake(i, expired))
    ensures NobodyOvertaken(Step(s, Wake(i, expired)).calls)
  {
    AttemptEffect(s.gate, s.calls[i].status.ticket, expired);
    if Attempt(s.gate, s.calls[i].status.ticket, expired).1.Entered? {
      forall j | 0 <= j < i && s.calls[j].status.Waiting? ensures s.calls[j].priority > s.calls[i].priority {
        BestIsFirst(s, i, j);
      }
    }
  }

  /** Nobody who came before the best waiter has as good a priority. */
  lemma BestIsFirst(s: System, i: nat, j: nat)
    requires TicketsMatch(s) && j < i < |s.calls| && s.calls[i].status.Waiting? && s.calls[j].status.Waiting?
    requires IsBest(s.gate.tickets, s.calls[i].status.ticket)
    ensures s.calls[j].priority > s.calls[i].priority
  {
    assert WaiterKnown(s.gate, s.calls[i]) && WaiterKnown(s.gate, s.calls[j]);
    assert Before(s.gate.tickets, s.calls[i].status.ticket, s.calls[j].status.ticket);
  }

  lemma StepOvertakesNobody(s: System, a: Action)
    requires Inv(s) && NobodyOvertaken(s.calls) && Enabled(s, a)
    ensures NobodyOvertaken(Step(s, a).calls)
  {
    match a
    case Arrive(priority, expired) => ArrivalOvertakesNobody(s, priority, expired);
    case Wake(i, expired) => WakeOvertakesNobody(s, i, expired);
    case Finish(_) =>
  }

  lemma LimitsFixed(s: System, a: Action)
    requires Enabled(s, a)
    ensures Step(s, a).gate.maxConcurrent == s.gate.maxConcurrent && Step(s, a).gate.maxWaiting == s.gate.maxWaiting
  {
  }

  lemma {:induction false} RunKeeps(s: System, acts: seq<Action>)
    requires Inv(s) && NobodyOvertaken(s.calls) && IsRun(s, acts)
    ensures Inv(After(s, acts)) && NobodyOvertaken(After(s, acts).calls)
    decreases |acts|
  {
    if acts != [] {
      StepKeeps(s, acts[0]);
      StepOvertakesNobody(s, acts[0]);
      RunKeeps(Step(s, acts[0]), acts[1..]);
    }
  }

  lemma {:induction false} LimitsFixedOverRuns(s: System, acts: seq<Action>)
    requires IsRun(s, acts)
    ensures After(s, acts).gate.maxConcurrent == s.gate.maxConcurrent
        && After(s, acts).gate.maxWaiting == s.gate.maxWaiting
    decreases |acts|
  {
    if acts != [] {
      LimitsFixed(s, acts[0]);
      LimitsFixedOverRuns(Step(s, acts[0]), acts[1..]);
    }
  }

  // ------------------------------------------------------------------
  // Main results
  // ------------------------------------------------------------------

  function Start(maxConcurrent: int, maxWaiting: int): System {
    System(Fresh(maxConcurrent, maxWaiting), [])
  }

  lemma Reachable(maxConcurrent: int, maxWaiting: int, acts: seq<Action>)
    requires maxConcurrent > 0 && maxWaiting >= 0 && IsRun(Start(maxConcurrent, maxWaiting), acts)
    ensures Inv(After(Start(maxConcurrent, maxWaiting), acts))
    ensures NobodyOvertaken(After(Start(maxConcurrent, maxWaiting), acts).calls)
    ensures After(Start(maxConcurrent, maxWaiting), acts).gate.maxConcurrent == maxConcurrent
    ensures After(Start(maxConcurrent, maxWaiting), acts).gate.maxWaiting == maxWaiting
  {
    RunKeeps(Start(maxConcurrent, maxWaiting), acts);
    LimitsFixedOverRuns(Start(maxConcurrent, maxWaiting), acts);
  }

  /**
   * In every reachable state: the active count is the number of calls inside the slot body,
   * and it and its observed maximum stay within the limit; the queue stays within its limit;
   * and every arrival is inside, finished, waiting, refused or timed out.
   */
  lemma SafetyAndAccounting(maxConcurrent: int, maxWaiting: int, acts: seq<Action>)
    requires maxConcurrent > 0 && maxWaiting >= 0 && IsRun(Start(maxConcurrent, maxWaiting), acts)
    ensures var e := After(Start(maxConcurrent, maxWaiting), acts); var m := e.gate.metrics;
      && 0 <= e.gate.active == Count(e.calls, In) <= m.maxObservedActive <= maxConcurrent
      && |e.gate.tickets| == Count(e.calls, Wait) <= maxWaiting
      && |e.calls| == m.active + m.completed + m.waitingOnline + m.waitingBackground + m.queueFull + m.timeout
  {
    Reachable(maxConcurrent, maxWaiting, acts);
    var e := After(Start(maxConcurrent, maxWaiting), acts);
    EveryCallCounted(e.calls);
    TwoKinds(e.gate.tickets);
  }

  lemma TwoKinds(tickets: map<nat, int>)
    ensures |OnlineTickets(tickets)| + |OtherTickets(tickets)| == |tickets|
  {
    assert OnlineTickets(tickets) + OtherTickets(tickets) == tickets.Keys;
  }

  /** Over whole runs nobody overtakes an earlier call of the same or a better priority. */
  lemma NoOvertaking(maxConcurrent: int, maxWaiting: int, acts: seq<Action>, i: nat, j: nat)
    requires maxConcurrent > 0 && maxWaiting >= 0 && IsRun(Start(maxConcurrent, maxWaiting), acts)
    requires i < j < |After(Start(maxConcurrent, maxWaiting), acts).calls|
    ensures var calls := After(Start(maxConcurrent, maxWaiting), acts).calls;
      calls[i].status.Waiting? && calls[i].priority <= calls[j].priority ==>
        !calls[j].status.Inside? && !calls[j].status.Finished?
  {
    Reachable(maxConcurrent, maxWaiting, acts);
  }

  /** The call that a step takes from outside the slot body to inside it. */
  predicate Admits(s: System, a: Action, i: nat)
    requires Enabled(s, a)
  {
    var after := Step(s, a).calls;
    i < |after| && after[i].status.Inside? && (i >= |s.calls| || !s.calls[i].status.Inside?)
  }

  /**
   * No step admits a call, fast path included, while a call of better priority, or of equal
   * priority and earlier arrival, goes on waiting; and no step admits beyond the limit.
   */
  lemma AdmissionInOrder(maxConcurrent: int, maxWaiting: int, acts: seq<Action>, a: Action, i: nat, j: nat)
    requires maxConcurrent > 0 && maxWaiting >= 0 && IsRun(Start(maxConcurrent, maxWaiting), acts)
    requires var s := After(Start(maxConcurrent, maxWaiting), acts);
      Enabled(s, a) && Admits(s, a, i) && j < |Step(s, a).calls| && Step(s, a).calls[j].status.Waiting?
    ensures var s := After(Start(maxConcurrent, maxWaiting), acts);
      s.gate.active < maxConcurrent && GoesBefore(Step(s, a).calls, i, j)
  {
    Reachable(maxConcurrent, maxWaiting, acts);
    AdmitsInOrder(After(Start(maxConcurrent, maxWaiting), acts), a, i, j);
  }

  /** Better priority, or the same and earlier. */
  predicate GoesBefore(calls: seq<Call>, i: nat, j: nat)
    requires i < |calls| && j < |calls|
  {
    calls[i].priority < calls[j].priority || (calls[i].priority == calls[j].priority && i < j)
  }

  lemma AdmitsInOrder(s: System, a: Action, i: nat, j: nat)
    requires Inv(s) && Enabled(s, a) && Admits(s, a, i)
    requires j < |Step(s, a).calls| && Step(s, a).calls[j].status.Waiting?
    ensures s.gate.active < s.gate.maxConcurrent && GoesBefore(Step(s, a).calls, i, j)
  {
    match a
    case Arrive(priority, expired) =>
      FreshTicket(s);
      ArrivalEffect(s.gate, priority, expired);
    case Wake(c, expired) => AttemptEffect(s.gate, s.calls[c].status.ticket, expired);
    case Finish(_) =>
  }

  lemma BestExists(tickets: map<nat, int>) returns (best: nat)
    requires tickets != map[]
    ensures IsBest(tickets, best)
    decreases |tickets|
  {
    var t :| t in tickets;
    var rest := tickets - {t};
    if rest == map[] {
      assert tickets.Keys == {t} + rest.Keys;
      best := t;
    } else {
      OneFewer(Fresh(1, 1).(tickets := tickets), t);
      best := BestExists(rest);
      assert forall u | u in tickets && u != t :: u in rest;
      if Before(tickets, t, best) { best := t; }
    }
  }

  /** Work conserving: with a free slot and a queue, some waiting call enters on its next turn, late or not. */
  lemma FreeSlotAdmitsBest(maxConcurrent: int, maxWaiting: int, acts: seq<Action>) returns (i: nat)
    requires maxConcurrent > 0 && maxWaiting >= 0 && IsRun(Start(maxConcurrent, maxWaiting), acts)
    requires var s := After(Start(maxConcurrent, maxWaiting), acts);
      s.gate.active < maxConcurrent && Count(s.calls, Wait) > 0
    ensures var s := After(Start(maxConcurrent, maxWaiting), acts);
      forall expired :: Enabled(s, Wake(i, expired)) && Admits(s, Wake(i, expired), i)
  {
    Reachable(maxConcurrent, maxWaiting, acts);
    var s := After(Start(maxConcurrent, maxWaiting), acts);
    var best := BestExists(s.gate.tickets);
    i :| 0 <= i < |s.calls| && TicketOf(s, i, best);
  }

  /** Call `i` has left the queue, and if it did not enter, the timeout is counted. */
  ghost predicate LeftQueue(s: System, s': System, i: nat) {
    i < |s'.calls| ==>
      && !s'.calls[i].status.Waiting?
      && (s'.calls[i].status == RefusedLate ==> s'.gate.metrics.timeout == s.gate.metrics.timeout + 1)
  }

  lemma ExpiredArrivalLeaves(s: System, priority: int)
    ensures LeftQueue(s, Step(s, Arrive(priority, true)), |s.calls|)
  {
    ArrivalPlaced(s.gate, priority, true);
    if priority in {ONLINE, BACKGROUND} && Arrival(s.gate, priority, true).1.Queued? {
      AttemptTurns(WithNewTicket(s.gate, priority), s.gate.nextTicket, true);
    }
  }

  lemma ExpiredTurnLeaves(s: System, i: nat)
    requires Enabled(s, Wake(i, true))
    ensures LeftQueue(s, Step(s, Wake(i, true)), i)
  {
    AttemptTurns(s.gate, s.calls[i].status.ticket, true);
  }

  /** A waiting call's ticket is in the gate, so that its turn can come. */
  lemma WaiterHasTurn(s: System, i: nat, expired: bool)
    requires TicketsMatch(s) && i < |s.calls| && s.calls[i].status.Waiting?
    ensures Enabled(s, Wake(i, expired))
  {
    assert WaiterKnown(s.gate, s.calls[i]);
  }

  /**
   * A passed deadline ends the wait: in every reachable state a waiting call can take its turn,
   * and neither a turn nor an arrival after the deadline leaves the call waiting.
   */
  lemma DeadlineEndsWait(maxConcurrent: int, maxWaiting: int, acts: seq<Action>, i: nat, priority: int)
    requires maxConcurrent > 0 && maxWaiting >= 0 && IsRun(Start(maxConcurrent, maxWaiting), acts)
    ensures var s := After(Start(maxConcurrent, maxWaiting), acts);
      && LeftQueue(s, Step(s, Arrive(priority, true)), |s.calls|)
      && (i < |s.calls| && s.calls[i].status.Waiting? ==>
            Enabled(s, Wake(i, true)) && LeftQueue(s, Step(s, Wake(i, true)), i))
  {
    var s := After(Start(maxConcurrent, maxWaiting), acts);
    Reachable(maxConcurrent, maxWaiting, acts);
    ExpiredArrivalLeaves(s, priority);
    if i < |s.calls| && s.calls[i].status.Waiting? {
      WaiterHasTurn(s, i, true);
      ExpiredTurnLeaves(s, i);
    }
  }

  /** The highest number of calls that were inside at once. */
  function Peak(s: System, acts: seq<Action>): int
    requires IsRun(s, acts)
    decreases |acts|
  {
    if acts == [] then s.gate.active
    else
      var later := Peak(Step(s, acts[0]), acts[1..]);
      if s.gate.active > later then s.gate.active else later
  }

  lemma StepObserves(s: System, a: Action)
    requires Enabled(s, a) && s.gate.active <= s.gate.metrics.maxObservedActive
    ensures var g, g' := s.gate, Step(s, a).gate;
      && (g'.active > g.metrics.maxObservedActive ==> g'.metrics.maxObservedActive == g'.active)
      && (g'.active <= g.metrics.maxObservedActive ==>
            g'.metrics.maxObservedActive == g.metrics.maxObservedActive)
  {
  }

  lemma {:induction false} RunObserves(s: System, acts: seq<Action>)
    requires IsRun(s, acts) && s.gate.active <= s.gate.metrics.maxObservedActive
    ensures var m := s.gate.metrics.maxObservedActive; var p := Peak(s, acts);
      After(s, acts).gate.metrics.maxObservedActive == if p > m then p else m
    decreases |acts|
  {
    if acts != [] {
      StepObserves(s, acts[0]);
      RunObserves(Step(s, acts[0]), acts[1..]);
    }
  }

  /** The observed maximum is the highest number of calls inside at any time of the run. */
  lemma ObservedMaximumIsPeak(maxConcurrent: int, maxWaiting: int, acts: seq<Action>)
    requires IsRun(Start(maxConcurrent, maxWaiting), acts)
    ensures After(Start(maxConcurrent, maxWaiting), acts).gate.metrics.maxObservedActive
         == Peak(Start(maxConcurrent, maxWaiting), acts)
  {
    RunObserves(Start(maxConcurrent, maxWaiting), acts);
    PeakAtLeast(Start(maxConcurrent, maxWaiting), acts);
  }

  lemma PeakAtLeast(s: System, acts: seq<Action>)
    requires IsRun(s, acts)
    ensures Peak(s, acts) >= s.gate.active
  {
  }

  /** Some waiting call goes before call `i`. */
  ghost predicate BetterWaits(calls: seq<Call>, i: nat)
    requires i < |calls|
  {
    exists j | 0 <= j < |calls| && calls[j].status.Waiting? ::
      GoesBefore(calls, j, i)
  }

  lemma TimeoutOfWaiter(s: System, i: nat, expired: bool)
    requires Inv(s) && Enabled(s, Wake(i, expired)) && Step(s, Wake(i, expired)).calls[i].status == RefusedLate
    requires s.gate.active < s.gate.maxConcurrent
    ensures BetterWaits(Step(s, Wake(i, expired)).calls, i)
  {
    var t := s.calls[i].status.ticket;
    var u :| u in s.gate.tickets && u != t && !Before(s.gate.tickets, t, u);
    var j :| 0 <= j < |s.calls| && TicketOf(s, j, u);
    assert Step(s, Wake(i, expired)).calls[j] == s.calls[j];
  }

  lemma LateWasNotBest(g: GateState, priority: int, expired: bool)
    requires Arrival(g, priority, expired).1.TimedOut? && g.active < g.maxConcurrent
    ensures !IsBest(WithNewTicket(g, priority).tickets, g.nextTicket)
  {
  }

  lemma TimeoutOnArrival(s: System, priority: int, expired: bool)
    requires Inv(s) && |Step(s, Arrive(priority, expired)).calls| == |s.calls| + 1
    requires Step(s, Arrive(priority, expired)).calls[|s.calls|].status == RefusedLate
        && s.gate.active < s.gate.maxConcurrent
    ensures BetterWaits(Step(s, Arrive(priority, expired)).calls, |s.calls|)
  {
    FreshTicket(s);
    LateWasNotBest(s.gate, priority, expired);
    var g, t := WithNewTicket(s.gate, priority), s.gate.nextTicket;
    var u :| u in g.tickets && u != t && !Before(g.tickets, t, u);
    var j :| 0 <= j < |s.calls| && TicketOf(s, j, u);
    assert Step(s, Arrive(priority, expired)).calls[j] == s.calls[j];
  }

  /**
   * A refusal has a cause: a full queue is refused only at its limit while every slot is busy
   * or somebody waits; a timeout only if every slot is busy or a better call waits.
   */
  lemma RefusalHasCause(maxConcurrent: int, maxWaiting: int, acts: seq<Action>, a: Action, i: nat)
    requires maxConcurrent > 0 && maxWaiting >= 0 && IsRun(Start(maxConcurrent, maxWaiting), acts)
    requires var s := After(Start(maxConcurrent, maxWaiting), acts);
      Enabled(s, a) && !a.Finish? && i == if a.Wake? then a.call else |s.calls|
    ensures var s := After(Start(maxConcurrent, maxWaiting), acts);
      HasCause(s, Step(s, a).calls, i)
  {
    Reachable(maxConcurrent, maxWaiting, acts);
    RefusedForCause(After(Start(maxConcurrent, maxWaiting), acts), a, i);
  }

  /** If call `i` is refused in `calls`, the state before gave a reason. */
  ghost predicate HasCause(s: System, calls: seq<Call>, i: nat) {
    i < |calls| ==>
      && (calls[i].status == RefusedFull ==>
            Count(s.calls, Wait) == s.gate.maxWaiting
            && (s.gate.active == s.gate.maxConcurrent || Count(s.calls, Wait) > 0))
      && (calls[i].status == RefusedLate ==> s.gate.active == s.gate.maxConcurrent || BetterWaits(calls, i))
  }

  lemma RefusedForCause(s: System, a: Action, i: nat)
    requires Inv(s) && Enabled(s, a) && !a.Finish?
    requires i == if a.Wake? then a.call else |s.calls|
    ensures HasCause(s, Step(s, a).calls, i)
  {
    var after := Step(s, a).calls;
    if i < |after| && after[i].status == RefusedLate && s.gate.active < s.gate.maxConcurrent {
      if a.Wake? { TimeoutOfWaiter(s, i, a.expired); } else { TimeoutOnArrival(s, a.priority, a.expired); }
    }
  }
}
