/**
 * The inference gate: bounded concurrency, a bounded queue, two priorities and timeouts.
 * Each method is one stretch of code run under the condition lock.
 */
module Gate {
  import opened Common

  const ONLINE := 0
  const BACKGROUND := 1

  datatype Metrics = Metrics(active: int, waitingOnline: nat, waitingBackground: nat, completed: nat,
                             queueFull: nat, timeout: nat, maxObservedActive: int)

  datatype GateState = GateState(maxConcurrent: int, maxWaiting: int, active: int,
                                 tickets: map<nat, int>, nextTicket: nat, metrics: Metrics)

  datatype Outcome = Entered | Queued(ticket: nat) | QueueFull | TimedOut | BadPriority

  /** Ticket `t` goes before ticket `u`: smaller priority number, then older. */
  predicate Before(tickets: map<nat, int>, t: nat, u: nat)
    requires t in tickets && u in tickets
  {
    tickets[t] < tickets[u] || (tickets[t] == tickets[u] && t < u)
  }

  predicate IsBest(tickets: map<nat, int>, t: nat) {
    t in tickets && forall u | u in tickets && u != t :: Before(tickets, t, u)
  }

  function OnlineTickets(tickets: map<nat, int>): set<nat> {
    set t | t in tickets && tickets[t] == ONLINE
  }

  function OtherTickets(tickets: map<nat, int>): set<nat> {
    set t | t in tickets && tickets[t] != ONLINE
  }

  function Recounted(m: Metrics, tickets: map<nat, int>): Metrics {
    m.(waitingOnline := |OnlineTickets(tickets)|, waitingBackground := |OtherTickets(tickets)|)
  }

  function Admitted(g: GateState): GateState {
    var n := g.active + 1;
    g.(active := n, metrics := g.metrics.(active := n,
         maxObservedActive := if n > g.metrics.maxObservedActive then n else g.metrics.maxObservedActive))
  }

  function Without(g: GateState, ticket: nat): GateState {
    var tickets := g.tickets - {ticket};
    g.(tickets := tickets, metrics := Recounted(g.metrics, tickets))
  }

  /** One turn of the wait loop; `expired` says that the deadline has passed. */
  function Attempt(g: GateState, ticket: nat, expired: bool): (GateState, Outcome)
    requires ticket in g.tickets
  {
    var left := Without(g, ticket);
    if g.active < g.maxConcurrent && IsBest(g.tickets, ticket) then (Admitted(left), Entered)
    else if expired then (left.(metrics := left.metrics.(timeout := left.metrics.timeout + 1)), TimedOut)
    else (g, Queued(ticket))
  }

  function WithNewTicket(g: GateState, priority: int): GateState {
    var tickets := g.tickets[g.nextTicket := priority];
    g.(tickets := tickets, nextTicket := g.nextTicket + 1, metrics := Recounted(g.metrics, tickets))
  }

  /** Arrival, up to the first wait. */
  function Arrival(g: GateState, priority: int, expired: bool): (GateState, Outcome) {
    if priority != ONLINE && priority != BACKGROUND then (g, BadPriority)
    else if g.active < g.maxConcurrent && g.tickets == map[] then (Admitted(g), Entered)
    else if |g.tickets| >= g.maxWaiting then
      (g.(metrics := g.metrics.(queueFull := g.metrics.queueFull + 1)), QueueFull)
    else Attempt(WithNewTicket(g, priority), g.nextTicket, expired)
  }

  function Released(g: GateState): GateState {
    g.(active := g.active - 1,
       metrics := g.metrics.(active := g.active - 1, completed := g.metrics.completed + 1))
  }

  function Fresh(maxConcurrent: int, maxWaiting: int): GateState {
    GateState(maxConcurrent, maxWaiting, 0, map[], 0, Metrics(0, 0, 0, 0, 0, 0, 0))
  }

  lemma OneMore(target: set<nat>, rest: set<nat>, t: nat)
    requires t in rest
    ensures |target - (rest - {t})| == |target - rest| + (if t in target then 1 else 0)
  {
    assert target - (rest - {t}) == (target - rest) + (if t in target then {t} else {});
  }

  /** Calls inside the body, waiting, refused or timed out. */
  function Places(g: GateState): int {
    g.active + |g.tickets| + g.metrics.queueFull + g.metrics.timeout
  }

  /** Of any waiting ticket: a slot is free and everybody else's ticket comes later. */
  ghost predicate MayEnter(g: GateState, ticket: nat)
    requires ticket in g.tickets
  {
    g.active < g.maxConcurrent && forall u | u in g.tickets && u != ticket ::
      g.tickets[ticket] < g.tickets[u] || (g.tickets[ticket] == g.tickets[u] && ticket < u)
  }

  /** What a turn of the wait loop comes to, in each of its three outcomes. */
  ghost predicate Turned(g: GateState, g': GateState, o: Outcome, ticket: nat, expired: bool)
    requires ticket in g.tickets
  {
    && (o.Entered? <==> MayEnter(g, ticket))
    && (o.TimedOut? <==> expired && !MayEnter(g, ticket))
    && (o.Queued? <==> !expired && !MayEnter(g, ticket))
    && (o.Entered? ==> g'.tickets == g.tickets - {ticket} && g'.active == g.active + 1
                       && g'.metrics.timeout == g.metrics.timeout)
    && (o.TimedOut? ==> g'.tickets == g.tickets - {ticket} && g'.active == g.active
                        && g'.metrics.timeout == g.metrics.timeout + 1)
    && (o.Queued? ==> g' == g && o.ticket == ticket)
  }

  lemma AttemptTurns(g: GateState, ticket: nat, expired: bool)
    requires ticket in g.tickets
    ensures Turned(g, Attempt(g, ticket, expired).0, Attempt(g, ticket, expired).1, ticket, expired)
  {
    assert IsBest(g.tickets, ticket) <==> forall u | u in g.tickets && u != ticket ::
      g.tickets[ticket] < g.tickets[u] || (g.tickets[ticket] == g.tickets[u] && ticket < u);
  }

  /** Where an arrival is counted, whom it may pass, and when the queue is full for it. */
  ghost predicate Placed(g: GateState, g': GateState, o: Outcome, priority: int) {
    && (g.nextTicket !in g.tickets ==>
          && Places(g') == Places(g) + (if o.BadPriority? then 0 else 1)
          && g'.tickets == if o.Queued? then g.tickets[g.nextTicket := priority] else g.tickets)
    && (o.Entered? ==>
          && g.active < g.maxConcurrent && g'.active == g.active + 1
          && forall u | u in g.tickets && u < g.nextTicket :: priority < g.tickets[u])
    && (o.BadPriority? <==> priority !in {ONLINE, BACKGROUND})
    && (o.QueueFull? <==>
          && priority in {ONLINE, BACKGROUND} && |g.tickets| >= g.maxWaiting
          && (g.active >= g.maxConcurrent || g.tickets != map[]))
    && (priority in {ONLINE, BACKGROUND} && g.active < g.maxConcurrent && g.tickets == map[] ==> o.Entered?)
    && (o.QueueFull? ==> g'.metrics.queueFull == g.metrics.queueFull + 1)
    && (o.TimedOut? ==> g'.metrics.timeout == g.metrics.timeout + 1)
  }

  lemma NewTicketAlone(tickets: map<nat, int>, t: nat, priority: int)
    requires t !in tickets
    ensures tickets[t := priority] - {t} == tickets && |tickets[t := priority]| == |tickets| + 1
  {
    assert tickets[t := priority].Keys == tickets.Keys + {t};
  }

  lemma BestPassesNobody(tickets: map<nat, int>, t: nat, priority: int)
    requires IsBest(tickets[t := priority], t)
    ensures forall u | u in tickets && u < t :: priority < tickets[u]
  {
    forall u | u in tickets && u < t ensures priority < tickets[u] {
      assert u in tickets[t := priority] && Before(tickets[t := priority], t, u);
    }
  }

  lemma ArrivalPlaced(g: GateState, priority: int, expired: bool)
    ensures Placed(g, Arrival(g, priority, expired).0, Arrival(g, priority, expired).1, priority)
  {
    var t := g.nextTicket;
    if t !in g.tickets { NewTicketAlone(g.tickets, t, priority); }
    if IsBest(g.tickets[t := priority], t) { BestPassesNobody(g.tickets, t, priority); }
  }

  class InferenceGate {
    const maxConcurrent: int
    const maxWaiting: int
    var active: int
    var tickets: map<nat, int>
    var nextTicket: nat
    var metrics: Metrics

    ghost function State(): GateState
      reads this
    {
      GateState(maxConcurrent, maxWaiting, active, tickets, nextTicket, metrics)
    }

    constructor (maxConcurrent: int, maxWaiting: int)
      requires maxConcurrent > 0 && maxWaiting >= 0
      ensures State() == Fresh(maxConcurrent, maxWaiting)
    {
      this.maxConcurrent, this.maxWaiting := maxConcurrent, maxWaiting;
      active, tickets, nextTicket := 0, map[], 0;
      metrics := Metrics(0, 0, 0, 0, 0, 0, 0);
    }

    /** The constructor's own range checks; no gate is made from a bad configuration. */
    static method Create(maxConcurrent: int, maxWaiting: int, waitTimeout: real) returns (r: Option<InferenceGate>)
      ensures r.Some? <==> maxConcurrent > 0 && maxWaiting >= 0 && waitTimeout > 0.0
      ensures r.Some? ==> fresh(r.value) && r.value.State() == Fresh(maxConcurrent, maxWaiting)
    {
      if maxConcurrent <= 0 || maxWaiting < 0 || waitTimeout <= 0.0 {
        return None;
      }
      var gate := new InferenceGate(maxConcurrent, maxWaiting);
      return Some(gate);
    }

    method RecountWaitingLocked()
      modifies this`metrics
      ensures metrics == Recounted(old(metrics), tickets)
    {
      var all := tickets;
      var online, background := 0, 0;
      var rest := all.Keys;
      ghost var onlineSet, otherSet := OnlineTickets(all), OtherTickets(all);
      while rest != {}
        invariant rest <= all.Keys && metrics == old(metrics) && tickets == all
        invariant online == |onlineSet - rest| && background == |otherSet - rest|
        decreases rest
      {
        var t :| t in rest;
        OneMore(onlineSet, rest, t);
        OneMore(otherSet, rest, t);
        if all[t] == ONLINE {
          online := online + 1;
        } else {
          background := background + 1;
        }
        rest := rest - {t};
      }
      assert onlineSet - rest == onlineSet && otherSet - rest == otherSet;
      metrics := metrics.(waitingOnline := online, waitingBackground := background);
    }

    /** The waiter that goes first. */
    method Best() returns (best: nat)
      requires tickets != map[]
      ensures IsBest(tickets, best)
    {
      best :| best in tickets;
      var rest := tickets.Keys - {best};
      while rest != {}
        invariant best in tickets && best !in rest && rest <= tickets.Keys
        invariant forall u | u in tickets && u !in rest && u != best :: Before(tickets, best, u)
        decreases rest
      {
        var t :| t in rest;
        if Before(tickets, t, best) {
          best := t;
        }
        rest := rest - {t};
      }
    }

    method Admit()
      modifies this`active, this`metrics
      ensures State() == Admitted(old(State()))
    {
      active := active + 1;
      metrics := metrics.(active := active,
        maxObservedActive := if active > metrics.maxObservedActive then active else metrics.maxObservedActive);
    }

    /**
     * One turn of the wait loop. The call enters exactly if a slot is free and no better ticket
     * waits; otherwise a passed deadline ends the wait and is counted, and only before it the
     * call goes on waiting, with nothing changed.
     */
    method Wake(ticket: nat, expired: bool) returns (outcome: Outcome)
      requires ticket in tickets
      modifies this`active, this`tickets, this`metrics
      ensures (State(), outcome) == Attempt(old(State()), ticket, expired)
      ensures Turned(old(State()), State(), outcome, ticket, expired)
    {
      AttemptTurns(State(), ticket, expired);
      if active < maxConcurrent {
        var best := Best();
        if best == ticket {
          tickets := tickets - {ticket};
          RecountWaitingLocked();
          Admit();
          return Entered;
        }
      }
      if expired {
        tickets := tickets - {ticket};
        RecountWaitingLocked();
        metrics := metrics.(timeout := metrics.timeout + 1);
        return TimedOut;
      }
      return Queued(ticket);
    }

    /**
     * Arrival: priority check, fast path, full queue, or a new ticket and the first turn. The
     * call is counted in exactly one place; it enters only into a free slot and past nobody of
     * as good a priority, and is refused only at the queue's limit.
     */
    method Arrive(priority: int, expired: bool) returns (outcome: Outcome)
      modifies this
      ensures (State(), outcome) == Arrival(old(State()), priority, expired)
      ensures outcome.BadPriority? ==> State() == old(State())
      ensures Placed(old(State()), State(), outcome, priority)
    {
      ArrivalPlaced(State(), priority, expired);
      if priority != ONLINE && priority != BACKGROUND {
        return BadPriority;
      }
      if active < maxConcurrent && tickets == map[] {
        Admit();
        return Entered;
      }
      if |tickets| >= maxWaiting {
        metrics := metrics.(queueFull := metrics.queueFull + 1);
        return QueueFull;
      }
      var ticket := nextTicket;
      nextTicket := nextTicket + 1;
      tickets := tickets[ticket := priority];
      RecountWaitingLocked();
      outcome := Wake(ticket, expired);
    }

    /** One call goes from active to completed; if anybody waits, the best waiter enters on its next turn. */
    method Release()
      modifies this`active, this`metrics
      ensures State() == Released(old(State()))
      ensures active + metrics.completed == old(active + metrics.completed)
          && metrics.completed > old(metrics).completed
      ensures old(active) <= maxConcurrent ==>
        forall t, expired | IsBest(tickets, t) :: Attempt(State(), t, expired).1.Entered?
      ensures old(metrics.active == active <= metrics.maxObservedActive) ==>
        metrics.active == active < metrics.maxObservedActive
    {
      active := active - 1;
      metrics := metrics.(active := active, completed := metrics.completed + 1);
    }
  }
}
