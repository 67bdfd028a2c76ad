/**
 * The run-level retry budget at the HTTP transport, under the two retry loops above it: a
 * request is retried R times, a turn S times, and a refusal is retried by neither.
 */
module RetryBudget {
  import opened Common

  datatype Reason = Attempts | Elapsed

  /** What the provider answers to a real attempt. */
  datatype Reply = Success | Permanent | Transient

  /** What the wrapped transport answers. */
  datatype Answer = Refused(reason: Reason) | Answered(reply: Reply)

  datatype Limits = Limits(maxProviderAttempts: int, maxTotalMs: int)

  datatype Budget = Budget(limits: Limits, startedAt: int, attempts: nat)

  function ExhaustedBy(b: Budget, now: int): Option<Reason> {
    if b.attempts >= b.limits.maxProviderAttempts then Some(Attempts)
    else if now - b.startedAt >= b.limits.maxTotalMs then Some(Elapsed)
    else None
  }

  class RunRetryBudget {
    const limits: Limits
    const startedAt: int
    var attempts: nat

    ghost function State(): Budget
      reads this
    {
      Budget(limits, startedAt, attempts)
    }

    constructor (limits: Limits, now: int)
      ensures State() == Budget(limits, now, 0)
    {
      this.limits, startedAt, attempts := limits, now, 0;
    }

    /**
     * The wrapped transport. `sent` says that the request reached the inner transport: it does
     * exactly when it is charged, and never on a refusal.
     */
    method Fetch(now: int) returns (refusal: Option<Reason>, sent: bool)
      modifies this`attempts
      ensures refusal == ExhaustedBy(old(State()), now) && (sent <==> refusal.None?)
      ensures attempts == old(attempts) + if sent then 1 else 0
      ensures sent ==> attempts <= limits.maxProviderAttempts
    {
      if attempts >= limits.maxProviderAttempts {
        return Some(Attempts), false;
      }
      if now - startedAt >= limits.maxTotalMs {
        return Some(Elapsed), false;
      }
      attempts := attempts + 1;
      return None, true;
    }
  }

  // ------------------------------------------------------------------
  // The two loops
  // ------------------------------------------------------------------

  /** `reply` answers the k-th real attempt, `clock` is read at the k-th call of the transport. */
  datatype World = World(reply: nat -> Reply, clock: nat -> int)

  /** `calls` counts all calls of the transport, `sent` those that reached the network. */
  datatype Client = Client(budget: Budget, calls: nat, sent: nat)

  function Fetched(w: World, c: Client): (Client, Answer) {
    var refusal := ExhaustedBy(c.budget, w.clock(c.calls));
    if refusal.Some? then (c.(calls := c.calls + 1), Refused(refusal.value))
    else (Client(c.budget.(attempts := c.budget.attempts + 1), c.calls + 1, c.sent + 1), Answered(w.reply(c.sent)))
  }

  predicate Retryable(a: Answer) { a == Answered(Transient) }

  function Request(w: World, c: Client, retries: nat): (Client, Answer)
    decreases retries
  {
    var (c', a) := Fetched(w, c);
    if Retryable(a) && retries > 0 then Request(w, c', retries - 1) else (c', a)
  }

  function Turn(w: World, c: Client, requestRetries: nat, turnRetries: nat): (Client, Answer)
    decreases turnRetries
  {
    var (c', a) := Request(w, c, requestRetries);
    if Retryable(a) && turnRetries > 0 then Turn(w, c', requestRetries, turnRetries - 1) else (c', a)
  }

  function Turns(w: World, c: Client, requestRetries: nat, turnRetries: nat, n: nat): Client {
    if n == 0 then c else Turn(w, Turns(w, c, requestRetries, turnRetries, n - 1), requestRetries, turnRetries).0
  }

  function Min(a: int, b: int): int { if a <= b then a else b }

  /** Everything sent has been charged, and nothing beyond the limit. */
  ghost predicate Charged(c: Client) {
    c.sent == c.budget.attempts && (c.budget.attempts <= c.budget.limits.maxProviderAttempts || c.budget.attempts == 0)
  }

  /** What one stretch of calls may do: charge what it sends, stop at a refusal. */
  ghost predicate Sound(c: Client, c': Client, a: Answer) {
    && Charged(c') && c'.budget.limits == c.budget.limits && c'.budget.startedAt == c.budget.startedAt
    && c.sent <= c'.sent
    && c'.calls - c.calls == c'.sent - c.sent + if a.Refused? then 1 else 0
  }

  lemma {:induction false} RequestSound(w: World, c: Client, retries: nat)
    requires Charged(c)
    ensures var (c', a) := Request(w, c, retries); Sound(c, c', a) && c'.sent <= c.sent + retries + 1
    decreases retries
  {
    var (c', a) := Fetched(w, c);
    if Retryable(a) && retries > 0 { RequestSound(w, c', retries - 1); }
  }

  lemma {:induction false} TurnSound(w: World, c: Client, r: nat, s: nat)
    requires Charged(c)
    ensures var (c', a) := Turn(w, c, r, s); Sound(c, c', a) && c'.sent <= c.sent + (r + 1) * (s + 1)
    decreases s
  {
    RequestSound(w, c, r);
    var (c', a) := Request(w, c, r);
    assert (r + 1) * (s + 1) == (r + 1) * s + (r + 1);
    if Retryable(a) && s > 0 { TurnSound(w, c', r, s - 1); }
  }

  lemma OneMoreTurn(n: nat, cost: nat)
    ensures (n + 1) * cost == n * cost + cost
  {
  }

  lemma {:induction false} TurnsSound(w: World, c: Client, r: nat, s: nat, n: nat)
    requires Charged(c)
    ensures var c' := Turns(w, c, r, s, n);
      && Charged(c') && c'.budget.limits == c.budget.limits && c'.sent <= c.sent + n * ((r + 1) * (s + 1))
      && c'.budget.startedAt == c.budget.startedAt
  {
    if n > 0 {
      TurnsSound(w, c, r, s, n - 1);
      TurnSound(w, Turns(w, c, r, s, n - 1), r, s);
      OneMoreTurn(n - 1, (r + 1) * (s + 1));
    }
  }

  function NewClient(limits: Limits, now: int): Client {
    Client(Budget(limits, now, 0), 0, 0)
  }

  /**
   * For any replies, clock, retry counts and number of turns: what reaches the network stays
   * within the run's limit and within (R+1)(S+1) per turn.
   */
  lemma AttemptsBounded(w: World, limits: Limits, now: int, r: nat, s: nat, n: nat)
    requires limits.maxProviderAttempts > 0
    ensures Turns(w, NewClient(limits, now), r, s, n).sent <= Min(limits.maxProviderAttempts, n * ((r + 1) * (s + 1)))
  {
    TurnsSound(w, NewClient(limits, now), r, s, n);
  }

  /**
   * A refusal ends its turn, however many retries are left: the transport is called once per
   * attempt sent, and once more exactly if the turn ends with a refusal.
   */
  lemma RefusalEndsTurn(w: World, c: Client, r: nat, s: nat)
    requires Charged(c)
    ensures var (c', a) := Turn(w, c, r, s);
      c'.calls - c.calls == c'.sent - c.sent + if a.Refused? then 1 else 0
  {
    TurnSound(w, c, r, s);
  }

  // ------------------------------------------------------------------
  // Exactly how many attempts an outage costs
  // ------------------------------------------------------------------

  /** Every attempt fails transiently, and the time limit is never reached. */
  ghost predicate Outage(w: World, b: Budget) {
    (forall k :: w.reply(k) == Transient) && forall k :: w.clock(k) - b.startedAt < b.limits.maxTotalMs
  }

  lemma {:induction false} OutageRequest(w: World, c: Client, retries: nat)
    requires Charged(c) && Outage(w, c.budget) && c.budget.limits.maxProviderAttempts > 0
    ensures var (c', a) := Request(w, c, retries); var max := c.budget.limits.maxProviderAttempts;
      && c'.sent == Min(max, c.sent + retries + 1)
      && a == (if c.sent + retries + 1 <= max then Answered(Transient) else Refused(Attempts))
    decreases retries
  {
    var (c', a) := Fetched(w, c);
    if Retryable(a) && retries > 0 { OutageRequest(w, c', retries - 1); }
  }

  lemma {:induction false} OutageTurn(w: World, c: Client, r: nat, s: nat)
    requires Charged(c) && Outage(w, c.budget) && c.budget.limits.maxProviderAttempts > 0
    ensures var (c', a) := Turn(w, c, r, s); var max := c.budget.limits.maxProviderAttempts;
      && c'.sent == Min(max, c.sent + (r + 1) * (s + 1))
      && a == (if c.sent + (r + 1) * (s + 1) <= max then Answered(Transient) else Refused(Attempts))
    decreases s
  {
    RequestSound(w, c, r);
    OutageRequest(w, c, r);
    var (c', a) := Request(w, c, r);
    assert (r + 1) * (s + 1) == (r + 1) * s + (r + 1);
    if Retryable(a) && s > 0 { OutageTurn(w, c', r, s - 1); }
  }

  /** An outage of n turns costs exactly n(R+1)(S+1) attempts, or the limit if that is less. */
  lemma {:induction false} OutageCost(w: World, limits: Limits, now: int, r: nat, s: nat, n: nat)
    requires limits.maxProviderAttempts > 0 && Outage(w, Budget(limits, now, 0))
    ensures Turns(w, NewClient(limits, now), r, s, n).sent == Min(limits.maxProviderAttempts, n * ((r + 1) * (s + 1)))
  {
    if n > 0 {
      var c := Turns(w, NewClient(limits, now), r, s, n - 1);
      OutageCost(w, limits, now, r, s, n - 1);
      TurnsSound(w, NewClient(limits, now), r, s, n - 1);
      OutageTurn(w, c, r, s);
      OneMoreTurn(n - 1, (r + 1) * (s + 1));
    }
  }

  // ------------------------------------------------------------------
  // What any turn costs
  // ------------------------------------------------------------------

  /** Attempts from number `from` on until one does not fail transiently, at most `n`. */
  function Tries(reply: nat -> Reply, from: nat, n: nat): nat
    decreases n
  {
    if n == 0 then 0 else if reply(from) == Transient then 1 + Tries(reply, from + 1, n - 1) else 1
  }

  /** All tries but the last fail transiently, and only running out of tries ends them otherwise. */
  lemma {:induction false} TriesMeaning(reply: nat -> Reply, from: nat, n: nat)
    ensures var k := Tries(reply, from, n);
      && k <= n && (n > 0 ==> k > 0)
      && (forall i: nat | from <= i < from + k - 1 :: reply(i) == Transient)
      && (0 < k < n ==> reply(from + k - 1) != Transient)
    decreases n
  {
    if n > 0 && reply(from) == Transient { TriesMeaning(reply, from + 1, n - 1); }
  }

  /** After `a` transient failures in a row the tries go on with the rest. */
  lemma {:induction false} TriesSplit(reply: nat -> Reply, from: nat, a: nat, b: nat)
    ensures var k := Tries(reply, from, a);
      && k <= a && (a > 0 ==> k > 0)
      && (k < a ==> reply(from + k - 1) != Transient)
      && (a > 0 && reply(from + k - 1) != Transient ==> Tries(reply, from, a + b) == k)
      && (a > 0 && k == a && reply(from + k - 1) == Transient ==>
            Tries(reply, from, a + b) == a + Tries(reply, from + a, b))
    decreases a
  {
    if a > 1 && reply(from) == Transient { TriesSplit(reply, from + 1, a - 1, b); }
  }

  /** The clock stays within the time limit. */
  ghost predicate InTime(w: World, b: Budget) {
    forall k :: w.clock(k) - b.startedAt < b.limits.maxTotalMs
  }

  /** `k` attempts were called for; the limit cuts off what is beyond it, with a refusal. */
  ghost predicate Costs(w: World, c: Client, k: nat, c': Client, a: Answer) {
    var max := c.budget.limits.maxProviderAttempts;
    && c'.sent == Min(max, c.sent + k)
    && a == (if c.sent + k <= max && c'.sent > 0 then Answered(w.reply(c'.sent - 1)) else Refused(Attempts))
  }

  lemma {:induction false} RequestCosts(w: World, c: Client, retries: nat)
    requires Charged(c) && InTime(w, c.budget) && c.budget.limits.maxProviderAttempts > 0
    ensures var (c', a) := Request(w, c, retries); Costs(w, c, Tries(w.reply, c.sent, retries + 1), c', a)
    decreases retries
  {
    var (c', a) := Fetched(w, c);
    if Retryable(a) && retries > 0 { RequestCosts(w, c', retries - 1); }
  }

  lemma Product(r: nat, s: nat)
    ensures (r + 1) * (s + 1) == (r + 1) + (r + 1) * s
  {
  }

  /** All `n` tries of a request failed transiently: the next request goes on from there. */
  lemma GoesOn(w: World, c: Client, n: nat, rest: nat, c': Client, a: Answer)
    requires n > 0 && c.sent <= c.budget.limits.maxProviderAttempts
    requires Costs(w, c, Tries(w.reply, c.sent, n), c', a) && Retryable(a)
    ensures c'.sent == c.sent + n && Tries(w.reply, c.sent, n + rest) == n + Tries(w.reply, c'.sent, rest)
  {
    TriesSplit(w.reply, c.sent, n, rest);
  }

  /** No request follows: what it cost is what all tries would have. */
  lemma EndsHere(w: World, c: Client, n: nat, rest: nat, c': Client, a: Answer)
    requires n > 0 && 0 < c.budget.limits.maxProviderAttempts
    requires Costs(w, c, Tries(w.reply, c.sent, n), c', a) && (!Retryable(a) || rest == 0)
    ensures Costs(w, c, Tries(w.reply, c.sent, n + rest), c', a)
  {
    TriesSplit(w.reply, c.sent, n, rest);
  }

  lemma {:induction false} TurnCostsAll(w: World, c: Client, r: nat, s: nat, rest: nat)
    requires Charged(c) && InTime(w, c.budget) && c.budget.limits.maxProviderAttempts > 0 && rest == (r + 1) * s
    ensures var (c', a) := Turn(w, c, r, s); Costs(w, c, Tries(w.reply, c.sent, r + 1 + rest), c', a)
    decreases s
  {
    RequestSound(w, c, r);
    RequestCosts(w, c, r);
    var (c', a) := Request(w, c, r);
    if Retryable(a) && s > 0 {
      var less := (r + 1) * (s - 1);
      Product(r, s - 1);
      assert rest == r + 1 + less;
      TurnCostsAll(w, c', r, s - 1, less);
      GoesOn(w, c, r + 1, rest, c', a);
    } else {
      EndsHere(w, c, r + 1, rest, c', a);
    }
  }

  /**
   * For any replies, as long as there is time: a turn sends attempts until one does not fail
   * transiently, at most (R+1)(S+1), and is answered by the last of them, unless the run's
   * limit comes first.
   */
  lemma TurnCosts(w: World, c: Client, r: nat, s: nat)
    requires Charged(c) && InTime(w, c.budget) && c.budget.limits.maxProviderAttempts > 0
    ensures var (c', a) := Turn(w, c, r, s); Costs(w, c, Tries(w.reply, c.sent, (r + 1) * (s + 1)), c', a)
  {
    Product(r, s);
    TurnCostsAll(w, c, r, s, (r + 1) * s);
  }

  // ------------------------------------------------------------------
  // Refusals are permanent, as long as the clock keeps up
  // ------------------------------------------------------------------

  ghost predicate Monotone(clock: nat -> int) {
    forall i, j | 0 <= i <= j :: clock(i) <= clock(j)
  }

  /** Once past `start`, the clock never reads less than it has read before. */
  ghost predicate KeepsUp(clock: nat -> int, start: int) {
    forall i, j | 0 <= i <= j && clock(i) > start :: clock(i) <= clock(j)
  }

  /** The transport called `n` more times. */
  function Calls(w: World, c: Client, n: nat): Client {
    if n == 0 then c else Fetched(w, Calls(w, c, n - 1)).0
  }

  lemma {:induction false} CallsCount(w: World, c: Client, n: nat)
    ensures var c' := Calls(w, c, n);
      && c'.calls == c.calls + n && c'.budget.attempts <= c.budget.attempts + n
      && c'.budget.limits == c.budget.limits && c'.budget.startedAt == c.budget.startedAt
  {
    if n > 0 { CallsCount(w, c, n - 1); }
  }

  lemma {:induction false} CallsConcat(w: World, c: Client, k: nat, n: nat)
    ensures Calls(w, c, k + n) == Calls(w, Calls(w, c, k), n)
  {
    if n > 0 {
      CallsConcat(w, c, k, n - 1);
      assert k + n - 1 == k + (n - 1);
    }
  }

  lemma {:induction false} RefusedThroughout(w: World, c: Client, n: nat, reason: Reason)
    requires ExhaustedBy(c.budget, w.clock(c.calls)) == Some(reason)
    requires reason == Attempts || forall j: nat | c.calls <= j :: w.clock(c.calls) <= w.clock(j)
    ensures var c' := Calls(w, c, n);
      && c' == c.(calls := c.calls + n)
      && Fetched(w, c').1 == Refused(reason)
  {
    if n > 0 {
      RefusedThroughout(w, c, n - 1, reason);
    }
  }

  /**
   * Once refused, every later call is refused for the same reason and none reaches the
   * network: always for the attempt limit, and for the time limit if the clock never goes back.
   */
  lemma {:induction false} RefusalIsPermanent(w: World, c: Client, n: nat)
    requires Fetched(w, c).1.Refused? && (Fetched(w, c).1.reason == Attempts || Monotone(w.clock))
    ensures var c' := Calls(w, c, n); Fetched(w, c').1 == Fetched(w, c).1 && c'.sent == c.sent
  {
    RefusedThroughout(w, c, n, Fetched(w, c).1.reason);
  }

  /** What a client gets for its k-th call; both limits of an active budget are positive. */
  function AnswerAt(w: World, limits: Limits, start: int, k: nat): Answer {
    Fetched(w, Calls(w, NewClient(limits, start), k)).1
  }

  predicate Active(limits: Limits) { limits.maxProviderAttempts > 0 && limits.maxTotalMs > 0 }

  /** Whatever the limits and replies, a client started at `start` and once out of time stays refused. */
  ghost predicate Sticks(clock: nat -> int, start: int) {
    forall reply, limits, i: nat, j: nat |
      i <= j && Active(limits) && AnswerAt(World(reply, clock), limits, start, i) == Refused(Elapsed) ::
      AnswerAt(World(reply, clock), limits, start, j).Refused?
  }

  lemma OutOfTimeStays(w: World, c: Client, n: nat)
    requires KeepsUp(w.clock, c.budget.startedAt) && c.budget.limits.maxTotalMs > 0
    requires Fetched(w, c).1 == Refused(Elapsed)
    ensures Fetched(w, Calls(w, c, n)).1 == Refused(Elapsed)
  {
    RefusedThroughout(w, c, n, Elapsed);
  }

  lemma KeptUpSticks(w: World, limits: Limits, start: int, i: nat, n: nat)
    requires KeepsUp(w.clock, start) && Active(limits)
    requires AnswerAt(w, limits, start, i) == Refused(Elapsed)
    ensures AnswerAt(w, limits, start, i + n) == Refused(Elapsed)
  {
    var c0 := NewClient(limits, start);
    var c := Calls(w, c0, i);
    CallsCount(w, c0, i);
    CallsConcat(w, c0, i, n);
    OutOfTimeStays(w, c, n);
  }

  /** A clock that falls back below a reading it took past `start` lets a later call through. */
  lemma ClockBackReopens(w: World, start: int, i: nat, j: nat)
    requires i <= j && w.clock(i) > start && w.clock(j) < w.clock(i)
    ensures var limits := Limits(j + 1, w.clock(i) - start);
      && Active(limits)
      && AnswerAt(w, limits, start, i) == Refused(Elapsed) && AnswerAt(w, limits, start, j).Answered?
  {
    var c := NewClient(Limits(j + 1, w.clock(i) - start), start);
    CallsCount(w, c, i);
    CallsCount(w, c, j);
  }

  /**
   * Being out of time is final for every client started at `start` if and only if the clock,
   * once past `start`, never falls back.
   */
  lemma SticksIffClockKeepsUp(clock: nat -> int, start: int)
    ensures Sticks(clock, start) <==> KeepsUp(clock, start)
  {
    if KeepsUp(clock, start) {
      forall reply, limits, i: nat, j: nat |
        i <= j && Active(limits) && AnswerAt(World(reply, clock), limits, start, i) == Refused(Elapsed)
        ensures AnswerAt(World(reply, clock), limits, start, j).Refused?
      {
        KeptUpSticks(World(reply, clock), limits, start, i, j - i);
      }
    } else {
      var i: nat, j: nat :| i <= j && clock(i) > start && clock(i) > clock(j);
      ClockBackReopens(World(_ => Success, clock), start, i, j);
    }
  }

  /** It is final for every client, whenever started, if and only if the clock never goes back. */
  lemma AlwaysSticksIffMonotone(clock: nat -> int)
    ensures (forall start :: Sticks(clock, start)) <==> Monotone(clock)
  {
    if Monotone(clock) {
      forall start ensures Sticks(clock, start) { SticksIffClockKeepsUp(clock, start); }
    } else {
      var i: nat, j: nat :| i <= j && clock(i) > clock(j);
      SticksIffClockKeepsUp(clock, clock(i) - 1);
    }
  }
}
