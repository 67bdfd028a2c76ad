/**
 * The send queue against a server that keeps a gap-free stream, over every interleaving of
 * timer ticks, append results and `flushAll`. A failed append may have been applied, may be
 * applied later, or never.
 */
module Delivery {
  import opened Common
  import opened Flusher

  /** The server's append: all or nothing, replays are ignored, anything out of sequence is refused. */
  function Append<T(==)>(base: nat, stream: seq<Event<T>>, batch: seq<Event<T>>): Option<seq<Event<T>>>
    decreases |batch|
  {
    if batch == [] then Some(stream)
    else
      var e := batch[0];
      if base <= e.seqNo < base + |stream| then
        if stream[e.seqNo - base] == e then Append(base, stream, batch[1..]) else None
      else if e.seqNo == base + |stream| then Append(base, stream + [e], batch[1..])
      else None
  }

  /**
   * `drained` is everything taken from the event buffer so far and `acked` how much of it was
   * acknowledged; `strays` are the batches of failed requests, which may still arrive.
   */
  datatype System<T> = System(queue: Queue<T>, base: nat, drained: seq<Event<T>>, acked: nat,
                              stream: seq<Event<T>>, strays: seq<seq<Event<T>>>)

  datatype Action<T> =
    | Tick(bodies: seq<T>)
    | Flush(bodies: seq<T>)
    | Acknowledge
    | Fail(applied: bool)
    | ArriveLate(stray: nat)
    | Close

  predicate Enabled<T>(s: System<T>, a: Action<T>) {
    match a
    case Tick(_) => s.queue.flush.NotCalled?
    case Flush(_) => s.queue.flush.NotCalled?
    case Acknowledge => s.queue.phase.InFlight?
    case Fail(_) => s.queue.phase.InFlight?
    case ArriveLate(i) => i < |s.strays|
    case Close => s.queue.phase.Closing?
  }

  /** A refused append leaves the stream as it was. */
  function Received<T(==)>(s: System<T>, batch: seq<Event<T>>): seq<Event<T>> {
    var r := Append(s.base, s.stream, batch);
    if r.Some? then r.value else s.stream
  }

  function Step<T(==)>(s: System<T>, a: Action<T>): System<T>
    requires Enabled(s, a)
  {
    match a
    case Tick(bodies) =>
      var more := Numbered(s.base + |s.drained|, bodies);
      s.(queue := Ticked(s.queue, more), drained := s.drained + more)
    case Flush(bodies) =>
      var more := Numbered(s.base + |s.drained|, bodies);
      s.(queue := FlushCalled(s.queue, more), drained := s.drained + more)
    case Acknowledge =>
      s.(queue := NextBatch(s.queue), acked := s.acked + |s.queue.phase.batch|,
          stream := Received(s, s.queue.phase.batch))
    case Fail(applied) =>
      s.(queue := Reinserted(s.queue), strays := s.strays + [s.queue.phase.batch],
         stream := if applied then Received(s, s.queue.phase.batch) else s.stream)
    case ArriveLate(i) => s.(stream := Received(s, s.strays[i]))
    case Close => s.(queue := Closed(s.queue))
  }

  predicate IsRun<T(==)>(s: System<T>, acts: seq<Action<T>>)
    decreases |acts|
  {
    acts == [] || (Enabled(s, acts[0]) && IsRun(Step(s, acts[0]), acts[1..]))
  }

  function After<T(==)>(s: System<T>, acts: seq<Action<T>>): System<T>
    requires IsRun(s, acts)
    decreases |acts|
  {
    if acts == [] then s else After(Step(s, acts[0]), acts[1..])
  }

  function Start<T>(batchSize: nat, base: nat): System<T> {
    System(Queue(batchSize, [], Idle, NotCalled), base, [], 0, [], [])
  }

  // ------------------------------------------------------------------
  // Invariant
  // ------------------------------------------------------------------

  ghost predicate NumberedFrom<T>(base: nat, events: seq<Event<T>>) {
    forall i | 0 <= i < |events| :: events[i].seqNo == base + i
  }

  /** `batch` is a stretch of `all` that starts no later than `limit`. */
  ghost predicate Stretch<T>(all: seq<Event<T>>, batch: seq<Event<T>>, limit: nat) {
    exists from: nat :: StretchAt(all, batch, limit, from)
  }

  ghost predicate StretchAt<T>(all: seq<Event<T>>, batch: seq<Event<T>>, limit: nat, from: nat) {
    from <= limit && from + |batch| <= |all| && batch == all[from..from + |batch|]
  }

  ghost predicate Inv<T>(s: System<T>) {
    && NumberedFrom(s.base, s.drained)
    && s.acked <= |s.drained| && s.drained[s.acked..] == Sent(s.queue) + s.queue.pending
    && s.acked <= |s.stream| <= |s.drained| && s.stream == s.drained[..|s.stream|]
    && (forall i | 0 <= i < |s.strays| :: Stretch(s.drained, s.strays[i], s.acked))
    && (s.queue.flush.Returned? ==> s.queue.phase.Idle? && s.queue.pending == [])
    && (s.queue.phase.InFlight? ==> 0 < |s.queue.phase.batch| <= s.queue.batchSize)
    && s.queue.batchSize > 0
  }

  /** A stretch that starts inside the stream is accepted, and extends it at most to its own end. */
  lemma {:induction false} StretchAccepted<T>(base: nat, all: seq<Event<T>>, n: nat, from: nat, len: nat)
    requires NumberedFrom(base, all) && n <= |all| && from <= n && from + len <= |all|
    ensures Append(base, all[..n], all[from..from + len]) == Some(all[..if from + len > n then from + len else n])
    decreases len
  {
    var stream, batch := all[..n], all[from..from + len];
    if len > 0 {
      assert batch[0] == all[from] && batch[1..] == all[from + 1..from + 1 + (len - 1)];
      if from < n {
        assert stream[from] == all[from];
        StretchAccepted(base, all, n, from + 1, len - 1);
      } else {
        assert stream + [all[from]] == all[..n + 1];
        StretchAccepted(base, all, n + 1, from + 1, len - 1);
      }
    }
  }

  lemma BatchAccepted<T>(s: System<T>, batch: seq<Event<T>>)
    requires Inv(s) && Stretch(s.drained, batch, s.acked)
    ensures Append(s.base, s.stream, batch).Some?
    ensures var r := Received(s, batch); |s.stream| <= |r| <= |s.drained| && r == s.drained[..|r|]
  {
    var from: nat :| StretchAt(s.drained, batch, s.acked, from);
    StretchAccepted(s.base, s.drained, |s.stream|, from, |batch|);
  }

  // ------------------------------------------------------------------
  // Every step keeps the invariant
  // ------------------------------------------------------------------

  lemma PumpedKeeps<T>(q: Queue<T>)
    ensures Contents(Pumped(q)) == Contents(q) && Pumped(q).batchSize == q.batchSize
  {
  }

  lemma LoopKeeps<T>(q: Queue<T>, retried: bool)
    requires q.phase.InFlight? ==> 0 < |q.phase.batch| <= q.batchSize
    requires q.batchSize > 0
    ensures var r := FlushLoop(q, retried);
      && Contents(r) == Contents(q) && r.batchSize == q.batchSize
      && (r.flush.Returned? ==> r.phase.Idle? && r.pending == [])
      && (r.phase.InFlight? ==> 0 < |r.phase.batch| <= r.batchSize)
      && !r.flush.NotCalled? && !r.flush.Threw?
  {
    PumpedKeeps(q);
  }

  lemma MoreDrained<T>(s: System<T>, q: Queue<T>, bodies: seq<T>)
    requires Inv(s)
    requires var more := Numbered(s.base + |s.drained|, bodies);
      && Contents(q) == Contents(s.queue) + more && q.batchSize == s.queue.batchSize
      && (q.flush.Returned? ==> q.phase.Idle? && q.pending == [])
      && (q.phase.InFlight? ==> 0 < |q.phase.batch| <= q.batchSize)
    ensures Inv(s.(queue := q, drained := s.drained + Numbered(s.base + |s.drained|, bodies)))
  {
    var more := Numbered(s.base + |s.drained|, bodies);
    var all := s.drained + more;
    assert all[s.acked..] == s.drained[s.acked..] + more;
    assert all[..|s.stream|] == s.drained[..|s.stream|];
    forall i | 0 <= i < |s.strays| ensures Stretch(all, s.strays[i], s.acked) {
      var from: nat :| StretchAt(s.drained, s.strays[i], s.acked, from);
      assert all[from..from + |s.strays[i]|] == s.drained[from..from + |s.strays[i]|];
      assert StretchAt(all, s.strays[i], s.acked, from);
    }
  }

  lemma DrainKeeps<T>(s: System<T>, a: Action<T>)
    requires Inv(s) && Enabled(s, a) && (a.Tick? || a.Flush?)
    ensures Inv(Step(s, a))
  {
    var more := Numbered(s.base + |s.drained|, a.bodies);
    var fed := s.queue.(pending := s.queue.pending + more);
    assert Contents(fed) == Contents(s.queue) + more;
    if a.Tick? {
      PumpedKeeps(fed);
      MoreDrained(s, Ticked(s.queue, more), a.bodies);
    } else {
      LoopKeeps(fed, false);
      MoreDrained(s, FlushCalled(s.queue, more), a.bodies);
    }
  }

  lemma SentIsStretch<T>(s: System<T>)
    requires Inv(s) && s.queue.phase.InFlight?
    ensures StretchAt(s.drained, s.queue.phase.batch, s.acked, s.acked)
  {
    var batch := s.queue.phase.batch;
    assert s.drained[s.acked..][..|batch|] == batch;
    assert s.drained[s.acked..s.acked + |batch|] == s.drained[s.acked..][..|batch|];
  }

  lemma StrayStays<T>(all: seq<Event<T>>, batch: seq<Event<T>>, limit: nat, limit': nat)
    requires Stretch(all, batch, limit) && limit <= limit'
    ensures Stretch(all, batch, limit')
  {
    var from: nat :| StretchAt(all, batch, limit, from);
    assert StretchAt(all, batch, limit', from);
  }

  /** What is left to acknowledge after a batch. */
  lemma RestAfterBatch<T>(all: seq<Event<T>>, acked: nat, batch: seq<Event<T>>, pending: seq<Event<T>>)
    requires acked <= |all| && all[acked..] == batch + pending
    ensures acked + |batch| <= |all| && all[acked..acked + |batch|] == batch && all[acked + |batch|..] == pending
  {
    assert |all| - acked == |batch| + |pending|;
    assert all[acked..][..|batch|] == batch && all[acked..][|batch|..] == pending;
  }

  /** The stream after the batch in flight has arrived once more or for the first time. */
  lemma BatchArrives<T>(s: System<T>)
    requires Inv(s) && s.queue.phase.InFlight?
    ensures var r := Received(s, s.queue.phase.batch);
      s.acked + |s.queue.phase.batch| <= |r| <= |s.drained| && r == s.drained[..|r|]
  {
    var batch := s.queue.phase.batch;
    RestAfterBatch(s.drained, s.acked, batch, s.queue.pending);
    StretchAccepted(s.base, s.drained, |s.stream|, s.acked, |batch|);
  }

  lemma StraysStay<T>(s: System<T>, limit: nat)
    requires Inv(s) && s.acked <= limit
    ensures forall i | 0 <= i < |s.strays| :: Stretch(s.drained, s.strays[i], limit)
  {
    forall i | 0 <= i < |s.strays| ensures Stretch(s.drained, s.strays[i], limit) {
      StrayStays(s.drained, s.strays[i], s.acked, limit);
    }
  }

  lemma AcknowledgeKeeps<T>(s: System<T>)
    requires Inv(s) && s.queue.phase.InFlight?
    ensures Inv(Step(s, Acknowledge))
  {
    var batch := s.queue.phase.batch;
    RestAfterBatch(s.drained, s.acked, batch, s.queue.pending);
    BatchArrives(s);
    StraysStay(s, s.acked + |batch|);
    NextBatchKeeps(s.queue);
  }

  lemma FailKeeps<T>(s: System<T>, applied: bool)
    requires Inv(s) && s.queue.phase.InFlight?
    ensures Inv(Step(s, Fail(applied)))
  {
    SentIsStretch(s);
    BatchAccepted(s, s.queue.phase.batch);
    assert Contents(Reinserted(s.queue)) == Contents(s.queue);
  }

  /** A queue with the same contents, in a state it may be in. */
  lemma QueueKeeps<T>(s: System<T>, q: Queue<T>)
    requires Inv(s) && Contents(q) == Contents(s.queue) && q.batchSize == s.queue.batchSize
    requires q.flush.Returned? ==> q.phase.Idle? && q.pending == []
    requires q.phase.InFlight? ==> 0 < |q.phase.batch| <= q.batchSize
    ensures Inv(s.(queue := q))
  {
  }

  lemma CloseKeeps<T>(s: System<T>)
    requires Inv(s) && s.queue.phase.Closing?
    ensures Inv(Step(s, Close))
  {
    ClosedKeeps(s.queue);
    ClosedFlush(s.queue);
    QueueKeeps(s, Closed(s.queue));
  }

  lemma StepKeeps<T>(s: System<T>, a: Action<T>)
    requires Inv(s) && Enabled(s, a)
    ensures Inv(Step(s, a))
  {
    match a
    case Tick(_) => DrainKeeps(s, a);
    case Flush(_) => DrainKeeps(s, a);
    case Acknowledge => AcknowledgeKeeps(s);
    case Fail(applied) => FailKeeps(s, applied);
    case ArriveLate(i) => BatchAccepted(s, s.strays[i]);
    case Close => CloseKeeps(s);
  }

  lemma {:induction false} RunKeeps<T>(s: System<T>, acts: seq<Action<T>>)
    requires Inv(s) && IsRun(s, acts)
    ensures Inv(After(s, acts))
    decreases |acts|
  {
    if acts != [] {
      StepKeeps(s, acts[0]);
      RunKeeps(Step(s, acts[0]), acts[1..]);
    }
  }

  // ------------------------------------------------------------------
  // Main results
  // ------------------------------------------------------------------

  /** Everything the buffer has handed out in a run, in order. */
  function Bodies<T>(acts: seq<Action<T>>): seq<T> {
    if acts == [] then []
    else (match acts[0] case Tick(b) => b case Flush(b) => b case _ => []) + Bodies(acts[1..])
  }

  lemma DrainedStep<T>(s: System<T>, a: Action<T>)
    requires Enabled(s, a)
    ensures Step(s, a).base == s.base
    ensures Step(s, a).drained == s.drained + Numbered(s.base + |s.drained|, Bodies([a]))
  {
    assert Bodies([a][1..]) == [];
  }

  /** Numbering in two portions is numbering the whole. */
  lemma NumberedConcat<T>(base: nat, d: seq<Event<T>>, a: seq<T>, b: seq<T>)
    ensures var d' := d + Numbered(base + |d|, a);
      d' + Numbered(base + |d'|, b) == d + Numbered(base + |d|, a + b)
  {
    assert Numbered(base + |d|, a + b) == Numbered(base + |d|, a) + Numbered(base + |d| + |a|, b);
  }

  lemma BodiesStep<T>(acts: seq<Action<T>>)
    requires acts != []
    ensures Bodies(acts) == Bodies([acts[0]]) + Bodies(acts[1..])
  {
    assert Bodies([acts[0]][1..]) == [];
  }

  lemma {:induction false} DrainedIsBodies<T>(s: System<T>, acts: seq<Action<T>>)
    requires IsRun(s, acts)
    ensures After(s, acts).drained == s.drained + Numbered(s.base + |s.drained|, Bodies(acts))
    ensures After(s, acts).base == s.base
    decreases |acts|
  {
    if acts != [] {
      DrainedStep(s, acts[0]);
      DrainedIsBodies(Step(s, acts[0]), acts[1..]);
      BodiesStep(acts);
      NumberedConcat(s.base, s.drained, Bodies([acts[0]]), Bodies(acts[1..]));
    }
  }

  lemma Acceptable<T>(s: System<T>)
    requires Inv(s)
    ensures s.queue.phase.InFlight? ==> Append(s.base, s.stream, s.queue.phase.batch).Some?
    ensures forall i | 0 <= i < |s.strays| :: Append(s.base, s.stream, s.strays[i]).Some?
  {
    if s.queue.phase.InFlight? {
      SentIsStretch(s);
      BatchAccepted(s, s.queue.phase.batch);
    }
    forall i | 0 <= i < |s.strays| ensures Append(s.base, s.stream, s.strays[i]).Some? {
      BatchAccepted(s, s.strays[i]);
    }
  }

  lemma RunDrains<T>(batchSize: nat, base: nat, acts: seq<Action<T>>)
    requires batchSize > 0 && IsRun(Start(batchSize, base), acts)
    ensures var e := After(Start(batchSize, base), acts);
      Inv(e) && e.base == base && e.drained == Numbered(base, Bodies(acts))
  {
    RunKeeps(Start(batchSize, base), acts);
    DrainedIsBodies(Start(batchSize, base), acts);
  }

  /**
   * For every interleaving: acknowledged, in-flight and queued events are together exactly
   * what was drained, in order; the server's stream is a prefix of it, without a gap or a
   * repeat, that contains all that was acknowledged; and no append is out of sequence.
   */
  lemma OrderedLossless<T>(batchSize: nat, base: nat, acts: seq<Action<T>>)
    requires batchSize > 0 && IsRun(Start(batchSize, base), acts)
    ensures var e := After(Start(batchSize, base), acts); var all := Numbered(base, Bodies(acts));
      && e.acked <= |e.stream| <= |all|
      && e.stream == all[..|e.stream|]
      && all == all[..e.acked] + (Sent(e.queue) + e.queue.pending)
      && (e.queue.phase.InFlight? ==> Append(base, e.stream, e.queue.phase.batch).Some?)
      && (forall i | 0 <= i < |e.strays| :: Append(base, e.stream, e.strays[i]).Some?)
  {
    var e := After(Start(batchSize, base), acts);
    RunDrains(batchSize, base, acts);
    Acceptable(e);
    assert e.drained == e.drained[..e.acked] + e.drained[e.acked..];
  }

  /** A normal return of `flushAll` means that the server has every event, exactly once. */
  lemma ReturnMeansDelivered<T>(batchSize: nat, base: nat, acts: seq<Action<T>>)
    requires batchSize > 0 && IsRun(Start(batchSize, base), acts)
    requires After(Start(batchSize, base), acts).queue.flush.Returned?
    ensures var e := After(Start(batchSize, base), acts);
      e.stream == Numbered(base, Bodies(acts)) && e.acked == |e.stream|
  {
    RunDrains(batchSize, base, acts);
    var e := After(Start(batchSize, base), acts);
    assert e.drained[e.acked..] == [];
  }

  /** Failures seen since `flushAll` was called. */
  function FailuresAfterFlush<T(==)>(s: System<T>, acts: seq<Action<T>>): nat
    requires IsRun(s, acts)
    decreases |acts|
  {
    if acts == [] then 0
    else (if acts[0].Fail? && !s.queue.flush.NotCalled? then 1 else 0) + FailuresAfterFlush(Step(s, acts[0]), acts[1..])
  }

  /** How many more failures `flushAll` can take before it throws. */
  function Patience<T>(q: Queue<T>): nat {
    match q.flush
    case NotCalled => 2
    case Waiting(retried) => (if retried then 1 else 2) - (if q.phase == Closing(false) then 1 else 0)
    case Returned => 1
    case Threw => 0
  }

  lemma PatienceStep<T>(s: System<T>, a: Action<T>)
    requires Inv(s) && Enabled(s, a) && !s.queue.flush.NotCalled?
    ensures var q := Step(s, a).queue;
      && !q.flush.NotCalled? && (s.queue.flush.Returned? ==> q.flush.Returned?)
      && (q.flush.Returned? || Patience(q) + (if a.Fail? then 1 else 0) >= Patience(s.queue))
  {
  }

  lemma {:induction false} PatienceLasts<T>(s: System<T>, acts: seq<Action<T>>)
    requires Inv(s) && IsRun(s, acts) && !s.queue.flush.NotCalled? && After(s, acts).queue.flush.Threw?
    ensures FailuresAfterFlush(s, acts) >= Patience(s.queue) && !s.queue.flush.Returned?
    decreases |acts|
  {
    if acts != [] {
      StepKeeps(s, acts[0]);
      PatienceStep(s, acts[0]);
      PatienceLasts(Step(s, acts[0]), acts[1..]);
    }
  }

  /** `flushAll` throws only after two failures seen by it, or one when it joined a failed pump. */
  lemma ThrowNeedsFailures<T>(s: System<T>, bodies: seq<T>, acts: seq<Action<T>>)
    requires Inv(s) && Enabled(s, Flush(bodies)) && IsRun(Step(s, Flush(bodies)), acts)
    requires After(Step(s, Flush(bodies)), acts).queue.flush.Threw?
    ensures FailuresAfterFlush(Step(s, Flush(bodies)), acts) >= if s.queue.phase == Closing(false) then 1 else 2
  {
    StepKeeps(s, Flush(bodies));
    PatienceLasts(Step(s, Flush(bodies)), acts);
  }

  /**
   * What the server has after a failed request and after a late arrival: nothing new if the
   * request was not applied, at least the whole batch if it was, and a late batch at last.
   */
  lemma ServerSees<T>(s: System<T>, applied: bool, i: nat)
    requires Inv(s)
    ensures s.queue.phase.InFlight? ==>
              var n := |Step(s, Fail(applied)).stream|;
              if applied then n >= s.acked + |s.queue.phase.batch| else n == |s.stream|
    ensures i < |s.strays| ==>
              exists from: nat :: StretchAt(s.drained, s.strays[i], s.acked, from)
                && |Step(s, ArriveLate(i)).stream| >= from + |s.strays[i]|
  {
    if s.queue.phase.InFlight? { BatchArrives(s); }
    if i < |s.strays| {
      var from: nat :| StretchAt(s.drained, s.strays[i], s.acked, from);
      StretchAccepted(s.base, s.drained, |s.stream|, from, |s.strays[i]|);
    }
  }

  /**
   * A persistent failure stays visible: the first failure of a waiting `flushAll` is tried again
   * at once with the same batch ahead, and the second one makes it throw, with nothing lost.
   */
  lemma SecondFailureThrows<T>(s: System<T>, applied: bool, again: bool)
    requires Inv(s) && s.queue.flush == Waiting(false) && s.queue.phase.InFlight?
    ensures var s1 := Step(s, Fail(applied));
      && Enabled(s1, Close) && Step(s1, Close).queue.flush == Waiting(true) && Step(s1, Close).queue.phase.InFlight?
      && var s2 := Step(Step(s1, Close), Fail(again));
      && Enabled(s2, Close) && Step(s2, Close).queue.flush.Threw?
      && Contents(Step(s2, Close).queue) == Contents(s.queue)
  {
    var s1 := Step(s, Fail(applied));
    StepKeeps(s, Fail(applied));
    assert Contents(s1.queue) == Contents(s.queue);
    ClosedKeeps(s1.queue);
    var r := Step(s1, Close);
    StepKeeps(s1, Close);
    var s2 := Step(r, Fail(again));
    assert Contents(s2.queue) == Contents(r.queue);
    ClosedKeeps(s2.queue);
  }

  /** No request fails and none arrives late. */
  predicate Smooth<T>(acts: seq<Action<T>>) {
    forall i | 0 <= i < |acts| :: acts[i].Acknowledge? || acts[i].Close?
  }

  /** `flushAll` is under way and has a failure to spare. */
  predicate MayFinish<T(==)>(q: Queue<T>) {
    q.flush.Waiting? && !q.phase.Idle? && !(q.phase == Closing(false) && q.flush.retried)
  }

  lemma CloseAdvances<T>(s: System<T>)
    requires Inv(s) && MayFinish(s.queue) && s.queue.phase.Closing?
    ensures var q := Step(s, Close).queue;
      q.flush.Returned? || (MayFinish(q) && q.phase.InFlight? && Contents(q) == Contents(s.queue))
  {
    var idle := s.queue.(phase := Idle);
    assert Contents(idle) == Contents(s.queue);
    PumpedKeeps(idle);
  }

  lemma OneMoreSmooth<T>(s: System<T>, a: Action<T>, rest: seq<Action<T>>)
    requires Enabled(s, a) && (a.Acknowledge? || a.Close?) && IsRun(Step(s, a), rest) && Smooth(rest)
    ensures Smooth([a] + rest) && IsRun(s, [a] + rest) && After(s, [a] + rest) == After(Step(s, a), rest)
  {
    assert ([a] + rest)[1..] == rest;
  }

  /** Without further failures `flushAll` returns, one acknowledgement per batch. */
  lemma {:induction false} FlushAllReturns<T>(s: System<T>) returns (acts: seq<Action<T>>)
    requires Inv(s) && MayFinish(s.queue)
    ensures Smooth(acts) && IsRun(s, acts) && After(s, acts).queue.flush.Returned?
    decreases |Contents(s.queue)|, if s.queue.phase.Closing? then 1 else 0
  {
    var a: Action<T> := if s.queue.phase.Closing? then Close else Acknowledge;
    var s' := Step(s, a);
    StepKeeps(s, a);
    var rest: seq<Action<T>> := [];
    if s.queue.phase.Closing? {
      CloseAdvances(s);
      if !s'.queue.flush.Returned? { rest := FlushAllReturns(s'); }
    } else {
      assert Contents(s'.queue) == s.queue.pending;
      rest := FlushAllReturns(s');
    }
    OneMoreSmooth(s, a, rest);
    acts := [a] + rest;
  }
}
