/**
 * The serialized send queue of one run. A batch leaves the queue when it is sent and returns to
 * its head when the append fails. Each method is the code between two awaits.
 */
module Flusher {

  datatype Event<T> = Event(seqNo: nat, body: T)

  /** Events numbered from `from` on, as the event buffer hands them out. */
  function Numbered<T>(from: nat, bodies: seq<T>): seq<Event<T>> {
    seq(|bodies|, i requires 0 <= i < |bodies| => Event(from + i, bodies[i]))
  }

  /** `Closing` is the instant between the pump loop's end and the reset of the pump promise. */
  datatype Phase<T> = Idle | InFlight(batch: seq<Event<T>>) | Closing(ok: bool)

  datatype FlushAllState = NotCalled | Waiting(retried: bool) | Returned | Threw

  datatype Queue<T> = Queue(batchSize: nat, pending: seq<Event<T>>, phase: Phase<T>, flush: FlushAllState)

  function Min(a: nat, b: nat): nat { if a <= b then a else b }

  /** Head of the pump loop: send the next batch, or end. */
  function NextBatch<T>(q: Queue<T>): Queue<T> {
    var n := Min(q.batchSize, |q.pending|);
    if q.pending != [] then q.(phase := InFlight(q.pending[..n]), pending := q.pending[n..])
    else q.(phase := Closing(true))
  }

  function Pumped<T>(q: Queue<T>): Queue<T> {
    if q.phase.Idle? then NextBatch(q) else q
  }

  function Ticked<T>(q: Queue<T>, drained: seq<Event<T>>): Queue<T> {
    Pumped(q.(pending := q.pending + drained))
  }

  function Reinserted<T>(q: Queue<T>): Queue<T>
    requires q.phase.InFlight?
  {
    q.(pending := q.phase.batch + q.pending, phase := Closing(false))
  }

  /** Head of the `flushAll` loop. */
  function FlushLoop<T>(q: Queue<T>, retried: bool): Queue<T> {
    if q.pending == [] && q.phase.Idle? then q.(flush := Returned) else Pumped(q).(flush := Waiting(retried))
  }

  /** The pump promise settles; `flushAll`, if it waits, gives one failure a second chance. */
  function Closed<T>(q: Queue<T>): Queue<T>
    requires q.phase.Closing?
  {
    var idle := q.(phase := Idle);
    if !q.flush.Waiting? then idle
    else if q.phase.ok then FlushLoop(idle, q.flush.retried)
    else if q.flush.retried then idle.(flush := Threw)
    else FlushLoop(idle, true)
  }

  function FlushCalled<T>(q: Queue<T>, drained: seq<Event<T>>): Queue<T> {
    FlushLoop(q.(pending := q.pending + drained), false)
  }

  /** What the run has still to get acknowledged, in order: the batch in flight, then the queue. */
  function Contents<T>(q: Queue<T>): seq<Event<T>> {
    Sent(q) + q.pending
  }

  function Sent<T>(q: Queue<T>): seq<Event<T>> {
    if q.phase.InFlight? then q.phase.batch else []
  }

  lemma NextBatchKeeps<T>(q: Queue<T>)
    ensures Contents(NextBatch(q)) == q.pending
    ensures NextBatch(q).phase.InFlight? <==> q.pending != []
  {
  }

  /** Whether the pump goes on, ends or throws, nothing leaves the queue and nothing changes place. */
  lemma ClosedKeeps<T>(q: Queue<T>)
    requires q.phase.Closing?
    ensures Contents(Closed(q)) == Contents(q) && Closed(q).batchSize == q.batchSize
    ensures Closed(q).phase.InFlight? ==> Closed(q) == NextBatch(q).(flush := Closed(q).flush)
  {
    NextBatchKeeps(q);
  }

  /** `flushAll` returns only with nothing left, and throws exactly on a failure that it has already retried. */
  lemma ClosedFlush<T>(q: Queue<T>)
    requires q.phase.Closing?
    ensures Closed(q).flush.Returned? ==> q.flush.Returned? || (Closed(q).phase.Idle? && Contents(q) == [])
    ensures Closed(q).flush.Threw? <==> q.flush.Threw? || (q.flush == Waiting(true) && !q.phase.ok)
  {
  }

  class EventFlusher<T> {
    const batchSize: nat
    var pending: seq<Event<T>>
    var phase: Phase<T>
    var flush: FlushAllState

    ghost function State(): Queue<T>
      reads this
    {
      Queue(batchSize, pending, phase, flush)
    }

    constructor (batchSize: nat)
      ensures State() == Queue(batchSize, [], Idle, NotCalled)
    {
      this.batchSize, pending, phase, flush := batchSize, [], Idle, NotCalled;
    }

    method LoopHead()
      modifies this`pending, this`phase
      ensures State() == NextBatch(old(State()))
    {
      if |pending| > 0 {
        var n := Min(batchSize, |pending|);
        phase := InFlight(pending[..n]);
        pending := pending[n..];
      } else {
        phase := Closing(true);
      }
    }

    /**
     * At most one pump runs: a call while one is running joins it. Otherwise the head of the
     * queue goes into flight, and nothing is lost or moved by that.
     */
    method Pump()
      modifies this`pending, this`phase
      ensures State() == Pumped(old(State()))
      ensures Contents(State()) == Contents(old(State()))
      ensures old(phase).Idle? ==> (phase.InFlight? <==> old(pending) != []) && !phase.Idle?
      ensures old(phase).Idle? && phase.InFlight? ==>
        |phase.batch| <= batchSize && old(pending) == phase.batch + pending
    {
      if phase.Idle? {
        NextBatchKeeps(State());
        LoopHead();
      }
    }

    /** The drained events go behind what is left, and an idle pump starts on whatever there is. */
    method Tick(drained: seq<Event<T>>)
      modifies this`pending, this`phase
      ensures State() == Ticked(old(State()), drained)
      ensures Contents(State()) == Contents(old(State())) + drained
      ensures old(phase).Idle? ==> !phase.Idle? && (phase.InFlight? <==> old(pending) + drained != [])
      ensures !old(phase).Idle? ==> phase == old(phase)
    {
      ghost var fed := State().(pending := pending + drained);
      assert Contents(fed) == Contents(State()) + drained;
      pending := pending + drained;
      Pump();
    }

    /** What is left is what was left before, less the acknowledged batch at its head. */
    method AppendSucceeded()
      requires phase.InFlight?
      modifies this`pending, this`phase
      ensures State() == NextBatch(old(State()))
      ensures Contents(old(State())) == old(phase).batch + Contents(State())
    {
      NextBatchKeeps(State());
      LoopHead();
    }

    /** The failed batch is again ahead of everything that was queued behind it. */
    method AppendFailed()
      requires phase.InFlight?
      modifies this`pending, this`phase
      ensures State() == Reinserted(old(State()))
      ensures pending == Contents(State()) == Contents(old(State()))
    {
      pending := phase.batch + pending;
      phase := Closing(false);
    }

    method FlushHead(retried: bool)
      modifies this
      ensures State() == FlushLoop(old(State()), retried)
    {
      if |pending| > 0 || !phase.Idle? {
        Pump();
        flush := Waiting(retried);
      } else {
        flush := Returned;
      }
    }

    /** A waiting `flushAll` returns only with nothing left, and throws exactly on a second failure. */
    method PumpClosed()
      requires phase.Closing?
      modifies this
      ensures State() == Closed(old(State()))
      ensures Contents(State()) == Contents(old(State()))
      ensures flush.Returned? && !old(flush).Returned? ==> phase.Idle? && Contents(State()) == []
      ensures flush.Threw? <==> old(flush).Threw? || (old(flush) == Waiting(true) && !old(phase).ok)
    {
      ClosedKeeps(State());
      ClosedFlush(State());
      var ok := phase.ok;
      phase := Idle;
      if flush.Waiting? {
        if ok {
          FlushHead(flush.retried);
        } else if flush.retried {
          flush := Threw;
        } else {
          FlushHead(true);
        }
      }
    }

    /** The drained events go behind what is left; the call returns at once exactly if nothing is. */
    method FlushAll(drained: seq<Event<T>>)
      modifies this
      ensures State() == FlushCalled(old(State()), drained)
      ensures Contents(State()) == Contents(old(State())) + drained
      ensures flush.Returned? <==> old(phase).Idle? && Contents(State()) == []
      ensures !flush.Returned? ==> flush == Waiting(false) && !phase.Idle?
    {
      ghost var fed := State().(pending := pending + drained);
      assert Contents(fed) == Contents(State()) + drained;
      NextBatchKeeps(fed);
      pending := pending + drained;
      FlushHead(false);
    }
  }
}
