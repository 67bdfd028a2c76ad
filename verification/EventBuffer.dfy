/** The event buffer of one run: session broadcasts in, numbered run events out. */
module EventBuffer {
  import opened Common
  import opened CodePoints
  import opened Flusher

  const MAX_PROSE_FRAGMENT := 2000

  const FETCH_TOOL := "familygraph.fetch_approved_page"

  datatype Citation = Citation(url: string, title: string, excerpt: string, fetchedAt: string)

  datatype Body =
    | RunStarted
    | TurnStarted
    | TurnCompleted
    | AssistantAdded(text: Text, webCitations: seq<Citation>)
    | TextDelta(delta: Text)
    | TextReset
    | ToolStarted(callId: string, tool: string)
    | ToolCompleted(callId: string, tool: string, isError: bool)
    | RunCompacted

  datatype SessionEvent =
    | AgentStart
    | AgentSettled
    | TurnStart
    | TurnEnd
    | MessageEnd(assistant: bool, text: Text)
    | MessageUpdate(delta: Option<Text>)
    | AutoRetryStart
    | ToolStart(callId: string, tool: string)
    | ToolEnd(callId: string, tool: string, isError: bool, citation: Option<Citation>)
    | CompactionStart(now: real)
    | CompactionEnd(now: real)
    | Unmapped

  /** Events that carry conversation; the server refuses them for a run that has none. */
  predicate IsMessage(b: Body) {
    b.AssistantAdded? || b.TextDelta? || b.TextReset?
  }

  /** What the buffer remembers besides prose. */
  datatype Ledger = Ledger(citations: seq<Citation>, agentStarted: bool, compactionStart: Option<real>,
      compactionMs: real)

  datatype Buffer = Buffer(nextSeq: nat, pending: seq<Event<Body>>, prose: Text, ledger: Ledger)

  function Mapped(e: SessionEvent): Option<Body> {
    match e
    case AgentStart => Some(RunStarted)
    case TurnStart => Some(TurnStarted)
    case TurnEnd => Some(TurnCompleted)
    case MessageEnd(assistant, text) => if assistant && text != [] then Some(AssistantAdded(text, [])) else None
    case AutoRetryStart => Some(TextReset)
    case ToolStart(id, tool) => Some(ToolStarted(id, tool))
    case ToolEnd(id, tool, isError, _) => Some(ToolCompleted(id, tool, isError))
    case _ => None
  }

  /** Citations collected and compaction time added up, before the event is mapped. */
  function Noted(k: Ledger, e: SessionEvent): Ledger {
    match e
    case ToolEnd(_, tool, _, citation) =>
      if tool == FETCH_TOOL && citation.Some? then k.(citations := k.citations + [citation.value]) else k
    case AgentStart => k.(agentStarted := true)
    case CompactionStart(now) => k.(compactionStart := Some(now))
    case CompactionEnd(now) =>
      if k.compactionStart.None? then k
      else
        var elapsed := now - k.compactionStart.value;
        k.(compactionStart := None,
           compactionMs := if k.agentStarted && elapsed > 0.0 then k.compactionMs + elapsed else k.compactionMs)
    case _ => k
  }

  predicate Publishable(publishes: bool, b: Option<Body>) {
    b.Some? && (publishes || !IsMessage(b.value))
  }

  /** The event that a broadcast maps to; an assistant message takes the citations with it. */
  function Boundary(publishes: bool, k: Ledger, e: SessionEvent): (Ledger, seq<Body>) {
    var compacted := if e.AgentSettled? && k.compactionMs > 0.0 then [RunCompacted] else [];
    var b := Mapped(e);
    if !Publishable(publishes, b) then (k, compacted)
    else if b.value.AssistantAdded? && k.citations != [] then
      (k.(citations := []), compacted + [b.value.(webCitations := k.citations)])
    else (k, compacted + [b.value])
  }

  /** Coalesced prose as fragments, or nothing for a run that publishes no conversation. */
  function Deltas(publishes: bool, prose: Text): seq<Body> {
    if publishes then AsDeltas(Fragments(Points(prose), MAX_PROSE_FRAGMENT)) else []
  }

  function AsDeltas(fragments: seq<Text>): seq<Body> {
    seq(|fragments|, i requires 0 <= i < |fragments| => TextDelta(fragments[i]))
  }

  function Grown(prose: Text, e: SessionEvent): Text {
    match e
    case TurnStart => []
    case AutoRetryStart => []
    case MessageUpdate(delta) => if delta.Some? then prose + delta.value else prose
    case _ => prose
  }

  /** Prose stays coalesced only across message updates, and only below the fragment size. */
  predicate Flushes(prose: Text, e: SessionEvent) {
    if e.MessageUpdate? then e.delta.Some? && e.delta.value != [] && |prose| >= MAX_PROSE_FRAGMENT else prose != []
  }

  /** New prose, new ledger, and the events produced. */
  function Fed(publishes: bool, prose: Text, k: Ledger, e: SessionEvent): (Text, Ledger, seq<Body>) {
    var grown := Grown(prose, e);
    var (k', events) := Boundary(publishes, Noted(k, e), e);
    if Flushes(grown, e) then ([], k', Deltas(publishes, grown) + events) else (grown, k', events)
  }

  function Pushed(b: Buffer, bodies: seq<Body>): Buffer {
    b.(nextSeq := b.nextSeq + |bodies|, pending := b.pending + Numbered(b.nextSeq, bodies))
  }

  function FlushedBuffer(publishes: bool, b: Buffer): Buffer {
    Pushed(b, Deltas(publishes, b.prose)).(prose := [])
  }

  function WithProse(publishes: bool, b: Buffer, e: SessionEvent): Buffer {
    var grown := b.(prose := Grown(b.prose, e));
    if Flushes(grown.prose, e) then FlushedBuffer(publishes, grown) else grown
  }

  function WithBoundary(publishes: bool, b: Buffer, e: SessionEvent): Buffer {
    var (k, events) := Boundary(publishes, b.ledger, e);
    Pushed(b, events).(ledger := k)
  }

  function FedBuffer(publishes: bool, b: Buffer, e: SessionEvent): Buffer {
    WithBoundary(publishes, WithProse(publishes, b.(ledger := Noted(b.ledger, e)), e), e)
  }

  /** Feeding one event appends exactly the events that `Fed` says. */
  lemma FedBufferPushes(publishes: bool, b: Buffer, e: SessionEvent)
    ensures var (prose, k, bodies) := Fed(publishes, b.prose, b.ledger, e);
      FedBuffer(publishes, b, e) == Pushed(b, bodies).(prose := prose, ledger := k)
  {
    var grown := Grown(b.prose, e);
    PushedTwice(b, Deltas(publishes, grown), Boundary(publishes, Noted(b.ledger, e), e).1);
  }

  function NewBuffer(startSeq: int): Buffer {
    Buffer(if startSeq >= 0 then startSeq else 1, [], [], Ledger([], false, None, 0.0))
  }

  lemma PushedTwice(b: Buffer, x: seq<Body>, y: seq<Body>)
    ensures Pushed(Pushed(b, x), y) == Pushed(b, x + y)
  {
    assert Numbered(b.nextSeq, x + y) == Numbered(b.nextSeq, x) + Numbered(b.nextSeq + |x|, y);
  }

  /** The fragment loop moves on by one fragment. */
  lemma NextFragment(points: seq<Text>, start: nat, sent: seq<Text>)
    requires start < |points|
    ensures var end := start + Chunk(points[start..], MAX_PROSE_FRAGMENT);
      && start < end <= |points|
      && sent + Fragments(points[start..], MAX_PROSE_FRAGMENT)
         == (sent + [Join(points[start..end])]) + Fragments(points[end..], MAX_PROSE_FRAGMENT)
  {
    var end := start + Chunk(points[start..], MAX_PROSE_FRAGMENT);
    assert points[start..][..end - start] == points[start..end] && points[start..][end - start..] == points[end..];
  }

  lemma PushedDelta(b: Buffer, sent: seq<Text>, delta: Text)
    ensures Pushed(Pushed(b, AsDeltas(sent)), [TextDelta(delta)]) == Pushed(b, AsDeltas(sent + [delta]))
  {
    PushedTwice(b, AsDeltas(sent), [TextDelta(delta)]);
    assert AsDeltas(sent) + [TextDelta(delta)] == AsDeltas(sent + [delta]);
  }

  /** The queue has only grown, by consecutive numbers, and by no message if the run is silent. */
  ghost predicate Extends(publishes: bool, b: Buffer, b': Buffer) {
    && |b.pending| <= |b'.pending| && b'.pending[..|b.pending|] == b.pending
    && b'.nextSeq == b.nextSeq + (|b'.pending| - |b.pending|)
    && forall i | |b.pending| <= i < |b'.pending| ::
         && b'.pending[i].seqNo == b.nextSeq + (i - |b.pending|)
         && (publishes || !IsMessage(b'.pending[i].body))
  }

  lemma FedExtends(publishes: bool, b: Buffer, e: SessionEvent)
    ensures Extends(publishes, b, FedBuffer(publishes, b, e))
    ensures |b.prose| < MAX_PROSE_FRAGMENT ==> |FedBuffer(publishes, b, e).prose| < MAX_PROSE_FRAGMENT
  {
    FedBufferPushes(publishes, b, e);
    var bodies := Fed(publishes, b.prose, b.ledger, e).2;
    assert publishes || forall x <- bodies :: !IsMessage(x);
    var b' := FedBuffer(publishes, b, e);
    forall i | |b.pending| <= i < |b'.pending|
      ensures b'.pending[i] == Event(b.nextSeq + (i - |b.pending|), bodies[i - |b.pending|])
    {
    }
  }

  class RunEventBuffer {
    const publishesConversation: bool
    var nextSeq: nat
    var pending: seq<Event<Body>>
    var prosePending: Text
    var ledger: Ledger

    ghost function State(): Buffer
      reads this
    {
      Buffer(nextSeq, pending, prosePending, ledger)
    }

    constructor (startSeq: int, publishesConversation: bool)
      ensures State() == NewBuffer(startSeq) && this.publishesConversation == publishesConversation
    {
      this.publishesConversation := publishesConversation;
      nextSeq := if startSeq >= 0 then startSeq else 1;
      pending, prosePending, ledger := [], [], Ledger([], false, None, 0.0);
    }

    method Push(body: Body)
      modifies this`nextSeq, this`pending
      ensures State() == Pushed(old(State()), [body])
    {
      pending := pending + [Event(nextSeq, body)];
      nextSeq := nextSeq + 1;
    }

    method FlushProse()
      modifies this`nextSeq, this`pending, this`prosePending
      ensures State() == FlushedBuffer(publishesConversation, old(State()))
    {
      if |prosePending| == 0 {
        return;
      }
      var prose := prosePending;
      prosePending := [];
      if !publishesConversation {
        return;
      }
      var points := Points(prose);
      var start := 0;
      ghost var b := State();
      ghost var sent: seq<Text> := [];
      assert points[0..] == points;
      while start < |points|
        invariant start <= |points|
        invariant sent + Fragments(points[start..], MAX_PROSE_FRAGMENT) == Fragments(points, MAX_PROSE_FRAGMENT)
        invariant State() == Pushed(b, AsDeltas(sent))
      {
        var end := start + Chunk(points[start..], MAX_PROSE_FRAGMENT);
        var delta := Join(points[start..end]);
        NextFragment(points, start, sent);
        PushedDelta(b, sent, delta);
        Push(TextDelta(delta));
        sent := sent + [delta];
        start := end;
      }
    }

    /** Coalesces prose and, at a sequencing boundary, numbers it before the boundary event. */
    method TakeProse(e: SessionEvent)
      modifies this`nextSeq, this`pending, this`prosePending
      ensures State() == WithProse(publishesConversation, old(State()), e)
    {
      match e {
        case TurnStart => prosePending := [];
        case AutoRetryStart => prosePending := [];
        case MessageUpdate(delta) =>
          if delta.Some? && |delta.value| > 0 {
            prosePending := prosePending + delta.value;
            if |prosePending| >= MAX_PROSE_FRAGMENT {
              FlushProse();
            }
          }
        case _ =>
      }
      if |prosePending| > 0 && !e.MessageUpdate? {
        FlushProse();
      }
    }

    method EmitBoundary(e: SessionEvent)
      modifies this`nextSeq, this`pending, this`ledger
      ensures State() == WithBoundary(publishesConversation, old(State()), e)
    {
      ghost var b := State();
      var mapped := Mapped(e);
      ghost var compacted: seq<Body> := [];
      if e.AgentSettled? && ledger.compactionMs > 0.0 {
        Push(RunCompacted);
        compacted := [RunCompacted];
      }
      if Publishable(publishesConversation, mapped) {
        var body := mapped.value;
        if body.AssistantAdded? && ledger.citations != [] {
          body := body.(webCitations := ledger.citations);
          ledger := ledger.(citations := []);
        }
        Push(body);
        PushedTwice(b, compacted, [body]);
      }
    }

    /**
     * One broadcast. What was queued stays, what is added is numbered on without a gap, held-back
     * prose stays below the fragment size, and a silent run queues no message.
     */
    method OnSessionEvent(e: SessionEvent) returns (count: nat)
      modifies this
      ensures State() == FedBuffer(publishesConversation, old(State()), e)
      ensures Extends(publishesConversation, old(State()), State())
      ensures |old(prosePending)| < MAX_PROSE_FRAGMENT ==> |prosePending| < MAX_PROSE_FRAGMENT
      ensures count == if Mapped(e).Some? then 1 else 0
    {
      FedExtends(publishesConversation, State(), e);
      ledger := Noted(ledger, e);
      TakeProse(e);
      EmitBoundary(e);
      count := if Mapped(e).Some? then 1 else 0;
    }

    method Drain() returns (out: seq<Event<Body>>)
      modifies this`nextSeq, this`pending, this`prosePending
      ensures out == FlushedBuffer(publishesConversation, old(State())).pending
      ensures State() == FlushedBuffer(publishesConversation, old(State())).(pending := [])
    {
      FlushProse();
      out := pending;
      pending := [];
    }
  }
}
