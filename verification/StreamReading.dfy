/**
 * What a reader of the run's events sees, compared with a stream that has one event per
 * received delta.
 */
module StreamReading {
  import opened Common
  import opened CodePoints
  import opened Flusher
  import opened EventBuffer
  import Delivery

  // ------------------------------------------------------------------
  // The reader and the reference stream
  // ------------------------------------------------------------------

  /** Provisional text on display, and every other event with the text standing after it. */
  datatype View = View(text: Text, log: seq<(Body, Text)>)

  function See(v: View, b: Body): View {
    match b
    case TextDelta(delta) => v.(text := v.text + delta)
    case TextReset => View([], v.log + [(b, [])])
    case TurnStarted => View([], v.log + [(b, [])])
    case _ => v.(log := v.log + [(b, v.text)])
  }

  function Read(v: View, bodies: seq<Body>): View {
    if bodies == [] then v else See(Read(v, bodies[..|bodies| - 1]), bodies[|bodies| - 1])
  }

  /** The reference: nothing is coalesced, each non-empty delta is an event at once. */
  function Direct(publishes: bool, k: Ledger, e: SessionEvent): (Ledger, seq<Body>) {
    var (k', events) := Boundary(publishes, Noted(k, e), e);
    (k', (if publishes && e.MessageUpdate? && e.delta.Some? && e.delta.value != [] then [TextDelta(e.delta.value)]
        else []) + events)
  }

  function DirectStream(publishes: bool, k: Ledger, events: seq<SessionEvent>): (Ledger, seq<Body>) {
    if events == [] then (k, [])
    else
      var (k1, before) := DirectStream(publishes, k, events[..|events| - 1]);
      var (k2, last) := Direct(publishes, k1, events[|events| - 1]);
      (k2, before + last)
  }

  /** The worker's use of the buffer: session events with drains anywhere in between. */
  datatype Use = Feed(e: SessionEvent) | Drain

  function Fold(uses: seq<Use>): seq<SessionEvent> {
    if uses == [] then []
    else
      var last := uses[|uses| - 1];
      Fold(uses[..|uses| - 1]) + if last.Feed? then [last.e] else []
  }

  /** The buffer, and everything drained from it so far. */
  function Used(publishes: bool, b: Buffer, uses: seq<Use>): (Buffer, seq<Event<Body>>) {
    if uses == [] then (b, [])
    else
      var (b1, out) := Used(publishes, b, uses[..|uses| - 1]);
      match uses[|uses| - 1]
      case Feed(e) => (FedBuffer(publishes, b1, e), out)
      case Drain =>
        var flushed := FlushedBuffer(publishes, b1);
        (flushed.(pending := []), out + flushed.pending)
  }

  // ------------------------------------------------------------------
  // Reading
  // ------------------------------------------------------------------

  lemma {:induction false} ReadConcat(v: View, a: seq<Body>, b: seq<Body>)
    ensures Read(v, a + b) == Read(Read(v, a), b)
  {
    if b == [] {
      assert a + b == a;
    } else {
      assert (a + b)[..|a + b| - 1] == a + b[..|b| - 1];
      ReadConcat(v, a, b[..|b| - 1]);
    }
  }

  lemma {:induction false} ReadDeltas(v: View, fragments: seq<Text>)
    ensures Read(v, AsDeltas(fragments)) == v.(text := v.text + Join(fragments))
  {
    if fragments != [] {
      var n := |fragments| - 1;
      ReadDeltas(v, fragments[..n]);
      assert AsDeltas(fragments)[..n] == AsDeltas(fragments[..n]);
      var last: seq<Text> := [fragments[n]];
      JoinConcat(fragments[..n], last);
      assert fragments[..n] + last == fragments;
      assert Join(last[1..]) == [];
    }
  }

  /** Coalesced prose adds to the text on display exactly its own characters. */
  lemma ReadProse(v: View, prose: Text)
    ensures Read(v, Deltas(true, prose)) == v.(text := v.text + prose)
  {
    ReadDeltas(v, Fragments(Points(prose), MAX_PROSE_FRAGMENT));
    FragmentsJoin(Points(prose), MAX_PROSE_FRAGMENT);
    JoinPoints(prose);
  }

  /** `ahead` is the reference reader, `behind` still lacks the prose held back. */
  ghost predicate Lags(behind: View, prose: Text, ahead: View) {
    ahead.log == behind.log && ahead.text == behind.text + prose
  }

  lemma BoundaryShape(publishes: bool, k: Ledger, e: SessionEvent)
    ensures |Boundary(publishes, k, e).1| <= 1
    ensures forall b <- Boundary(publishes, k, e).1 :: !b.TextDelta?
    ensures e.MessageUpdate? ==> Boundary(publishes, k, e).1 == []
    ensures publishes && (e.TurnStart? || e.AutoRetryStart?) ==>
              Boundary(publishes, k, e).1 == [if e.TurnStart? then TurnStarted else TextReset]
  {
  }

  lemma ReadOne(v: View, b: Body)
    ensures Read(v, [b]) == See(v, b)
  {
    assert Read(v, [b][..0]) == v;
  }

  /** Both readers take the same boundary event from the same text. */
  lemma BoundaryAgrees(k: Ledger, e: SessionEvent, v: View, dropped: Text)
    requires dropped == [] || e.TurnStart? || e.AutoRetryStart?
    ensures var events := Boundary(true, k, e).1;
      Read(v, events) == Read(v.(text := v.text + dropped), events)
  {
    BoundaryShape(true, k, e);
    if dropped == [] {
      assert v.text + dropped == v.text;
    } else {
      var clears := if e.TurnStart? then TurnStarted else TextReset;
      ReadOne(v, clears);
      ReadOne(v.(text := v.text + dropped), clears);
    }
  }

  lemma FeedKeepsLag(prose: Text, k: Ledger, e: SessionEvent, behind: View, ahead: View)
    requires Lags(behind, prose, ahead)
    ensures var (prose', k', out) := Fed(true, prose, k, e); var (k'', out') := Direct(true, k, e);
      k' == k'' && Lags(Read(behind, out), prose', Read(ahead, out'))
  {
    var grown := Grown(prose, e);
    var events := Boundary(true, Noted(k, e), e).1;
    BoundaryShape(true, Noted(k, e), e);
    ReadProse(behind, grown);
    ReadConcat(behind, Deltas(true, grown), events);
    if e.MessageUpdate? {
      if e.delta.Some? && e.delta.value != [] {
        assert [TextDelta(e.delta.value)] + events == [TextDelta(e.delta.value)];
        ReadOne(ahead, TextDelta(e.delta.value));
      }
      assert Deltas(true, grown) + events == Deltas(true, grown);
    } else {
      BoundaryAgrees(Noted(k, e), e, behind.(text := behind.text + grown), prose[|grown|..]);
    }
  }

  // ------------------------------------------------------------------
  // Whole runs
  // ------------------------------------------------------------------

  /** The ideal view of what has been fed so far. */
  function DirectView(v: View, k: Ledger, uses: seq<Use>): View {
    Read(v, DirectStream(true, k, Fold(uses)).1)
  }

  /** Bodies drained or still queued in the buffer, in the order of their numbers. */
  function Produced(publishes: bool, b: Buffer, uses: seq<Use>): seq<Body> {
    if uses == [] then []
    else
      var before := uses[..|uses| - 1];
      var b1 := Used(publishes, b, before).0;
      Produced(publishes, b, before) + match uses[|uses| - 1]
        case Feed(e) => Fed(publishes, b1.prose, b1.ledger, e).2
        case Drain => Deltas(publishes, b1.prose)
  }

  lemma PushedNumbers(from: nat, all: seq<Body>, out: seq<Event<Body>>, b: Buffer, more: seq<Body>)
    requires out + b.pending == Numbered(from, all) && b.nextSeq == from + |all|
    ensures out + Pushed(b, more).pending == Numbered(from, all + more)
  {
    assert out + Pushed(b, more).pending == (out + b.pending) + Numbered(b.nextSeq, more);
    assert Numbered(from, all + more) == Numbered(from, all) + Numbered(b.nextSeq, more);
  }

  /** Drained and queued events together are the produced bodies, numbered without gaps. */
  lemma {:induction false} BufferNumbers(publishes: bool, b: Buffer, uses: seq<Use>)
    requires b.pending == []
    ensures var (b', out) := Used(publishes, b, uses); var all := Produced(publishes, b, uses);
      out + b'.pending == Numbered(b.nextSeq, all) && b'.nextSeq == b.nextSeq + |all|
  {
    if uses != [] {
      var before := uses[..|uses| - 1];
      BufferNumbers(publishes, b, before);
      var (b1, out) := Used(publishes, b, before);
      var all := Produced(publishes, b, before);
      match uses[|uses| - 1]
      case Feed(e) =>
        FedBufferPushes(publishes, b1, e);
        PushedNumbers(b.nextSeq, all, out, b1, Fed(publishes, b1.prose, b1.ledger, e).2);
      case Drain =>
        PushedNumbers(b.nextSeq, all, out, b1, Deltas(publishes, b1.prose));
    }
  }

  lemma {:induction false} RunKeepsLag(b: Buffer, uses: seq<Use>, v: View)
    requires b.prose == []
    ensures var b' := Used(true, b, uses).0;
      && b'.ledger == DirectStream(true, b.ledger, Fold(uses)).0
      && Lags(Read(v, Produced(true, b, uses)), b'.prose, DirectView(v, b.ledger, uses))
  {
    if uses != [] {
      var before := uses[..|uses| - 1];
      RunKeepsLag(b, before, v);
      var b1 := Used(true, b, before).0;
      var behind := Read(v, Produced(true, b, before));
      match uses[|uses| - 1]
      case Feed(e) =>
        var (k1, direct) := DirectStream(true, b.ledger, Fold(before));
        assert Fold(uses)[..|Fold(uses)| - 1] == Fold(before);
        FedBufferPushes(true, b1, e);
        FeedKeepsLag(b1.prose, b1.ledger, e, behind, Read(v, direct));
        ReadConcat(v, Produced(true, b, before), Fed(true, b1.prose, b1.ledger, e).2);
        ReadConcat(v, direct, Direct(true, k1, e).1);
      case Drain =>
        assert Fold(uses) == Fold(before);
        ReadProse(behind, b1.prose);
        ReadConcat(v, Produced(true, b, before), Deltas(true, b1.prose));
    }
  }

  /**
   * Prose refinement: for a publishing buffer, after any feeds and drains that end in a
   * drain, a reader of everything drained sees exactly what one event per received delta
   * would have shown it: the same text now, and the same text at every other event.
   */
  lemma DrainedShowsDirectView(startSeq: int, uses: seq<Use>, v: View)
    requires uses != [] && uses[|uses| - 1].Drain?
    ensures var b := NewBuffer(startSeq); var all := Produced(true, b, uses);
      && Used(true, b, uses).1 == Numbered(if startSeq < 0 then 1 else startSeq, all)
      && Read(v, all) == DirectView(v, b.ledger, uses)
  {
    BufferNumbers(true, NewBuffer(startSeq), uses);
    RunKeepsLag(NewBuffer(startSeq), uses, v);
  }

  /** Prose that is held back always stays below the fragment size, for either kind of run. */
  lemma {:induction false} RemainderStaysSmall(publishes: bool, b: Buffer, uses: seq<Use>)
    requires |b.prose| < MAX_PROSE_FRAGMENT
    ensures |Used(publishes, b, uses).0.prose| < MAX_PROSE_FRAGMENT
  {
    if uses != [] {
      RemainderStaysSmall(publishes, b, uses[..|uses| - 1]);
      if uses[|uses| - 1].Feed? {
        var b1 := Used(publishes, b, uses[..|uses| - 1]).0;
        FedBufferPushes(publishes, b1, uses[|uses| - 1].e);
      }
    }
  }

  ghost predicate SmallDeltas(bodies: seq<Body>) {
    forall b <- bodies :: b.TextDelta? ==> 0 < |Points(b.delta)| <= MAX_PROSE_FRAGMENT
  }

  lemma DeltasAreSmall(publishes: bool, prose: Text)
    ensures SmallDeltas(Deltas(publishes, prose))
  {
    JoinPoints(prose);
    FragmentsBounded(Points(prose), MAX_PROSE_FRAGMENT);
  }

  /** Every fragment a run ever produces has at least one and at most 2000 code points. */
  lemma {:induction false} FragmentsStaySmall(publishes: bool, b: Buffer, uses: seq<Use>)
    ensures SmallDeltas(Produced(publishes, b, uses))
  {
    if uses != [] {
      FragmentsStaySmall(publishes, b, uses[..|uses| - 1]);
      var b1 := Used(publishes, b, uses[..|uses| - 1]).0;
      DeltasAreSmall(publishes, b1.prose);
      if uses[|uses| - 1].Feed? {
        var e := uses[|uses| - 1].e;
        DeltasAreSmall(publishes, Grown(b1.prose, e));
        BoundaryShape(publishes, Noted(b1.ledger, e), e);
      }
    }
  }

  // ------------------------------------------------------------------
  // Runs that publish no conversation
  // ------------------------------------------------------------------

  function WithoutMessages(bodies: seq<Body>): seq<Body> {
    if bodies == [] then []
    else WithoutMessages(bodies[..|bodies| - 1]) + if IsMessage(bodies[|bodies| - 1]) then []
        else [bodies[|bodies| - 1]]
  }

  lemma {:induction false} WithoutConcat(a: seq<Body>, b: seq<Body>)
    ensures WithoutMessages(a + b) == WithoutMessages(a) + WithoutMessages(b)
  {
    if b == [] {
      assert a + b == a;
    } else {
      assert (a + b)[..|a + b| - 1] == a + b[..|b| - 1];
      WithoutConcat(a, b[..|b| - 1]);
    }
  }

  /** The ledgers agree on all but the citations, which only an assistant message consumes. */
  ghost predicate SameClock(k: Ledger, k': Ledger) {
    k.(citations := []) == k'.(citations := [])
  }

  lemma WithoutOne(b: Body)
    ensures WithoutMessages([b]) == if IsMessage(b) then [] else [b]
  {
    assert [b][..0] == [];
  }

  lemma SilentBoundary(k: Ledger, k': Ledger, e: SessionEvent)
    requires SameClock(k, k')
    ensures SameClock(Boundary(false, k, e).0, Boundary(true, k', e).0)
    ensures Boundary(false, k, e).1 == WithoutMessages(Boundary(true, k', e).1)
  {
    var out := Boundary(true, k', e).1;
    BoundaryShape(true, k', e);
    if |out| == 1 { WithoutOne(out[0]); }
  }

  lemma NotedKeepsClock(k: Ledger, k': Ledger, e: SessionEvent)
    requires SameClock(k, k')
    ensures SameClock(Noted(k, e), Noted(k', e))
  {
    assert k'.agentStarted == k.agentStarted && k'.compactionStart == k.compactionStart
        && k'.compactionMs == k.compactionMs;
  }

  lemma SilentStep(k: Ledger, k': Ledger, e: SessionEvent)
    requires SameClock(k, k')
    ensures var (s, out) := Boundary(false, Noted(k, e), e); var (d, out') := Direct(true, k', e);
      SameClock(s, d) && out == WithoutMessages(out')
  {
    NotedKeepsClock(k, k', e);
    SilentBoundary(Noted(k, e), Noted(k', e), e);
    BoundaryShape(true, Noted(k', e), e);
    if e.MessageUpdate? && e.delta.Some? {
      WithoutOne(TextDelta(e.delta.value));
    }
  }

  lemma {:induction false} NoMessagesLeft(bodies: seq<Body>)
    ensures forall b <- WithoutMessages(bodies) :: !IsMessage(b)
  {
    if bodies != [] { NoMessagesLeft(bodies[..|bodies| - 1]); }
  }

  /**
   * A run that publishes no conversation produces exactly the reference stream without its
   * message-class events, in the same order, and none of that class is left.
   */
  lemma {:induction false} SilentRunFilters(b: Buffer, k': Ledger, uses: seq<Use>)
    requires SameClock(b.ledger, k')
    ensures SameClock(Used(false, b, uses).0.ledger, DirectStream(true, k', Fold(uses)).0)
    ensures Produced(false, b, uses) == WithoutMessages(DirectStream(true, k', Fold(uses)).1)
    ensures forall x <- Produced(false, b, uses) :: !IsMessage(x)
  {
    NoMessagesLeft(DirectStream(true, k', Fold(uses)).1);
    if uses != [] {
      var before := uses[..|uses| - 1];
      SilentRunFilters(b, k', before);
      var b1 := Used(false, b, before).0;
      match uses[|uses| - 1]
      case Feed(e) =>
        var (k1, direct) := DirectStream(true, k', Fold(before));
        assert Fold(uses)[..|Fold(uses)| - 1] == Fold(before);
        FedBufferPushes(false, b1, e);
        SilentStep(b1.ledger, k1, e);
        WithoutConcat(direct, Direct(true, k1, e).1);
        assert Fed(false, b1.prose, b1.ledger, e).2 == Boundary(false, Noted(b1.ledger, e), e).1;
      case Drain =>
        assert Fold(uses) == Fold(before);
    }
  }

  // ------------------------------------------------------------------
  // Citations
  // ------------------------------------------------------------------

  function Collected(events: seq<SessionEvent>): seq<Citation> {
    if events == [] then []
    else
      var e := events[|events| - 1];
      Collected(events[..|events| - 1])
      + if e.ToolEnd? && e.tool == FETCH_TOOL && e.citation.Some? then [e.citation.value] else []
  }

  function Attached(bodies: seq<Body>): seq<Citation> {
    if bodies == [] then []
    else
      var b := bodies[|bodies| - 1];
      Attached(bodies[..|bodies| - 1]) + if b.AssistantAdded? then b.webCitations else []
  }

  lemma {:induction false} AttachedConcat(a: seq<Body>, b: seq<Body>)
    ensures Attached(a + b) == Attached(a) + Attached(b)
  {
    if b == [] {
      assert a + b == a;
    } else {
      assert (a + b)[..|a + b| - 1] == a + b[..|b| - 1];
      AttachedConcat(a, b[..|b| - 1]);
    }
  }

  lemma {:induction false} DeltasAttachNothing(fragments: seq<Text>)
    ensures Attached(AsDeltas(fragments)) == []
  {
    if fragments != [] {
      DeltasAttachNothing(fragments[..|fragments| - 1]);
      assert AsDeltas(fragments)[..|fragments| - 1] == AsDeltas(fragments[..|fragments| - 1]);
    }
  }

  lemma BoundaryAttaches(publishes: bool, k: Ledger, e: SessionEvent)
    ensures var (k', out) := Boundary(publishes, k, e); Attached(out) + k'.citations == k.citations
  {
    var out := Boundary(publishes, k, e).1;
    BoundaryShape(publishes, k, e);
    if |out| == 1 { assert out[..0] == []; }
  }

  lemma FeedAttaches(publishes: bool, prose: Text, k: Ledger, e: SessionEvent)
    ensures var (_, k', out) := Fed(publishes, prose, k, e); Attached(out) + k'.citations == Noted(k, e).citations
  {
    var grown := Grown(prose, e);
    BoundaryAttaches(publishes, Noted(k, e), e);
    DeltasAttachNothing(Fragments(Points(grown), MAX_PROSE_FRAGMENT));
    AttachedConcat(Deltas(publishes, grown), Boundary(publishes, Noted(k, e), e).1);
  }

  lemma CollectedNext(k: Ledger, events: seq<SessionEvent>, e: SessionEvent)
    ensures Noted(k, e).citations == k.citations + Collected([e])
    ensures Collected(events + [e]) == Collected(events) + Collected([e])
  {
    assert (events + [e])[..|events|] == events && [e][..0] == [];
  }

  lemma HandedOn(sent: seq<Citation>, held: seq<Citation>, start: seq<Citation>, got: seq<Citation>,
                 out: seq<Citation>, held': seq<Citation>, one: seq<Citation>)
    requires sent + held == start + got && out + held' == held + one
    ensures (sent + out) + held' == start + (got + one)
  {
    assert (sent + out) + held' == sent + (out + held');
    assert sent + (held + one) == (sent + held) + one;
    assert start + (got + one) == (start + got) + one;
  }

  /** What has been collected since the last answer that was published. */
  function HeldSince(publishes: bool, start: seq<Citation>, events: seq<SessionEvent>): seq<Citation> {
    if events == [] then start
    else
      var e := events[|events| - 1];
      if publishes && e.MessageEnd? && e.assistant && e.text != [] then []
      else HeldSince(publishes, start, events[..|events| - 1]) + Collected([e])
  }

  lemma HeldNext(publishes: bool, start: seq<Citation>, k: Ledger, events: seq<SessionEvent>, e: SessionEvent)
    requires k.citations == HeldSince(publishes, start, events)
    ensures Boundary(publishes, Noted(k, e), e).0.citations == HeldSince(publishes, start, events + [e])
  {
    CollectedNext(k, events, e);
  }

  /** Every published answer takes along all that is held; what is held is what came after the last one. */
  lemma {:induction false} AnswersTakeCitations(publishes: bool, b: Buffer, uses: seq<Use>)
    ensures Used(publishes, b, uses).0.ledger.citations == HeldSince(publishes, b.ledger.citations, Fold(uses))
  {
    if uses != [] {
      var before := uses[..|uses| - 1];
      AnswersTakeCitations(publishes, b, before);
      var b1 := Used(publishes, b, before).0;
      match uses[|uses| - 1]
      case Feed(e) =>
        FedBufferPushes(publishes, b1, e);
        HeldNext(publishes, b.ledger.citations, b1.ledger, Fold(before), e);
      case Drain =>
        assert Fold(uses) == Fold(before);
    }
  }

  /** Each collected citation travels with exactly one assistant message, in order, or is still held. */
  lemma {:induction false} CitationsConserved(publishes: bool, b: Buffer, uses: seq<Use>)
    ensures Attached(Produced(publishes, b, uses)) + Used(publishes, b, uses).0.ledger.citations
         == b.ledger.citations + Collected(Fold(uses))
  {
    if uses != [] {
      var before := uses[..|uses| - 1];
      CitationsConserved(publishes, b, before);
      var b1 := Used(publishes, b, before).0;
      var sent := Produced(publishes, b, before);
      match uses[|uses| - 1]
      case Feed(e) =>
        var (_, k', out) := Fed(publishes, b1.prose, b1.ledger, e);
        CollectedNext(b1.ledger, Fold(before), e);
        FedBufferPushes(publishes, b1, e);
        FeedAttaches(publishes, b1.prose, b1.ledger, e);
        AttachedConcat(sent, out);
        HandedOn(Attached(sent), b1.ledger.citations, b.ledger.citations, Collected(Fold(before)),
                 Attached(out), k'.citations, Collected([e]));
        assert Fold(uses) == Fold(before) + [e];
      case Drain =>
        DeltasAttachNothing(Fragments(Points(b1.prose), MAX_PROSE_FRAGMENT));
        AttachedConcat(sent, Deltas(publishes, b1.prose));
        assert Fold(uses) == Fold(before);
    }
  }

  // ------------------------------------------------------------------
  // Buffer and delivery together
  // ------------------------------------------------------------------

  /**
   * End to end: the drained events go through the send queue under any failures; once
   * `flushAll` returns, whoever reads the server's stream sees what one event per received
   * delta would have shown.
   */
  lemma DeliveredStreamShowsDirectView(startSeq: nat, batchSize: nat, uses: seq<Use>,
          acts: seq<Delivery.Action<Body>>, v: View)
    requires uses != [] && uses[|uses| - 1].Drain? && batchSize > 0
    requires Delivery.IsRun(Delivery.Start(batchSize, startSeq), acts)
    requires Numbered(startSeq, Delivery.Bodies(acts)) == Used(true, NewBuffer(startSeq), uses).1
    requires Delivery.After(Delivery.Start(batchSize, startSeq), acts).queue.flush.Returned?
    ensures var stream := Delivery.After(Delivery.Start(batchSize, startSeq), acts).stream;
      Read(v, seq(|stream|, i requires 0 <= i < |stream| => stream[i].body))
          == DirectView(v, NewBuffer(startSeq).ledger, uses)
  {
    Delivery.ReturnMeansDelivered(batchSize, startSeq, acts);
    DrainedShowsDirectView(startSeq, uses, v);
    var stream := Delivery.After(Delivery.Start(batchSize, startSeq), acts).stream;
    var all := Produced(true, NewBuffer(startSeq), uses);
    assert stream == Numbered(startSeq, all);
    assert seq(|stream|, i requires 0 <= i < |stream| => stream[i].body) == all;
  }
}
