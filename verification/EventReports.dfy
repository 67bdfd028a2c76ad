/**
 * Which broadcasts of a session a run reports: every start, end, answer, reset and tool call in
 * order and under its own data, and the compaction of the run only if time was spent on it.
 */
module EventReports {
  import opened Common
  import opened CodePoints
  import opened EventBuffer
  import opened StreamReading

  /** What one reported event tells, apart from prose under way. */
  datatype Mark =
    | RunBegan
    | TurnBegan
    | TurnEnded
    | Answered(text: Text)
    | Restarted
    | ToolBegan(callId: string, tool: string)
    | ToolEnded(callId: string, tool: string, isError: bool)
    | Compacted

  function MarkOf(b: Body): seq<Mark> {
    match b
    case RunStarted => [RunBegan]
    case TurnStarted => [TurnBegan]
    case TurnCompleted => [TurnEnded]
    case AssistantAdded(text, _) => [Answered(text)]
    case TextReset => [Restarted]
    case ToolStarted(id, tool) => [ToolBegan(id, tool)]
    case ToolCompleted(id, tool, isError) => [ToolEnded(id, tool, isError)]
    case RunCompacted => [Compacted]
    case TextDelta(_) => []
  }

  function Marks(bodies: seq<Body>): seq<Mark> {
    if bodies == [] then [] else Marks(bodies[..|bodies| - 1]) + MarkOf(bodies[|bodies| - 1])
  }

  // ------------------------------------------------------------------
  // What the session calls for
  // ------------------------------------------------------------------

  /** When the compaction that is under way after these events began. */
  function Open(events: seq<SessionEvent>): Option<real> {
    if events == [] then None
    else
      match events[|events| - 1]
      case CompactionStart(now) => Some(now)
      case CompactionEnd(_) => None
      case _ => Open(events[..|events| - 1])
  }

  /** Event `j` ends a compaction that took time, after the agent had started. */
  predicate SpanEnds(events: seq<SessionEvent>, j: nat)
    requires j < |events|
  {
    && events[j].CompactionEnd? && AgentStart in events[..j]
    && Open(events[..j]).Some? && Open(events[..j]).value < events[j].now
  }

  predicate SpentCompacting(events: seq<SessionEvent>) {
    exists j | 0 <= j < |events| :: SpanEnds(events, j)
  }

  /** What event `e` after `before` is to be reported as; a silent run reports no conversation. */
  function Due(publishes: bool, before: seq<SessionEvent>, e: SessionEvent): seq<Mark> {
    match e
    case AgentStart => [RunBegan]
    case AgentSettled => if SpentCompacting(before) then [Compacted] else []
    case TurnStart => [TurnBegan]
    case TurnEnd => [TurnEnded]
    case MessageEnd(assistant, text) => if publishes && assistant && text != [] then [Answered(text)] else []
    case AutoRetryStart => if publishes then [Restarted] else []
    case ToolStart(id, tool) => [ToolBegan(id, tool)]
    case ToolEnd(id, tool, isError, _) => [ToolEnded(id, tool, isError)]
    case _ => []
  }

  function DueAll(publishes: bool, events: seq<SessionEvent>): seq<Mark> {
    if events == [] then []
    else
      var before := events[..|events| - 1];
      DueAll(publishes, before) + Due(publishes, before, events[|events| - 1])
  }

  // ------------------------------------------------------------------
  // The ledger knows
  // ------------------------------------------------------------------

  ghost predicate Knows(k: Ledger, events: seq<SessionEvent>) {
    && (k.agentStarted <==> AgentStart in events)
    && k.compactionStart == Open(events)
    && k.compactionMs >= 0.0 && (k.compactionMs > 0.0 <==> SpentCompacting(events))
  }

  lemma SpentNext(events: seq<SessionEvent>, e: SessionEvent)
    ensures SpentCompacting(events + [e]) <==>
            SpentCompacting(events)
            || (e.CompactionEnd? && AgentStart in events && Open(events).Some? && Open(events).value < e.now)
  {
    var all := events + [e];
    assert all[..|events|] == events;
    forall j | 0 <= j < |events| ensures SpanEnds(all, j) <==> SpanEnds(events, j) {
      assert all[..j] == events[..j];
    }
    assert SpanEnds(all, |events|) <==>
           e.CompactionEnd? && AgentStart in events && Open(events).Some? && Open(events).value < e.now;
  }

  lemma KnowsNext(k: Ledger, events: seq<SessionEvent>, e: SessionEvent)
    requires Knows(k, events)
    ensures Knows(Noted(k, e), events + [e])
  {
    SpentNext(events, e);
    assert (events + [e])[..|events|] == events;
  }

  /** Taking the citations along changes nothing of that. */
  lemma BoundaryKnows(publishes: bool, k: Ledger, e: SessionEvent, events: seq<SessionEvent>)
    requires Knows(k, events)
    ensures Knows(Boundary(publishes, k, e).0, events)
  {
  }

  // ------------------------------------------------------------------
  // Reports
  // ------------------------------------------------------------------

  lemma {:induction false} MarksConcat(a: seq<Body>, b: seq<Body>)
    ensures Marks(a + b) == Marks(a) + Marks(b)
  {
    if b == [] {
      assert a + b == a;
    } else {
      var n := |b| - 1;
      MarksConcat(a, b[..n]);
      assert (a + b)[..|a| + n] == a + b[..n] && (a + b)[|a| + n] == b[n];
      assert Marks(a + b) == Marks(a + b[..n]) + MarkOf(b[n]);
      assert Marks(b) == Marks(b[..n]) + MarkOf(b[n]);
      assert (Marks(a) + Marks(b[..n])) + MarkOf(b[n]) == Marks(a) + (Marks(b[..n]) + MarkOf(b[n]));
    }
  }

  lemma {:induction false} DeltasUnmarked(fragments: seq<Text>)
    ensures Marks(AsDeltas(fragments)) == []
  {
    if fragments != [] {
      DeltasUnmarked(fragments[..|fragments| - 1]);
      assert AsDeltas(fragments)[..|fragments| - 1] == AsDeltas(fragments[..|fragments| - 1]);
    }
  }

  lemma BoundaryReports(publishes: bool, k: Ledger, e: SessionEvent, before: seq<SessionEvent>)
    requires Knows(k, before)
    ensures Marks(Boundary(publishes, Noted(k, e), e).1) == Due(publishes, before, e)
  {
    var out := Boundary(publishes, Noted(k, e), e).1;
    BoundaryShape(publishes, Noted(k, e), e);
    if |out| == 1 { assert Marks(out[..0]) == []; }
  }

  lemma FedReports(publishes: bool, prose: Text, k: Ledger, e: SessionEvent, before: seq<SessionEvent>)
    requires Knows(k, before)
    ensures Marks(Fed(publishes, prose, k, e).2) == Due(publishes, before, e)
    ensures Knows(Fed(publishes, prose, k, e).1, before + [e])
  {
    var grown := Grown(prose, e);
    BoundaryReports(publishes, k, e, before);
    KnowsNext(k, before, e);
    BoundaryKnows(publishes, Noted(k, e), e, before + [e]);
    DeltasUnmarked(Fragments(Points(grown), MAX_PROSE_FRAGMENT));
    MarksConcat(Deltas(publishes, grown), Boundary(publishes, Noted(k, e), e).1);
  }

  lemma DueNext(publishes: bool, before: seq<SessionEvent>, e: SessionEvent)
    ensures DueAll(publishes, before + [e]) == DueAll(publishes, before) + Due(publishes, before, e)
  {
    assert (before + [e])[..|before|] == before;
  }

  lemma {:induction false} UsesReport(publishes: bool, b: Buffer, uses: seq<Use>)
    requires Knows(b.ledger, [])
    ensures Marks(Produced(publishes, b, uses)) == DueAll(publishes, Fold(uses))
    ensures Knows(Used(publishes, b, uses).0.ledger, Fold(uses))
  {
    if uses != [] {
      var before := uses[..|uses| - 1];
      UsesReport(publishes, b, before);
      var b1 := Used(publishes, b, before).0;
      match uses[|uses| - 1]
      case Feed(e) =>
        FedBufferPushes(publishes, b1, e);
        FedReports(publishes, b1.prose, b1.ledger, e, Fold(before));
        DueNext(publishes, Fold(before), e);
        MarksConcat(Produced(publishes, b, before), Fed(publishes, b1.prose, b1.ledger, e).2);
      case Drain =>
        assert Fold(uses) == Fold(before);
        DeltasUnmarked(Fragments(Points(b1.prose), MAX_PROSE_FRAGMENT));
        MarksConcat(Produced(publishes, b, before), Deltas(publishes, b1.prose));
    }
  }

  /**
   * For every session, drained at any times: what the run reports is exactly what the session
   * called for, in order, each tool call with its own id, name and error flag, and a
   * compaction exactly if one took time after the agent had started.
   */
  lemma ReportsWhatHappened(publishes: bool, startSeq: int, uses: seq<Use>)
    ensures Marks(Produced(publishes, NewBuffer(startSeq), uses)) == DueAll(publishes, Fold(uses))
  {
    UsesReport(publishes, NewBuffer(startSeq), uses);
  }
}
