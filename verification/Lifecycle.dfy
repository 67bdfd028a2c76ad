/**
 * The life of one leased run: each step is one await that resolves or rejects, a mark set by a
 * heartbeat or the policy guard, or a session event.
 */
module Lifecycle {
  import opened Common

  datatype Failure = ServerCancelled | Coded(code: string) | Plain

  datatype SessionEvent = ErrorEnd | StreamError | StopEnd(text: string) | LengthEnd(text: string) | OtherEvent

  datatype Reason =
    | PolicyBlock(code: string)
    | ProviderStream(budgetExhausted: bool)
    | EmptyAnswer
    | ProviderPolicy
    | SidecarError(errorCode: Option<string>)

  datatype Verdict = Succeeded(text: string) | Failed(reason: Reason)

  /** History of one run: session events and the marks of heartbeat, transport and guard. */
  datatype Entry = Said(e: SessionEvent) | MarkedLost | MarkedCancelled | MarkedBlocked(code: string, slotFound: bool)

  /** What is awaited. `FlushingAll` keeps the failure of the prompt, if it had one. */
  datatype Phase =
    | Context
    | Refusing
    | Building
    | Prompting
    | FlushingAll(failure: Option<Failure>)
    | FinalFlush(verdict: Verdict)
    | Settling(inCatch: bool)
    | Done

  /** A settle request; `applied` says that it reached the server, `acked` that the worker knows. */
  datatype Settle = Settle(verdict: Verdict, applied: bool, acked: bool)

  /** The run's flags and trackers; `blockCode` is the slot's copy of the guard's block code. */
  datatype Notes = Notes(leaseLost: bool, cancelRequested: bool, blockCode: Option<string>, guardBlock: Option<string>,
                         lastError: bool, lastText: Option<string>, seen: seq<Entry>)
  {
    predicate Stopped() { leaseLost || cancelRequested }
  }

  datatype Run = Run(phase: Phase, notes: Notes, settles: seq<Settle>)

  datatype Action =
    | LoseLease(slotFound: bool)
    | RequestCancel(slotFound: bool)
    | Block(code: string, slotFound: bool)
    | Session(e: SessionEvent)
    | ContextArrives(valid: bool, cancelRequested: bool, allowed: bool)
    | Resolve
    | FlushedAll(budgetExhausted: bool)
    | Reject(failure: Failure, applied: bool)

  const NEW_RUN := Run(Context, Notes(false, false, None, None, false, None, []), [])

  predicate Enabled(r: Run, a: Action) {
    match a
    case LoseLease(_) => r.phase != Done
    case RequestCancel(_) => r.phase != Done
    case Block(_, _) => r.phase != Done && r.phase != Context && r.phase != Refusing
    case Session(_) => r.phase != Done && r.phase != Context && r.phase != Refusing && r.phase != Building
    case ContextArrives(_, _, _) => r.phase == Context
    case Resolve => r.phase.Refusing? || r.phase.Building? || r.phase.Prompting? || r.phase.FinalFlush?
        || r.phase.Settling?
    case FlushedAll(_) => r.phase.FlushingAll?
    case Reject(_, applied) => r.phase != Done && (applied ==> r.phase.Settling?)
  }

  function Issue(r: Run, v: Verdict, inCatch: bool): Run {
    r.(phase := Settling(inCatch), settles := r.settles + [Settle(v, false, false)])
  }

  function Cancelled(r: Run): Run {
    r.(notes := r.notes.(cancelRequested := true), phase := Done)
  }

  /** The error handler around the whole run. */
  function Caught(r: Run, f: Failure): Run {
    if f.ServerCancelled? then Cancelled(r)
    else if r.notes.Stopped() then r.(phase := Done)
    else if r.notes.blockCode.Some? then Issue(r, Failed(PolicyBlock(r.notes.blockCode.value)), true)
    else Issue(r, Failed(SidecarError(if f.Coded? then Some(f.code) else None)), true)
  }

  function VerdictOn(n: Notes, budgetExhausted: bool): Verdict {
    var block := if n.blockCode.Some? then n.blockCode else n.guardBlock;
    if block.Some? then Failed(PolicyBlock(block.value))
    else if n.lastError then Failed(ProviderStream(budgetExhausted))
    else if n.lastText.None? || n.lastText.value == "" then Failed(EmptyAnswer)
    else Succeeded(n.lastText.value)
  }

  /** The decision after the prompt and the flush. */
  function Decided(r: Run, budgetExhausted: bool): Run {
    if r.notes.Stopped() then r.(phase := Done) else r.(phase := FinalFlush(VerdictOn(r.notes, budgetExhausted)))
  }

  /** The session listener's two trackers. */
  function Heard(n: Notes, e: SessionEvent): Notes {
    var n' := n.(seen := n.seen + [Said(e)]);
    match e
    case ErrorEnd => n'.(lastError := true)
    case StreamError => n'.(lastError := true)
    case StopEnd(text) => n'.(lastError := false, lastText := Some(text))
    case LengthEnd(text) => n'.(lastText := Some(text))
    case OtherEvent => n'
  }

  /** The guard's first code sticks, and so does the slot's copy of it. */
  function Blocked(n: Notes, code: string, slotFound: bool): Notes {
    var first := if n.guardBlock.Some? then n.guardBlock else Some(code);
    n.(seen := n.seen + [MarkedBlocked(code, slotFound)], guardBlock := first,
       blockCode := if slotFound && n.blockCode.None? then first else n.blockCode)
  }

  /** Marks and session events touch the notes only; a mark whose slot is gone is lost. */
  function Noted(n: Notes, a: Action): Notes {
    match a
    case LoseLease(found) => if found then n.(leaseLost := true, seen := n.seen + [MarkedLost]) else n
    case RequestCancel(found) => if found then n.(cancelRequested := true, seen := n.seen + [MarkedCancelled]) else n
    case Block(code, slotFound) => Blocked(n, code, slotFound)
    case Session(e) => Heard(n, e)
    case _ => n
  }

  function LastSettle(r: Run, applied: bool, acked: bool): seq<Settle>
    requires r.settles != []
  {
    var n := |r.settles| - 1;
    r.settles[n := r.settles[n].(applied := applied, acked := acked)]
  }

  function Resolved(r: Run): Run
    requires Enabled(r, Resolve)
  {
    match r.phase
    case Refusing => Issue(r, Failed(ProviderPolicy), false)
    case Building => r.(phase := Prompting)
    case Prompting => r.(phase := FlushingAll(None))
    case FinalFlush(v) => Issue(r, v, false)
    case Settling(_) => r.(phase := Done, settles := if r.settles == [] then [] else LastSettle(r, true, true))
  }

  /** A rejected prompt is kept until the flush in its `finally` has ended. */
  function Rejected(r: Run, f: Failure, applied: bool): Run {
    match r.phase
    case Prompting => r.(phase := FlushingAll(Some(f)))
    case Settling(inCatch) =>
      var r' := r.(settles := if r.settles == [] then [] else LastSettle(r, applied, false));
      if inCatch then r'.(phase := Done) else Caught(r', f)
    case _ => Caught(r, f)
  }

  function Step(r: Run, a: Action): Run
    requires Enabled(r, a)
  {
    match a
    case ContextArrives(valid, cancelled, allowed) =>
      if !valid then Caught(r, Plain)
      else if cancelled then Cancelled(r)
      else if !allowed then r.(phase := Refusing)
      else r.(phase := Building)
    case Resolve => Resolved(r)
    case FlushedAll(budgetExhausted) =>
      if r.phase.failure.Some? then Caught(r, r.phase.failure.value) else Decided(r, budgetExhausted)
    case Reject(f, applied) => Rejected(r, f, applied)
    case _ => r.(notes := Noted(r.notes, a))
  }

  predicate IsRun(r: Run, acts: seq<Action>)
    decreases |acts|
  {
    acts == [] || (Enabled(r, acts[0]) && IsRun(Step(r, acts[0]), acts[1..]))
  }

  function After(r: Run, acts: seq<Action>): Run
    requires IsRun(r, acts)
    decreases |acts|
  {
    if acts == [] then r else After(Step(r, acts[0]), acts[1..])
  }

  // ------------------------------------------------------------------
  // What the event history says
  // ------------------------------------------------------------------

  predicate IsError(x: Entry) { x.Said? && (x.e.ErrorEnd? || x.e.StreamError?) }

  predicate IsStop(x: Entry) { x.Said? && x.e.StopEnd? }

  /** Every provider error was followed by a completed answer. */
  ghost predicate ErrorsResolved(seen: seq<Entry>) {
    forall i | 0 <= i < |seen| && IsError(seen[i]) :: exists j :: i < j < |seen| && IsStop(seen[j])
  }

  /** Text of the last completed or truncated answer. */
  function LastAnswer(seen: seq<Entry>): Option<string> {
    if seen == [] then None
    else
      match seen[|seen| - 1]
      case Said(StopEnd(text)) => Some(text)
      case Said(LengthEnd(text)) => Some(text)
      case _ => LastAnswer(seen[..|seen| - 1])
  }

  /** Class of the first policy block. */
  function FirstBlock(seen: seq<Entry>): Option<string> {
    if seen == [] then None
    else
      var b := FirstBlock(seen[..|seen| - 1]);
      if b.None? && seen[|seen| - 1].MarkedBlocked? then Some(seen[|seen| - 1].code) else b
  }

  /** Some policy block reached the slot of the run. */
  predicate BlockReachedSlot(seen: seq<Entry>) {
    exists x <- seen :: x.MarkedBlocked? && x.slotFound
  }

  /** The lease was lost or the run cancelled. */
  predicate MarkedStopped(seen: seq<Entry>) {
    MarkedLost in seen || MarkedCancelled in seen
  }

  /** Success is the right verdict on this history. */
  ghost predicate Earned(seen: seq<Entry>, text: string) {
    && text != "" && ErrorsResolved(seen) && LastAnswer(seen) == Some(text)
    && forall x <- seen :: x.Said?
  }

  /** It was the right verdict at some moment of the history. */
  ghost predicate OnceEarned(seen: seq<Entry>, text: string) {
    exists n | 0 <= n <= |seen| :: Earned(seen[..n], text)
  }

  // ------------------------------------------------------------------
  // Invariant
  // ------------------------------------------------------------------

  ghost predicate TrackersMatch(n: Notes) {
    && (n.lastError <==> !ErrorsResolved(n.seen)) && n.lastText == LastAnswer(n.seen)
    && n.guardBlock == FirstBlock(n.seen)
    && (!n.Stopped() && n.guardBlock.None? ==> forall x <- n.seen :: x.Said?)
    && n.blockCode == if BlockReachedSlot(n.seen) then n.guardBlock else None
  }

  /** While the run lasts, the flags say what the history says. */
  ghost predicate FlagsMatch(r: Run) {
    r.phase != Done ==> (r.notes.Stopped() <==> MarkedStopped(r.notes.seen))
  }

  ghost predicate SettlesMatch(r: Run) {
    match r.phase
    case Settling(inCatch) =>
      && 1 <= |r.settles| <= (if inCatch then 2 else 1)
      && (forall i | 0 <= i < |r.settles| :: !r.settles[i].acked)
      && (inCatch ==> r.settles[|r.settles| - 1].verdict.Failed?)
    case Done =>
      && |r.settles| <= 2 && (forall i | 0 <= i < |r.settles| - 1 :: !r.settles[i].acked)
      && (|r.settles| == 2 ==> r.settles[1].verdict.Failed?)
    case _ => r.settles == []
  }

  ghost predicate VerdictsEarned(r: Run) {
    && (r.phase.FinalFlush? && r.phase.verdict.Succeeded? ==> OnceEarned(r.notes.seen, r.phase.verdict.text))
    && (forall i | 0 <= i < |r.settles| && r.settles[i].verdict.Succeeded? ::
        OnceEarned(r.notes.seen, r.settles[i].verdict.text))
  }

  ghost predicate Inv(r: Run) {
    TrackersMatch(r.notes) && SettlesMatch(r) && VerdictsEarned(r) && FlagsMatch(r)
  }

  lemma NextEntry(seen: seq<Entry>, x: Entry)
    ensures ErrorsResolved(seen + [x]) <==> (IsStop(x) || (ErrorsResolved(seen) && !IsError(x)))
    ensures LastAnswer(seen + [x]) == match x
      case Said(StopEnd(text)) => Some(text)
      case Said(LengthEnd(text)) => Some(text)
      case _ => LastAnswer(seen)
    ensures FirstBlock(seen + [x]) == (if FirstBlock(seen).None? && x.MarkedBlocked? then Some(x.code)
        else FirstBlock(seen))
    ensures BlockReachedSlot(seen + [x]) <==> BlockReachedSlot(seen) || (x.MarkedBlocked? && x.slotFound)
    ensures forall text :: OnceEarned(seen, text) ==> OnceEarned(seen + [x], text)
  {
    var all := seen + [x];
    assert all[..|seen|] == seen;
    if IsStop(x) {
      assert IsStop(all[|seen|]);
    } else {
      if ErrorsResolved(seen) && !IsError(x) {
        forall i | 0 <= i < |all| && IsError(all[i]) ensures exists j :: i < j < |all| && IsStop(all[j]) {
          var j :| i < j < |seen| && IsStop(seen[j]);
          assert IsStop(all[j]);
        }
      }
      if ErrorsResolved(all) {
        assert !IsError(all[|seen|]);
        forall i | 0 <= i < |seen| && IsError(seen[i]) ensures exists j :: i < j < |seen| && IsStop(seen[j]) {
          assert IsError(all[i]);
          var j :| i < j < |all| && IsStop(all[j]);
        }
      }
    }
    forall text | OnceEarned(seen, text) ensures OnceEarned(all, text) {
      var n :| 0 <= n <= |seen| && Earned(seen[..n], text);
      assert all[..n] == seen[..n];
    }
  }

  lemma FirstBlockExists(seen: seq<Entry>)
    requires BlockReachedSlot(seen)
    ensures FirstBlock(seen).Some?
  {
    var x :| x in seen && x.MarkedBlocked?;
    BlockInHistory(seen, x);
  }

  lemma {:induction false} BlockInHistory(seen: seq<Entry>, x: Entry)
    requires x in seen && x.MarkedBlocked?
    ensures FirstBlock(seen).Some?
  {
    if x != seen[|seen| - 1] { BlockInHistory(seen[..|seen| - 1], x); }
  }

  lemma {:induction false} UnmarkedHistory(seen: seq<Entry>)
    requires forall x <- seen :: x.Said?
    ensures FirstBlock(seen).None? && !MarkedStopped(seen) && !BlockReachedSlot(seen)
  {
    if seen != [] {
      UnmarkedHistory(seen[..|seen| - 1]);
      assert seen[|seen| - 1] in seen;
    }
  }

  lemma BlockKept(n: Notes, code: string, slotFound: bool)
    requires TrackersMatch(n)
    ensures TrackersMatch(Blocked(n, code, slotFound))
  {
    NextEntry(n.seen, MarkedBlocked(code, slotFound));
    if BlockReachedSlot(n.seen) { FirstBlockExists(n.seen); }
  }

  lemma NotesKept(n: Notes, a: Action)
    requires TrackersMatch(n)
    ensures TrackersMatch(Noted(n, a)) && (n.Stopped() ==> Noted(n, a).Stopped())
    ensures forall text :: OnceEarned(n.seen, text) ==> OnceEarned(Noted(n, a).seen, text)
  {
    match a
    case LoseLease(_) => NextEntry(n.seen, MarkedLost);
    case RequestCancel(_) => NextEntry(n.seen, MarkedCancelled);
    case Block(code, slotFound) =>
      NextEntry(n.seen, MarkedBlocked(code, slotFound));
      BlockKept(n, code, slotFound);
    case Session(e) => NextEntry(n.seen, Said(e));
    case _ =>
  }

  lemma MarksKept(n: Notes, a: Action)
    requires n.Stopped() <==> MarkedStopped(n.seen)
    ensures Noted(n, a).Stopped() <==> MarkedStopped(Noted(n, a).seen)
  {
  }

  lemma CaughtKeeps(r: Run, f: Failure)
    requires TrackersMatch(r.notes) && VerdictsEarned(r) && FlagsMatch(r) && !r.phase.Done?
    requires |r.settles| <= 1 && forall i | 0 <= i < |r.settles| :: !r.settles[i].acked
    ensures Inv(Caught(r, f))
  {
  }

  lemma ResolvedKeeps(r: Run)
    requires Inv(r) && Enabled(r, Resolve)
    ensures Inv(Resolved(r))
  {
  }

  lemma DecidedKeeps(r: Run, budgetExhausted: bool)
    requires Inv(r) && r.phase.FlushingAll?
    ensures Inv(Decided(r, budgetExhausted))
  {
    var n := r.notes;
    if !n.Stopped() && VerdictOn(n, budgetExhausted).Succeeded? {
      assert Earned(n.seen, n.lastText.value);
      assert n.seen[..|n.seen|] == n.seen;
    }
  }

  lemma RejectedKeeps(r: Run, f: Failure, applied: bool)
    requires Inv(r) && Enabled(r, Reject(f, applied))
    ensures Inv(Rejected(r, f, applied))
  {
    match r.phase
    case Prompting =>
    case Settling(inCatch) =>
      var r' := r.(settles := LastSettle(r, applied, false));
      if !inCatch { CaughtKeeps(r', f); }
    case _ => CaughtKeeps(r, f);
  }

  /** New notes that match the history and keep what was earned disturb nothing else. */
  lemma NewNotesKeep(r: Run, n: Notes)
    requires Inv(r) && TrackersMatch(n) && (r.phase != Done ==> (n.Stopped() <==> MarkedStopped(n.seen)))
    requires forall text :: OnceEarned(r.notes.seen, text) ==> OnceEarned(n.seen, text)
    ensures Inv(r.(notes := n))
  {
  }

  lemma StepKeeps(r: Run, a: Action)
    requires Inv(r) && Enabled(r, a)
    ensures Inv(Step(r, a))
  {
    match a
    case ContextArrives(_, _, _) => CaughtKeeps(r, Plain);
    case Resolve => ResolvedKeeps(r);
    case FlushedAll(budgetExhausted) =>
      if r.phase.failure.Some? { CaughtKeeps(r, r.phase.failure.value); } else { DecidedKeeps(r, budgetExhausted); }
    case Reject(f, applied) => RejectedKeeps(r, f, applied);
    case _ =>
      NotesKept(r.notes, a);
      if r.phase != Done { MarksKept(r.notes, a); }
      NewNotesKeep(r, Noted(r.notes, a));
  }

  lemma {:induction false} RunKeeps(r: Run, acts: seq<Action>)
    requires Inv(r) && IsRun(r, acts)
    ensures Inv(After(r, acts))
    decreases |acts|
  {
    if acts != [] {
      StepKeeps(r, acts[0]);
      RunKeeps(Step(r, acts[0]), acts[1..]);
    }
  }

  // ------------------------------------------------------------------
  // Main results
  // ------------------------------------------------------------------

  /**
   * For every order of marks, session events and request failures: at most two settle requests,
   * none after an acknowledged one, a second one only ever reports failure, and success is
   * reported only if at some moment nothing had been marked, every provider error had been
   * followed by a completed answer, and the last answer was the non-empty text reported.
   */
  lemma SettledAtMostTwice(acts: seq<Action>)
    requires IsRun(NEW_RUN, acts)
    ensures var r := After(NEW_RUN, acts);
      && |r.settles| <= 2
      && (forall i, j | 0 <= i < j < |r.settles| :: !r.settles[i].acked && r.settles[j].verdict.Failed?)
      && (forall s <- r.settles :: s.verdict.Succeeded? ==> OnceEarned(r.notes.seen, s.verdict.text))
  {
    RunKeeps(NEW_RUN, acts);
  }

  /** The settle requests after the flush that follows the prompt and the one that follows the decision. */
  function Reported(r: Run, budgetExhausted: bool): seq<Settle>
    requires r.phase == FlushingAll(None)
  {
    var r1 := Step(r, FlushedAll(budgetExhausted));
    if r1.phase.FinalFlush? then Step(r1, Resolve).settles else r1.settles
  }

  lemma EarnedIsReported(r: Run, budgetExhausted: bool, text: string)
    requires Inv(r) && r.phase == FlushingAll(None) && Earned(r.notes.seen, text)
    ensures Reported(r, budgetExhausted) == [Settle(Succeeded(text), false, false)]
  {
    UnmarkedHistory(r.notes.seen);
  }

  lemma ReportedIsEarned(r: Run, budgetExhausted: bool, text: string)
    requires Inv(r) && r.phase == FlushingAll(None)
    requires Reported(r, budgetExhausted) == [Settle(Succeeded(text), false, false)]
    ensures Earned(r.notes.seen, text)
  {
    var n := r.notes;
    assert r.settles == [] && !n.Stopped();
    assert Reported(r, budgetExhausted)[0] == Settle(VerdictOn(n, budgetExhausted), false, false);
  }

  /** Whatever has happened, the run reports success exactly when its history earns it. */
  lemma SuccessIffEarned(acts: seq<Action>, budgetExhausted: bool, text: string)
    requires IsRun(NEW_RUN, acts) && After(NEW_RUN, acts).phase == FlushingAll(None)
    ensures var seen := After(NEW_RUN, acts).notes.seen;
      Reported(After(NEW_RUN, acts), budgetExhausted) == [Settle(Succeeded(text), false, false)]
      <==> Earned(seen, text)
  {
    var r := After(NEW_RUN, acts);
    RunKeeps(NEW_RUN, acts);
    if Earned(r.notes.seen, text) {
      EarnedIsReported(r, budgetExhausted, text);
    } else if Reported(r, budgetExhausted) == [Settle(Succeeded(text), false, false)] {
      ReportedIsEarned(r, budgetExhausted, text);
    }
  }

  /**
   * A failure is reported for what the history shows: the first policy block, else a provider
   * error with no completed answer after it, else the lack of an answer; and nothing at all is
   * reported exactly if the lease was lost or the run cancelled.
   */
  lemma FailureExplained(acts: seq<Action>, budgetExhausted: bool)
    requires IsRun(NEW_RUN, acts) && After(NEW_RUN, acts).phase == FlushingAll(None)
    ensures Explained(After(NEW_RUN, acts).notes.seen, Reported(After(NEW_RUN, acts), budgetExhausted), budgetExhausted)
  {
    RunKeeps(NEW_RUN, acts);
  }

  /** `sent` is what the history calls for, if it does not call for success. */
  ghost predicate Explained(seen: seq<Entry>, sent: seq<Settle>, budgetExhausted: bool) {
    var block := FirstBlock(seen);
    && |sent| <= 1 && (sent == [] <==> MarkedStopped(seen))
    && (sent != [] ==> var v := sent[0].verdict;
          && (forall code :: v == Failed(PolicyBlock(code)) <==> block == Some(code))
          && (v == Failed(ProviderStream(budgetExhausted)) <==> block.None? && !ErrorsResolved(seen))
          && (v == Failed(EmptyAnswer) <==>
                block.None? && ErrorsResolved(seen) && LastAnswer(seen) in [None, Some("")]))
  }

  /**
   * The failure, if any, that leaves the body of the run in this step: that of a prompt only
   * once the events are flushed, that of a settle request only if it was not the handler's own.
   */
  function Escaping(r: Run, a: Action): Option<Failure> {
    match a
    case ContextArrives(valid, _, _) => if valid then None else Some(Plain)
    case FlushedAll(_) => if r.phase.FlushingAll? then r.phase.failure else None
    case Reject(f, _) => if r.phase.Prompting? || r.phase == Settling(true) then None else Some(f)
    case _ => None
  }

  /** What the handler owes for failure `f` on this history: silence, the block's class, or the error's code. */
  ghost predicate HandledWell(seen: seq<Entry>, f: Failure, r: Run, r': Run) {
    if f.ServerCancelled? || MarkedStopped(seen) then r'.phase.Done? && |r'.settles| == |r.settles|
    else
      && r'.phase == Settling(true) && |r'.settles| == |r.settles| + 1
      && var v := r'.settles[|r.settles|].verdict;
      && (forall code :: v == Failed(PolicyBlock(code)) <==> BlockReachedSlot(seen) && FirstBlock(seen) == Some(code))
      && (!BlockReachedSlot(seen) ==> v == Failed(SidecarError(if f.Coded? then Some(f.code) else None)))
  }

  /**
   * For every reachable run: a failure that escapes is reported as the class of the first policy
   * block if a block reached the slot, never as a sidecar error; otherwise under its own code;
   * and not at all if it is the server's cancellation or the run was marked. Nothing else
   * enters the handler.
   */
  lemma HandlerReports(before: seq<Action>, a: Action)
    requires IsRun(NEW_RUN, before) && Enabled(After(NEW_RUN, before), a)
    ensures var r := After(NEW_RUN, before); var r' := Step(r, a);
      && (Escaping(r, a).Some? ==> HandledWell(r.notes.seen, Escaping(r, a).value, r, r'))
      && (Escaping(r, a).None? && r'.phase == Settling(true) ==> r.phase == Settling(true))
  {
    var r := After(NEW_RUN, before);
    RunKeeps(NEW_RUN, before);
    if BlockReachedSlot(r.notes.seen) { FirstBlockExists(r.notes.seen); }
  }

  /** The lease is lost or the run cancelled, and the run has started but not yet decided. */
  predicate StoppedBeforeDecision(r: Run) {
    r.notes.Stopped() && (r.phase.Building? || r.phase.Prompting? || r.phase.FlushingAll?)
  }

  predicate NeverSettles(r: Run) {
    r.notes.Stopped() && (r.phase.Building? || r.phase.Prompting? || r.phase.FlushingAll? || r.phase.Done?)
  }

  lemma {:induction false} StaysUnsettled(r: Run, acts: seq<Action>)
    requires NeverSettles(r) && IsRun(r, acts)
    ensures After(r, acts).settles == r.settles
    decreases |acts|
  {
    if acts != [] {
      StaysUnsettled(Step(r, acts[0]), acts[1..]);
    }
  }

  /** A mark that is there by the check after the prompt rules out every settle request, however the run goes on. */
  lemma StoppedRunNeverSettles(before: seq<Action>, acts: seq<Action>)
    requires IsRun(NEW_RUN, before) && StoppedBeforeDecision(After(NEW_RUN, before))
    requires IsRun(After(NEW_RUN, before), acts)
    ensures After(After(NEW_RUN, before), acts).settles == []
  {
    RunKeeps(NEW_RUN, before);
    StaysUnsettled(After(NEW_RUN, before), acts);
  }

  // ------------------------------------------------------------------
  // How sharp the results are
  // ------------------------------------------------------------------

  lemma FirstStep(r: Run, a: Action, rest: seq<Action>)
    requires Enabled(r, a) && IsRun(Step(r, a), rest)
    ensures IsRun(r, [a] + rest) && After(r, [a] + rest) == After(Step(r, a), rest)
  {
    assert ([a] + rest)[1..] == rest;
  }

  /** From here some continuation sends one more settle request. */
  ghost predicate CanStillSettle(r: Run) {
    exists acts :: IsRun(r, acts) && |After(r, acts).settles| > |r.settles|
  }

  /**
   * A run that is stopped can still settle before its prompt is set up, where the flags are not
   * read, and after the check; one that is not stopped can until its last request is out.
   */
  predicate SettleAhead(r: Run) {
    match r.phase
    case Context => true
    case Refusing => true
    case FinalFlush(_) => true
    case Settling(inCatch) => !inCatch && !r.notes.Stopped()
    case Done => false
    case _ => !r.notes.Stopped()
  }

  lemma NoSettleStep(r: Run, a: Action)
    requires !SettleAhead(r) && Enabled(r, a)
    ensures !SettleAhead(Step(r, a)) && |Step(r, a).settles| == |r.settles|
  {
  }

  lemma {:induction false} NoSettleAhead(r: Run, acts: seq<Action>)
    requires !SettleAhead(r) && IsRun(r, acts)
    ensures |After(r, acts).settles| == |r.settles|
    decreases |acts|
  {
    if acts != [] {
      NoSettleStep(r, acts[0]);
      NoSettleAhead(Step(r, acts[0]), acts[1..]);
    }
  }

  lemma OneStepSettles(r: Run, a: Action)
    requires Enabled(r, a) && |Step(r, a).settles| > |r.settles|
    ensures CanStillSettle(r)
  {
    FirstStep(r, a, []);
    assert IsRun(r, [a] + []);
  }

  lemma TwoStepsSettle(r: Run, a: Action, b: Action)
    requires Enabled(r, a) && Enabled(Step(r, a), b) && |Step(Step(r, a), b).settles| > |r.settles|
    ensures CanStillSettle(r)
  {
    FirstStep(Step(r, a), b, []);
    FirstStep(r, a, [b] + []);
    assert IsRun(r, [a] + ([b] + []));
  }

  /**
   * Exactly when one more settle request can go out, for every state: a mark stops it only
   * between the set-up of the prompt and the check after it, and in the handler.
   */
  lemma CanStillSettleIff(r: Run)
    ensures CanStillSettle(r) <==> SettleAhead(r)
  {
    if !SettleAhead(r) {
      forall acts | IsRun(r, acts) ensures |After(r, acts).settles| == |r.settles| { NoSettleAhead(r, acts); }
    } else {
      match r.phase
      case Context => TwoStepsSettle(r, ContextArrives(true, false, false), Resolve);
      case Refusing => OneStepSettles(r, Resolve);
      case FinalFlush(_) => OneStepSettles(r, Resolve);
      case Prompting => TwoStepsSettle(r, Reject(Plain, false), Reject(Plain, false));
      case _ => OneStepSettles(r, Reject(Plain, false));
    }
  }

  /**
   * A failure that finds a mark on entry to the handler, or is itself the server's verdict,
   * is the end of all settle requests, at whatever await it occurs.
   */
  lemma MarkedFailureEndsRun(r: Run, f: Failure, applied: bool)
    requires Enabled(r, Reject(f, applied)) && !r.phase.Prompting? && (r.notes.Stopped() || f.ServerCancelled?)
    ensures !CanStillSettle(Step(r, Reject(f, applied)))
  {
    CanStillSettleIff(Step(r, Reject(f, applied)));
  }

  /**
   * For every reachable stopped run: it may yet settle exactly in these three places, and no
   * longer once an await outside the prompt has failed.
   */
  lemma StoppedRunSettlesIff(before: seq<Action>)
    requires IsRun(NEW_RUN, before) && After(NEW_RUN, before).notes.Stopped()
    ensures var r := After(NEW_RUN, before);
      && (CanStillSettle(r) <==> r.phase.Context? || r.phase.Refusing? || r.phase.FinalFlush?)
      && forall f, applied | Enabled(r, Reject(f, applied)) && !r.phase.Prompting? ::
           !CanStillSettle(Step(r, Reject(f, applied)))
  {
    var r := After(NEW_RUN, before);
    CanStillSettleIff(r);
    forall f, applied | Enabled(r, Reject(f, applied)) && !r.phase.Prompting?
      ensures !CanStillSettle(Step(r, Reject(f, applied)))
    {
      MarkedFailureEndsRun(r, f, applied);
    }
  }

  /**
   * For every reachable run that has sent one settle request: a second can follow exactly while
   * the first, sent outside the handler, is unanswered and no mark is set; and a failure of
   * that first request sends it exactly if it is not the server's cancellation either.
   */
  lemma SecondSettleIff(before: seq<Action>)
    requires IsRun(NEW_RUN, before) && |After(NEW_RUN, before).settles| == 1
    ensures var r := After(NEW_RUN, before);
      && (CanStillSettle(r) <==> r.phase == Settling(false) && !r.notes.Stopped())
      && (r.phase == Settling(false) ==> forall f, applied ::
            |Step(r, Reject(f, applied)).settles| == 2 <==> !f.ServerCancelled? && !r.notes.Stopped())
  {
    RunKeeps(NEW_RUN, before);
    CanStillSettleIff(After(NEW_RUN, before));
  }

  /** Some continuation gets to the prompt. */
  ghost predicate CanPrompt(r: Run) {
    exists acts :: IsRun(r, acts) && After(r, acts).phase == Prompting
  }

  predicate PromptAhead(r: Run) { r.phase in [Context, Building, Prompting] }

  lemma {:induction false} NoPromptAhead(r: Run, acts: seq<Action>)
    requires !PromptAhead(r) && IsRun(r, acts)
    ensures !PromptAhead(After(r, acts))
    decreases |acts|
  {
    if acts != [] { NoPromptAhead(Step(r, acts[0]), acts[1..]); }
  }

  /**
   * For every run that receives its context: a prompt can follow exactly if the context is
   * valid, not cancelled and allowed; a cancelled one ends with no settle request ahead; and a
   * refused one can only be settled as refused by policy, unless a failure escapes first.
   */
  lemma ContextDecides(before: seq<Action>, valid: bool, cancelled: bool, allowed: bool)
    requires IsRun(NEW_RUN, before) && After(NEW_RUN, before).phase == Context
    ensures var r' := Step(After(NEW_RUN, before), ContextArrives(valid, cancelled, allowed));
      && (CanPrompt(r') <==> valid && !cancelled && allowed)
      && (valid && cancelled ==> !CanStillSettle(r') && r'.settles == [] && r'.notes.cancelRequested)
      && (valid && !cancelled && !allowed ==>
            Enabled(r', Resolve) && Step(r', Resolve).settles == [Settle(Failed(ProviderPolicy), false, false)])
  {
    var r' := Step(After(NEW_RUN, before), ContextArrives(valid, cancelled, allowed));
    RunKeeps(NEW_RUN, before);
    CanStillSettleIff(r');
    if valid && !cancelled && allowed {
      FirstStep(r', Resolve, []);
      assert IsRun(r', [Resolve] + []);
    } else {
      forall acts | IsRun(r', acts) ensures After(r', acts).phase != Prompting { NoPromptAhead(r', acts); }
    }
  }

  // ------------------------------------------------------------------
  // Every run ends, and every history is possible
  // ------------------------------------------------------------------

  /** How many awaits can still follow. */
  function AwaitsLeft(p: Phase): nat {
    match p
    case Context => 7
    case Refusing => 6
    case Building => 6
    case Prompting => 5
    case FlushingAll(_) => 4
    case FinalFlush(_) => 3
    case Settling(inCatch) => if inCatch then 1 else 2
    case Done => 0
  }

  /** The outcome of something awaited, as against a mark or a session event. */
  predicate IsAwait(a: Action) {
    a.ContextArrives? || a.Resolve? || a.FlushedAll? || a.Reject?
  }

  function Awaits(acts: seq<Action>): nat {
    if acts == [] then 0 else (if IsAwait(acts[0]) then 1 else 0) + Awaits(acts[1..])
  }

  lemma {:induction false} AwaitsRunOut(r: Run, acts: seq<Action>)
    requires IsRun(r, acts)
    ensures Awaits(acts) <= AwaitsLeft(r.phase) - AwaitsLeft(After(r, acts).phase)
    decreases |acts|
  {
    if acts != [] { AwaitsRunOut(Step(r, acts[0]), acts[1..]); }
  }

  /** No run awaits anything more than seven times, and one that is not over awaits something. */
  lemma EveryRunEnds(acts: seq<Action>)
    requires IsRun(NEW_RUN, acts)
    ensures Awaits(acts) <= 7
    ensures var r := After(NEW_RUN, acts); r.phase != Done ==> exists a :: IsAwait(a) && Enabled(r, a)
  {
    AwaitsRunOut(NEW_RUN, acts);
    assert After(NEW_RUN, acts).phase != Done ==> Enabled(After(NEW_RUN, acts), Reject(Plain, false));
  }

  /** The action that adds this entry to the history. */
  function ActionOf(x: Entry): Action {
    match x
    case Said(e) => Session(e)
    case MarkedLost => LoseLease(true)
    case MarkedCancelled => RequestCancel(true)
    case MarkedBlocked(code, slotFound) => Block(code, slotFound)
  }

  lemma EntryGrows(r: Run, x: Entry)
    requires r.phase.Prompting? || r.phase.FlushingAll? || r.phase.FinalFlush? || r.phase.Settling?
    ensures Enabled(r, ActionOf(x))
    ensures var e := Step(r, ActionOf(x));
      e.phase == r.phase && e.settles == r.settles && e.notes.seen == r.notes.seen + [x]
  {
  }

  /** From the prompt to the end of the run, marks and session events can come in any order and number. */
  lemma {:induction false} HistoryGrows(r: Run, more: seq<Entry>) returns (acts: seq<Action>)
    requires r.phase.Prompting? || r.phase.FlushingAll? || r.phase.FinalFlush? || r.phase.Settling?
    ensures IsRun(r, acts)
    ensures var e := After(r, acts); e.phase == r.phase && e.settles == r.settles && e.notes.seen == r.notes.seen + more
    decreases |more|
  {
    if more == [] {
      acts := [];
      assert r.notes.seen + more == r.notes.seen;
    } else {
      EntryGrows(r, more[0]);
      var r1 := Step(r, ActionOf(more[0]));
      var rest := HistoryGrows(r1, more[1..]);
      FirstStep(r, ActionOf(more[0]), rest);
      acts := [ActionOf(more[0])] + rest;
      assert (r.notes.seen + [more[0]]) + more[1..] == r.notes.seen + more;
    }
  }

  /** Before the prompt, the lease can be lost, the run cancelled, and from its set-up on a block raised. */
  lemma MarksComeEarly(acts: seq<Action>, found: bool, code: string)
    requires IsRun(NEW_RUN, acts) && !After(NEW_RUN, acts).phase.Done?
    ensures var r := After(NEW_RUN, acts);
      && Enabled(r, LoseLease(found)) && Enabled(r, RequestCancel(found))
      && Step(r, LoseLease(found)).notes.Stopped() == (found || r.notes.Stopped())
      && Step(r, RequestCancel(found)).notes.Stopped() == (found || r.notes.Stopped())
      && (Enabled(r, Block(code, found)) <==> r.phase.Building? || AwaitsLeft(r.phase) <= 5)
  {
  }

  // ------------------------------------------------------------------
  // Witnesses
  // ------------------------------------------------------------------

  lemma {:induction false} RunConcat(r: Run, a: seq<Action>, b: seq<Action>)
    requires IsRun(r, a) && IsRun(After(r, a), b)
    ensures IsRun(r, a + b) && After(r, a + b) == After(After(r, a), b)
    decreases |a|
  {
    if a == [] {
      assert a + b == b;
    } else {
      assert (a + b)[1..] == a[1..] + b;
      RunConcat(Step(r, a[0]), a[1..], b);
    }
  }

  /** A run that has answered `text` and is about to decide. */
  function Answered(text: string): Run {
    Run(FlushingAll(None), Notes(false, false, None, None, false, Some(text), [Said(StopEnd(text))]), [])
  }

  lemma AnsweredIsReachable(text: string) returns (acts: seq<Action>)
    ensures IsRun(NEW_RUN, acts) && After(NEW_RUN, acts) == Answered(text)
  {
    var stop := Session(StopEnd(text));
    var r1 := Step(NEW_RUN, ContextArrives(true, false, true));
    var r2 := Step(r1, Resolve);
    var r3 := Step(r2, stop);
    assert Step(r3, Resolve) == Answered(text);
    FirstStep(r3, Resolve, []);
    FirstStep(r2, stop, [Resolve] + []);
    FirstStep(r1, Resolve, [stop] + ([Resolve] + []));
    FirstStep(NEW_RUN, ContextArrives(true, false, true), [Resolve] + ([stop] + ([Resolve] + [])));
    acts := [ContextArrives(true, false, true)] + ([Resolve] + ([stop] + ([Resolve] + [])));
  }

  lemma LostAnswer(text: string) returns (acts: seq<Action>)
    requires text != ""
    ensures IsRun(Answered(text), acts)
    ensures After(Answered(text), acts).settles
         == [Settle(Succeeded(text), true, false), Settle(Failed(SidecarError(None)), true, true)]
  {
    var r0 := Answered(text);
    var r1 := Step(r0, FlushedAll(false));
    var r2 := Step(r1, Resolve);
    var r3 := Step(r2, Reject(Plain, true));
    assert r3.settles == [Settle(Succeeded(text), true, false), Settle(Failed(SidecarError(None)), false, false)];
    FirstStep(r3, Resolve, []);
    FirstStep(r2, Reject(Plain, true), [Resolve] + []);
    FirstStep(r1, Resolve, [Reject(Plain, true)] + ([Resolve] + []));
    FirstStep(r0, FlushedAll(false), [Resolve] + ([Reject(Plain, true)] + ([Resolve] + [])));
    acts := [FlushedAll(false)] + ([Resolve] + ([Reject(Plain, true)] + ([Resolve] + [])));
  }

  /** Two settle requests can both reach the server: the first, a success, was applied but its answer lost. */
  lemma LostAnswerSettlesTwice(text: string) returns (acts: seq<Action>)
    requires text != ""
    ensures IsRun(NEW_RUN, acts)
    ensures After(NEW_RUN, acts).settles
         == [Settle(Succeeded(text), true, false), Settle(Failed(SidecarError(None)), true, true)]
  {
    var first := AnsweredIsReachable(text);
    var later := LostAnswer(text);
    RunConcat(NEW_RUN, first, later);
    acts := first + later;
  }

  lemma LateCancel(text: string) returns (acts: seq<Action>)
    requires text != ""
    ensures IsRun(Answered(text), acts)
    ensures var e := After(Answered(text), acts);
      e.notes.cancelRequested && e.settles == [Settle(Succeeded(text), true, true)]
  {
    var r0 := Answered(text);
    var r1 := Step(r0, FlushedAll(false));
    var r2 := Step(r1, RequestCancel(true));
    var r3 := Step(r2, Resolve);
    FirstStep(r3, Resolve, []);
    FirstStep(r2, Resolve, [Resolve] + []);
    FirstStep(r1, RequestCancel(true), [Resolve] + ([Resolve] + []));
    FirstStep(r0, FlushedAll(false), [RequestCancel(true)] + ([Resolve] + ([Resolve] + [])));
    acts := [FlushedAll(false)] + ([RequestCancel(true)] + ([Resolve] + ([Resolve] + [])));
  }

  /** A cancel that arrives after the check no longer stops the settle request. */
  lemma LateCancelStillSettles(text: string) returns (acts: seq<Action>)
    requires text != ""
    ensures IsRun(NEW_RUN, acts)
    ensures var e := After(NEW_RUN, acts);
      e.notes.cancelRequested && e.settles == [Settle(Succeeded(text), true, true)]
  {
    var first := AnsweredIsReachable(text);
    var later := LateCancel(text);
    RunConcat(NEW_RUN, first, later);
    acts := first + later;
  }

  /** A refusal by provider policy is settled even if the lease was lost while the context was fetched. */
  lemma RefusalIgnoresLostLease() returns (acts: seq<Action>)
    ensures IsRun(NEW_RUN, acts)
    ensures var e := After(NEW_RUN, acts);
      e.notes.leaseLost && e.settles == [Settle(Failed(ProviderPolicy), true, true)]
  {
    var refused := ContextArrives(true, false, false);
    var r1 := Step(NEW_RUN, LoseLease(true));
    var r2 := Step(r1, refused);
    var r3 := Step(r2, Resolve);
    FirstStep(r3, Resolve, []);
    FirstStep(r2, Resolve, [Resolve] + []);
    FirstStep(r1, refused, [Resolve] + ([Resolve] + []));
    FirstStep(NEW_RUN, LoseLease(true), [refused] + ([Resolve] + ([Resolve] + [])));
    acts := [LoseLease(true)] + ([refused] + ([Resolve] + ([Resolve] + [])));
  }
}
