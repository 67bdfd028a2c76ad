/** The policy guard's memory of one run: the sticky block, and bounded, deduplicated diagnostics. */
module PolicyGuard {
  import opened Common

  const MAX_INCIDENTS := 64

  datatype ViolationKind =
    | ToolNotAllowed | UnsafeToolArguments | ToolResultTooLarge | MaskedData
    | LocalProviderRequired | CloudProviderForbidden | SecretInProviderPayload

  datatype NoticeKind = SensitiveRedacted | PiiRedacted | UnconfirmedFactAnnotated | InstructionLikeText | MaskedText

  datatype BlockCode = SecretInPayload | ToolBlocked | ToolResultBlocked | ProviderBlocked | MaskedDataBlocked

  datatype ActionTaken = Block | Notice | Sanitize

  /** Run-scoped coordinates of a diagnostic; never its text. */
  datatype Locator = Locator(rule: string, stage: string, source: string, turnIndex: Option<nat>,
                             messageIndex: Option<nat>, toolCallId: Option<string>)

  /** What diagnostics are deduplicated by. */
  datatype Key = Key(action: ActionTaken, locator: Locator)

  datatype Incident = Incident(key: Key, occurrences: nat)

  datatype Observation =
    | Violated(violation: ViolationKind, locator: Locator)
    | Noticed(notice: NoticeKind, locator: Locator)

  /** Diagnostics kept, where each key's is, and the counts. */
  datatype Log = Log(incidents: seq<Incident>, index: map<Key, nat>, dropped: nat, total: nat)

  datatype Guard = Guard(violations: seq<ViolationKind>, notices: seq<NoticeKind>, log: Log,
                         blocked: Option<BlockCode>, onBlock: seq<BlockCode>)

  function CodeOf(v: ViolationKind): BlockCode {
    match v
    case SecretInProviderPayload => SecretInPayload
    case ToolNotAllowed => ToolBlocked
    case UnsafeToolArguments => ToolBlocked
    case ToolResultTooLarge => ToolResultBlocked
    case LocalProviderRequired => ProviderBlocked
    case CloudProviderForbidden => ProviderBlocked
    case MaskedData => MaskedDataBlocked
  }

  function KeyOf(o: Observation): Key {
    match o
    case Violated(_, l) => Key(Block, l)
    case Noticed(k, l) => Key(if k.PiiRedacted? || k.SensitiveRedacted? then Sanitize else Notice, l)
  }

  /** Every index entry points at the incident of its key, and every incident is indexed. */
  ghost predicate Indexed(log: Log) {
    && (forall k | k in log.index :: log.index[k] < |log.incidents| && log.incidents[log.index[k]].key == k)
    && (forall i | 0 <= i < |log.incidents| ::
          log.incidents[i].key in log.index && log.index[log.incidents[i].key] == i)
  }

  function Recorded(log: Log, key: Key): Log
    requires Indexed(log)
  {
    if key in log.index then
      var i := log.index[key];
      log.(total := log.total + 1, incidents := log.incidents[i := Incident(key, log.incidents[i].occurrences + 1)])
    else if |log.incidents| < MAX_INCIDENTS then
      log.(total := log.total + 1, index := log.index[key := |log.incidents|],
           incidents := log.incidents + [Incident(key, 1)])
    else log.(total := log.total + 1, dropped := log.dropped + 1)
  }

  lemma RecordedIndexed(log: Log, key: Key)
    requires Indexed(log)
    ensures Indexed(Recorded(log, key))
  {
  }

  function Observed(g: Guard, o: Observation): (r: Guard)
    requires Indexed(g.log)
    ensures Indexed(r.log)
  {
    RecordedIndexed(g.log, KeyOf(o));
    var g' := g.(log := Recorded(g.log, KeyOf(o)));
    match o
    case Noticed(k, _) => g'.(notices := g.notices + [k])
    case Violated(v, _) =>
      var h := g'.(violations := g.violations + [v]);
      if g.blocked.None? then h.(blocked := Some(CodeOf(v)), onBlock := g.onBlock + [CodeOf(v)]) else h
  }

  function ObservedAll(g: Guard, os: seq<Observation>): (r: Guard)
    requires Indexed(g.log)
    ensures Indexed(r.log)
    decreases |os|
  {
    if os == [] then g
    else ObservedAll(Observed(g, os[0]), os[1..])
  }

  /** Run policy that the guard is created with. */
  datatype Options = Options(localRequired: bool, cloudForbidden: bool, providerIsLocal: bool)

  /** What the detectors find in one outgoing payload. */
  datatype Findings = Findings(secret: bool, maskedContract: bool, maskedWording: bool, injection: bool, pii: bool)

  datatype Egress = Passes | Throws(code: BlockCode)

  function AtPayload(rule: string): Locator {
    Locator(rule, "before_provider_request", "payload", None, None, None)
  }

  predicate ProviderForbidden(p: Options) {
    (p.localRequired && !p.providerIsLocal) || (p.cloudForbidden && !p.providerIsLocal)
  }

  function ProviderObservations(p: Options): seq<Observation> {
    if !ProviderForbidden(p) then []
    else if p.localRequired then [Violated(LocalProviderRequired, AtPayload("local_provider_required"))]
    else [Violated(CloudProviderForbidden, AtPayload("cloud_provider_forbidden"))]
  }

  /** The diagnostics of one payload, in the order in which the checks run. */
  function PayloadObservations(p: Options, f: Findings): seq<Observation> {
    ProviderObservations(p)
    + (if f.secret then [Violated(SecretInProviderPayload, AtPayload("secret_in_provider_payload"))] else [])
    + (if f.maskedContract then [Violated(MaskedData, AtPayload("masked_contract_field"))] else [])
    + (if f.maskedWording then [Noticed(MaskedText, AtPayload("masked_wording"))] else [])
    + (if f.injection then [Noticed(InstructionLikeText, AtPayload("instruction_marker"))] else [])
    + (if f.pii then [Noticed(PiiRedacted, AtPayload("pii_redacted"))] else [])
  }

  function ProviderRequest(p: Options, g: Guard, f: Findings): (Guard, Egress)
    requires Indexed(g.log)
  {
    if g.blocked.Some? then (g, Throws(g.blocked.value))
    else
      var g' := ObservedAll(g, PayloadObservations(p, f));
      (g', if g'.blocked.Some? then Throws(g'.blocked.value) else Passes)
  }

  const NEW_GUARD := Guard([], [], Log([], map[], 0, 0), None, [])

  lemma {:induction false} ObservedAllConcat(g: Guard, a: seq<Observation>, b: seq<Observation>)
    requires Indexed(g.log)
    ensures ObservedAll(g, a + b) == ObservedAll(ObservedAll(g, a), b)
    decreases |a|
  {
    if a == [] {
      assert a + b == b;
    } else {
      assert (a + b)[1..] == a[1..] + b;
      ObservedAllConcat(Observed(g, a[0]), a[1..], b);
    }
  }

  lemma OneMoreObserved(g: Guard, os: seq<Observation>, i: nat)
    requires Indexed(g.log) && i < |os|
    ensures ObservedAll(g, os[..i + 1]) == Observed(ObservedAll(g, os[..i]), os[i])
  {
    assert os[..i + 1] == os[..i] + [os[i]];
    ObservedAllConcat(g, os[..i], [os[i]]);
    assert [os[i]][1..] == [];
  }

  // ------------------------------------------------------------------
  // Runs
  // ------------------------------------------------------------------

  /** One hook call: any diagnostics, or the check of an outgoing payload. */
  datatype Call = Hook(seen: seq<Observation>) | Request(f: Findings)

  function Called(p: Options, g: Guard, c: Call): (r: Guard)
    requires Indexed(g.log)
    ensures Indexed(r.log)
  {
    match c
    case Hook(seen) => ObservedAll(g, seen)
    case Request(f) => ProviderRequest(p, g, f).0
  }

  function After(p: Options, g: Guard, calls: seq<Call>): (r: Guard)
    requires Indexed(g.log)
    ensures Indexed(r.log)
    decreases |calls|
  {
    if calls == [] then g else After(p, Called(p, g, calls[0]), calls[1..])
  }

  /** The diagnostics that a sequence of calls raises, in order; a blocked request raises none. */
  function Raised(p: Options, g: Guard, calls: seq<Call>): seq<Observation>
    requires Indexed(g.log)
    decreases |calls|
  {
    if calls == [] then []
    else
      (match calls[0]
       case Hook(seen) => seen
       case Request(f) => if g.blocked.Some? then [] else PayloadObservations(p, f))
      + Raised(p, Called(p, g, calls[0]), calls[1..])
  }

  lemma {:induction false} AfterIsObserved(p: Options, g: Guard, calls: seq<Call>)
    requires Indexed(g.log)
    ensures After(p, g, calls) == ObservedAll(g, Raised(p, g, calls))
    decreases |calls|
  {
    if calls != [] {
      var now := match calls[0]
        case Hook(seen) => seen
        case Request(f) => if g.blocked.Some? then [] else PayloadObservations(p, f);
      AfterIsObserved(p, Called(p, g, calls[0]), calls[1..]);
      ObservedAllConcat(g, now, Raised(p, Called(p, g, calls[0]), calls[1..]));
    }
  }

  // ------------------------------------------------------------------
  // The block
  // ------------------------------------------------------------------

  function FirstViolation(os: seq<Observation>): Option<BlockCode> {
    if os == [] then None
    else if os[0].Violated? then Some(CodeOf(os[0].violation))
    else FirstViolation(os[1..])
  }

  lemma {:induction false} BlockIsFirstViolation(g: Guard, os: seq<Observation>)
    requires Indexed(g.log)
    ensures var r := ObservedAll(g, os);
      && r.blocked == (if g.blocked.Some? then g.blocked else FirstViolation(os))
      && r.onBlock == g.onBlock + (if g.blocked.None? && FirstViolation(os).Some? then [FirstViolation(os).value]
          else [])
    decreases |os|
  {
    if os != [] {
      BlockIsFirstViolation(Observed(g, os[0]), os[1..]);
    }
  }

  /**
   * Over any calls the block code is the class of the first violation raised and never changes
   * after that; `onBlock` fires exactly once, with that code, or not at all.
   */
  lemma BlockIsSticky(p: Options, calls: seq<Call>, more: seq<Call>)
    ensures var g := After(p, NEW_GUARD, calls);
      && g.blocked == FirstViolation(Raised(p, NEW_GUARD, calls))
      && (g.blocked.Some? ==> After(p, g, more).blocked == g.blocked)
      && g.onBlock == (if g.blocked.Some? then [g.blocked.value] else [])
  {
    var g := After(p, NEW_GUARD, calls);
    AfterIsObserved(p, NEW_GUARD, calls);
    BlockIsFirstViolation(NEW_GUARD, Raised(p, NEW_GUARD, calls));
    AfterIsObserved(p, g, more);
    BlockIsFirstViolation(g, Raised(p, g, more));
  }

  /**
   * A payload leaves only if no call has raised a violation so far and the payload shows none:
   * a permitted provider, no secret and no masked-data contract. A refusal of a blocked run
   * changes nothing.
   */
  lemma PassesIffClean(p: Options, calls: seq<Call>, f: Findings)
    ensures var g := After(p, NEW_GUARD, calls); var (g', egress) := ProviderRequest(p, g, f);
      && (egress.Passes? <==> FirstViolation(Raised(p, NEW_GUARD, calls)).None?
                              && !ProviderForbidden(p) && !f.secret && !f.maskedContract)
      && (g.blocked.Some? ==> g' == g && egress == Throws(g.blocked.value))
  {
    var g := After(p, NEW_GUARD, calls);
    AfterIsObserved(p, NEW_GUARD, calls);
    BlockIsFirstViolation(NEW_GUARD, Raised(p, NEW_GUARD, calls));
    BlockIsFirstViolation(g, PayloadObservations(p, f));
    PayloadVerdict(p, f);
  }

  lemma {:induction false} NoViolation(os: seq<Observation>)
    ensures FirstViolation(os).None? <==> forall i | 0 <= i < |os| :: !os[i].Violated?
  {
    if os != [] {
      NoViolation(os[1..]);
      assert forall i | 1 <= i < |os| :: os[i] == os[1..][i - 1];
    }
  }

  lemma PayloadVerdict(p: Options, f: Findings)
    ensures FirstViolation(PayloadObservations(p, f)).None? <==> !ProviderForbidden(p) && !f.secret && !f.maskedContract
  {
    var os := PayloadObservations(p, f);
    NoViolation(os);
    if ProviderForbidden(p) || f.secret || f.maskedContract {
      assert os[0].Violated?;
    }
  }

  /** The violations that a block code stands for. */
  function ClassOf(code: BlockCode): set<ViolationKind> {
    match code
    case SecretInPayload => {SecretInProviderPayload}
    case ToolBlocked => {ToolNotAllowed, UnsafeToolArguments}
    case ToolResultBlocked => {ToolResultTooLarge}
    case ProviderBlocked => {LocalProviderRequired, CloudProviderForbidden}
    case MaskedDataBlocked => {MaskedData}
  }

  /** Diagnostic `i` is the first violation. */
  predicate FirstAt(os: seq<Observation>, i: nat) {
    i < |os| && os[i].Violated? && forall j | 0 <= j < i :: !os[j].Violated?
  }

  lemma {:induction false} FirstViolationAt(os: seq<Observation>)
    ensures FirstViolation(os).None? ==> forall i | 0 <= i < |os| :: !os[i].Violated?
    ensures FirstViolation(os).Some? ==>
              exists i: nat :: FirstAt(os, i) && os[i].violation in ClassOf(FirstViolation(os).value)
  {
    if os != [] {
      FirstViolationAt(os[1..]);
      if os[0].Violated? {
        assert FirstAt(os, 0);
      } else if FirstViolation(os).Some? {
        var i: nat :| FirstAt(os[1..], i) && os[1..][i].violation in ClassOf(FirstViolation(os[1..]).value);
        assert FirstAt(os, i + 1) by {
          assert forall j | 1 <= j < i + 1 :: os[j] == os[1..][j - 1];
        }
      }
    }
  }

  /** Over any calls: the run is blocked exactly if a violation was raised, under the class of the first one. */
  lemma BlockNamesClass(p: Options, calls: seq<Call>)
    ensures var os := Raised(p, NEW_GUARD, calls); var code := After(p, NEW_GUARD, calls).blocked;
      && (code.None? <==> forall i | 0 <= i < |os| :: !os[i].Violated?)
      && (code.Some? ==> exists i: nat :: FirstAt(os, i) && os[i].violation in ClassOf(code.value))
  {
    AfterIsObserved(p, NEW_GUARD, calls);
    BlockIsFirstViolation(NEW_GUARD, Raised(p, NEW_GUARD, calls));
    FirstViolationAt(Raised(p, NEW_GUARD, calls));
  }

  function ViolationsIn(os: seq<Observation>): seq<ViolationKind> {
    if os == [] then []
    else ViolationsIn(os[..|os| - 1]) + if os[|os| - 1].Violated? then [os[|os| - 1].violation] else []
  }

  function NoticesIn(os: seq<Observation>): seq<NoticeKind> {
    if os == [] then []
    else NoticesIn(os[..|os| - 1]) + if os[|os| - 1].Noticed? then [os[|os| - 1].notice] else []
  }

  /** A list with the entry if it is shown. */
  function OneIf<T>(shown: bool, x: T): seq<T> { if shown then [x] else [] }

  lemma ViolationListed(os: seq<Observation>, shown: bool, v: ViolationKind, l: Locator)
    ensures ViolationsIn(os + OneIf(shown, Violated(v, l))) == ViolationsIn(os) + OneIf(shown, v)
    ensures NoticesIn(os + OneIf(shown, Violated(v, l))) == NoticesIn(os)
  {
    if shown {
      assert (os + [Violated(v, l)])[..|os|] == os;
    } else {
      assert os + OneIf(shown, Violated(v, l)) == os;
    }
  }

  lemma NoticeListed(os: seq<Observation>, shown: bool, n: NoticeKind, l: Locator)
    ensures ViolationsIn(os + OneIf(shown, Noticed(n, l))) == ViolationsIn(os)
    ensures NoticesIn(os + OneIf(shown, Noticed(n, l))) == NoticesIn(os) + OneIf(shown, n)
  {
    if shown {
      assert (os + [Noticed(n, l)])[..|os|] == os;
    } else {
      assert os + OneIf(shown, Noticed(n, l)) == os;
    }
  }

  lemma ProviderRaises(p: Options)
    ensures ViolationsIn(ProviderObservations(p))
         == OneIf(p.localRequired && !p.providerIsLocal, LocalProviderRequired)
            + OneIf(!p.localRequired && p.cloudForbidden && !p.providerIsLocal, CloudProviderForbidden)
    ensures NoticesIn(ProviderObservations(p)) == []
  {
    assert |ProviderObservations(p)| == 1 ==> ProviderObservations(p)[..0] == [];
  }

  /** Where a check of the outgoing payload stands after its violations. */
  function PayloadViolations(p: Options, f: Findings): seq<ViolationKind> {
    OneIf(p.localRequired && !p.providerIsLocal, LocalProviderRequired)
    + OneIf(!p.localRequired && p.cloudForbidden && !p.providerIsLocal, CloudProviderForbidden)
    + OneIf(f.secret, SecretInProviderPayload) + OneIf(f.maskedContract, MaskedData)
  }

  function PayloadNotices(f: Findings): seq<NoticeKind> {
    OneIf(f.maskedWording, MaskedText) + OneIf(f.injection, InstructionLikeText) + OneIf(f.pii, PiiRedacted)
  }

  lemma ViolationsRaised(p: Options, f: Findings) returns (os: seq<Observation>)
    ensures ViolationsIn(os) == PayloadViolations(p, f) && NoticesIn(os) == []
    ensures PayloadObservations(p, f) == os
              + OneIf(f.maskedWording, Noticed(MaskedText, AtPayload("masked_wording")))
              + OneIf(f.injection, Noticed(InstructionLikeText, AtPayload("instruction_marker")))
              + OneIf(f.pii, Noticed(PiiRedacted, AtPayload("pii_redacted")))
  {
    var l2, l3 := AtPayload("secret_in_provider_payload"), AtPayload("masked_contract_field");
    var a := ProviderObservations(p);
    var b := a + OneIf(f.secret, Violated(SecretInProviderPayload, l2));
    ProviderRaises(p);
    ViolationListed(a, f.secret, SecretInProviderPayload, l2);
    ViolationListed(b, f.maskedContract, MaskedData, l3);
    os := b + OneIf(f.maskedContract, Violated(MaskedData, l3));
  }

  /** A payload raises exactly what it shows, in the order of the checks. */
  lemma PayloadRaises(p: Options, f: Findings)
    ensures ViolationsIn(PayloadObservations(p, f)) == PayloadViolations(p, f)
    ensures NoticesIn(PayloadObservations(p, f)) == PayloadNotices(f)
  {
    var l0, l1 := AtPayload("masked_wording"), AtPayload("instruction_marker");
    var os := ViolationsRaised(p, f);
    var a := os + OneIf(f.maskedWording, Noticed(MaskedText, l0));
    var b := a + OneIf(f.injection, Noticed(InstructionLikeText, l1));
    NoticeListed(os, f.maskedWording, MaskedText, l0);
    NoticeListed(a, f.injection, InstructionLikeText, l1);
    NoticeListed(b, f.pii, PiiRedacted, AtPayload("pii_redacted"));
  }

  lemma ObservedLists(g: Guard, o: Observation)
    requires Indexed(g.log)
    ensures Observed(g, o).violations == g.violations + if o.Violated? then [o.violation] else []
    ensures Observed(g, o).notices == g.notices + if o.Noticed? then [o.notice] else []
  {
  }

  lemma {:induction false} ListsGrow(g: Guard, os: seq<Observation>)
    requires Indexed(g.log)
    ensures ObservedAll(g, os).violations == g.violations + ViolationsIn(os)
    ensures ObservedAll(g, os).notices == g.notices + NoticesIn(os)
    decreases |os|
  {
    if os != [] {
      var n := |os| - 1;
      ListsGrow(g, os[..n]);
      OneMoreObserved(g, os, n);
      assert os[..n + 1] == os;
      ObservedLists(ObservedAll(g, os[..n]), os[n]);
    }
  }

  /** Violations and notices are listed as they were raised, in order. */
  lemma ListsAreRaised(p: Options, calls: seq<Call>)
    ensures var g := After(p, NEW_GUARD, calls); var os := Raised(p, NEW_GUARD, calls);
      g.violations == ViolationsIn(os) && g.notices == NoticesIn(os)
  {
    AfterIsObserved(p, NEW_GUARD, calls);
    ListsGrow(NEW_GUARD, Raised(p, NEW_GUARD, calls));
  }

  /** An incident's action says what was done: blocked, cleaned, or only noted. */
  lemma ActionsTell(o: Observation)
    ensures KeyOf(o).locator == o.locator
    ensures KeyOf(o).action == Block <==> o.Violated?
    ensures KeyOf(o).action == Sanitize <==>
            o in [Noticed(SensitiveRedacted, o.locator), Noticed(PiiRedacted, o.locator)]
  {
  }

  // ------------------------------------------------------------------
  // The diagnostics
  // ------------------------------------------------------------------

  function Keys(os: seq<Observation>): seq<Key> {
    seq(|os|, i requires 0 <= i < |os| => KeyOf(os[i]))
  }

  /** Distinct keys in the order in which they were first raised. */
  function FirstSeen(keys: seq<Key>): seq<Key> {
    if keys == [] then []
    else
      var before := keys[..|keys| - 1];
      FirstSeen(before) + if keys[|keys| - 1] in before then [] else [keys[|keys| - 1]]
  }

  function Stored(keys: seq<Key>): seq<Key> {
    var first := FirstSeen(keys);
    if |first| <= MAX_INCIDENTS then first else first[..MAX_INCIDENTS]
  }

  function Occurrences(incidents: seq<Incident>): nat {
    if incidents == [] then 0
    else Occurrences(incidents[..|incidents| - 1]) + incidents[|incidents| - 1].occurrences
  }

  function Times(keys: seq<Key>, k: Key): nat {
    if keys == [] then 0 else Times(keys[..|keys| - 1], k) + if keys[|keys| - 1] == k then 1 else 0
  }

  lemma TimesNext(keys: seq<Key>, key: Key)
    ensures forall k :: Times(keys + [key], k) == Times(keys, k) + if key == k then 1 else 0
  {
    assert (keys + [key])[..|keys|] == keys;
  }

  lemma {:induction false} NeverRaised(keys: seq<Key>, key: Key)
    requires key !in keys
    ensures Times(keys, key) == 0
  {
    if keys != [] { NeverRaised(keys[..|keys| - 1], key); }
  }

  /** The incidents are those of the keys in `stored`, each with the number of times it was raised. */
  ghost predicate Counts(log: Log, stored: seq<Key>, keys: seq<Key>) {
    && |log.incidents| == |stored| && log.total == |keys|
    && (forall i | 0 <= i < |stored| :: log.incidents[i] == Incident(stored[i], Times(keys, stored[i])))
    && Occurrences(log.incidents) + log.dropped == log.total
  }

  ghost predicate Summarizes(log: Log, keys: seq<Key>) {
    Counts(log, Stored(keys), keys)
  }

  lemma {:induction false} OccurrencesUpdate(incidents: seq<Incident>, i: nat, x: Incident)
    requires i < |incidents|
    ensures Occurrences(incidents[i := x]) == Occurrences(incidents) - incidents[i].occurrences + x.occurrences
  {
    var n := |incidents| - 1;
    if i == n {
      assert incidents[i := x][..n] == incidents[..n];
    } else {
      assert incidents[i := x][..n] == incidents[..n][i := x];
      OccurrencesUpdate(incidents[..n], i, x);
    }
  }

  lemma {:induction false} FirstSeenMembers(keys: seq<Key>)
    ensures forall k :: k in FirstSeen(keys) <==> k in keys
    ensures Distinct(FirstSeen(keys))
  {
    if keys != [] {
      var n := |keys| - 1;
      FirstSeenMembers(keys[..n]);
      assert keys == keys[..n] + [keys[n]];
    }
  }

  /** Only stored keys were raised, unless the store is full; and a new key is stored while there is room. */
  lemma StoredNext(keys: seq<Key>, key: Key)
    ensures Stored(keys + [key]) == Stored(keys) + if key !in keys && |Stored(keys)| < MAX_INCIDENTS then [key] else []
    ensures forall k <- Stored(keys) :: k in keys
    ensures |Stored(keys)| < MAX_INCIDENTS ==> forall k <- keys :: k in Stored(keys)
    ensures Distinct(Stored(keys))
  {
    FirstSeenMembers(keys);
    assert (keys + [key])[..|keys|] == keys;
  }

  lemma RepeatCounts(log: Log, stored: seq<Key>, keys: seq<Key>, key: Key)
    requires Indexed(log) && Counts(log, stored, keys) && Distinct(stored) && key in log.index
    ensures Counts(Recorded(log, key), stored, keys + [key]) && key in stored
  {
    TimesNext(keys, key);
    var i := log.index[key];
    assert log.incidents[i].key == stored[i];
    OccurrencesUpdate(log.incidents, i, Incident(key, log.incidents[i].occurrences + 1));
  }

  lemma NotStored(log: Log, stored: seq<Key>, keys: seq<Key>, key: Key)
    requires Indexed(log) && Counts(log, stored, keys) && key !in log.index
    ensures key !in stored
  {
    forall i | 0 <= i < |stored| ensures stored[i] != key {
      assert log.incidents[i].key == stored[i];
    }
  }

  lemma FirstCountAt(log: Log, stored: seq<Key>, keys: seq<Key>, key: Key, i: nat)
    requires Indexed(log) && Counts(log, stored, keys) && key !in log.index && key !in keys
    requires |stored| < MAX_INCIDENTS && i <= |stored|
    ensures |Recorded(log, key).incidents| == |stored| + 1
    ensures var k := (stored + [key])[i]; Recorded(log, key).incidents[i] == Incident(k, Times(keys + [key], k))
  {
    TimesNext(keys, key);
    if i < |stored| {
      NotStored(log, stored, keys, key);
      assert stored[i] != key;
    } else {
      NeverRaised(keys, key);
    }
  }

  lemma FirstCounts(log: Log, stored: seq<Key>, keys: seq<Key>, key: Key)
    requires Indexed(log) && Counts(log, stored, keys) && key !in log.index
    requires |stored| < MAX_INCIDENTS && key !in keys
    ensures Counts(Recorded(log, key), stored + [key], keys + [key])
  {
    OccurrencesAppend(log.incidents, Incident(key, 1));
    forall i | 0 <= i < |stored| + 1
      ensures i < |Recorded(log, key).incidents|
      ensures var k := (stored + [key])[i]; Recorded(log, key).incidents[i] == Incident(k, Times(keys + [key], k))
    {
      FirstCountAt(log, stored, keys, key, i);
    }
  }

  lemma OccurrencesAppend(incidents: seq<Incident>, x: Incident)
    ensures Occurrences(incidents + [x]) == Occurrences(incidents) + x.occurrences
  {
    assert (incidents + [x])[..|incidents|] == incidents;
  }

  lemma DroppedCounts(log: Log, stored: seq<Key>, keys: seq<Key>, key: Key)
    requires Indexed(log) && Counts(log, stored, keys) && key !in log.index && |stored| >= MAX_INCIDENTS
    ensures Counts(Recorded(log, key), stored, keys + [key])
  {
    TimesNext(keys, key);
    NotStored(log, stored, keys, key);
  }

  lemma RecordedSummarizes(log: Log, keys: seq<Key>, key: Key)
    requires Indexed(log) && Summarizes(log, keys)
    ensures Summarizes(Recorded(log, key), keys + [key])
  {
    StoredNext(keys, key);
    if key in log.index {
      RepeatCounts(log, Stored(keys), keys, key);
    } else {
      NotStored(log, Stored(keys), keys, key);
      if |Stored(keys)| < MAX_INCIDENTS {
        FirstCounts(log, Stored(keys), keys, key);
      } else {
        DroppedCounts(log, Stored(keys), keys, key);
      }
    }
  }

  lemma KeysNext(keys: seq<Key>, os: seq<Observation>)
    requires os != []
    ensures keys + Keys(os) == (keys + [KeyOf(os[0])]) + Keys(os[1..])
  {
  }

  lemma ObservedLog(g: Guard, o: Observation)
    requires Indexed(g.log)
    ensures Observed(g, o).log == Recorded(g.log, KeyOf(o))
  {
  }

  lemma {:induction false} ObservedSummarizes(g: Guard, keys: seq<Key>, os: seq<Observation>)
    requires Indexed(g.log) && Summarizes(g.log, keys)
    ensures Summarizes(ObservedAll(g, os).log, keys + Keys(os))
    decreases |os|
  {
    if os == [] {
      assert keys + Keys(os) == keys;
    } else {
      var g' := Observed(g, os[0]);
      ObservedLog(g, os[0]);
      RecordedSummarizes(g.log, keys, KeyOf(os[0]));
      ObservedSummarizes(g', keys + [KeyOf(os[0])], os[1..]);
      KeysNext(keys, os);
    }
  }

  lemma NewLogSummarizes()
    ensures Summarizes(NEW_GUARD.log, [])
  {
  }

  lemma EmptyPrefix(keys: seq<Key>)
    ensures [] + keys == keys
  {
  }

  lemma RunSummarizes(g: Guard, none: seq<Key>, os: seq<Observation>)
    requires Indexed(g.log) && none == [] && Summarizes(g.log, none)
    ensures Summarizes(ObservedAll(g, os).log, Keys(os))
  {
    ObservedSummarizes(g, none, os);
    EmptyPrefix(Keys(os));
  }

  lemma StoredIsShort(keys: seq<Key>)
    ensures |Stored(keys)| <= MAX_INCIDENTS && Distinct(Stored(keys))
  {
    FirstSeenMembers(keys);
  }

  /**
   * Over any calls: the stored incidents are the first 64 distinct keys raised, in order and
   * without a repeat, each counted exactly; and what is stored plus what was dropped is
   * everything that was raised.
   */
  lemma DiagnosticsSummarize(p: Options, calls: seq<Call>)
    ensures var keys := Keys(Raised(p, NEW_GUARD, calls));
      && Counts(After(p, NEW_GUARD, calls).log, Stored(keys), keys)
      && |Stored(keys)| <= MAX_INCIDENTS && Distinct(Stored(keys))
  {
    var os := Raised(p, NEW_GUARD, calls);
    AfterIsObserved(p, NEW_GUARD, calls);
    NewLogSummarizes();
    RunSummarizes(NEW_GUARD, [], os);
    StoredIsShort(Keys(os));
  }

  /** `next` accounts for one diagnostic more than `log`, and sums up `key` on top of whatever `log` summed up. */
  ghost predicate AddsOne(log: Log, next: Log, key: Key) {
    && Occurrences(next.incidents) + next.dropped == Occurrences(log.incidents) + log.dropped + 1
    && forall keys | Summarizes(log, keys) :: Summarizes(next, keys + [key])
  }

  lemma RecordedAddsOne(log: Log, key: Key)
    requires Indexed(log)
    ensures AddsOne(log, Recorded(log, key), key)
  {
    forall keys | Summarizes(log, keys) ensures Summarizes(Recorded(log, key), keys + [key]) {
      RecordedSummarizes(log, keys, key);
    }
    if key in log.index {
      var i := log.index[key];
      OccurrencesUpdate(log.incidents, i, Incident(key, log.incidents[i].occurrences + 1));
    } else {
      OccurrencesAppend(log.incidents, Incident(key, 1));
    }
  }

  // ------------------------------------------------------------------
  // The guard
  // ------------------------------------------------------------------

  /** What a payload comes to in a run that is not blocked yet: the gravest reason is reported. */
  function Verdict(p: Options, f: Findings): Egress {
    if (p.localRequired || p.cloudForbidden) && !p.providerIsLocal then Throws(ProviderBlocked)
    else if f.secret then Throws(SecretInPayload)
    else if f.maskedContract then Throws(MaskedDataBlocked)
    else Passes
  }

  /** What one payload check decides, and what becomes of the block. */
  lemma RequestVerdict(p: Options, g: Guard, f: Findings)
    requires Indexed(g.log)
    ensures var (g', egress) := ProviderRequest(p, g, f);
      && (g.blocked.Some? ==> g' == g && egress == Throws(g.blocked.value))
      && (g.blocked.None? ==> egress == Verdict(p, f))
      && egress == (if g'.blocked.Some? then Throws(g'.blocked.value) else Passes)
      && g'.onBlock == g.onBlock + (if g.blocked.None? && g'.blocked.Some? then [g'.blocked.value] else [])
  {
    PayloadVerdict(p, f);
    BlockIsFirstViolation(g, PayloadObservations(p, f));
  }

  class RunGuard {
    const options: Options
    var violations: seq<ViolationKind>
    var notices: seq<NoticeKind>
    var incidents: seq<Incident>
    var incidentIndex: map<Key, nat>
    var droppedIncidents: nat
    var totalIncidents: nat
    var blockedCode: Option<BlockCode>
    ghost var onBlock: seq<BlockCode>

    ghost function State(): Guard
      reads this
    {
      Guard(violations, notices, Log(incidents, incidentIndex, droppedIncidents, totalIncidents), blockedCode, onBlock)
    }

    ghost predicate Valid()
      reads this
    {
      Indexed(State().log)
    }

    constructor (options: Options)
      ensures Valid() && State() == NEW_GUARD && this.options == options
    {
      this.options := options;
      violations, notices, incidents, incidentIndex := [], [], [], map[];
      droppedIncidents, totalIncidents, blockedCode, onBlock := 0, 0, None, [];
    }

    /** If the log sums up the keys raised so far, it sums up those and this one afterwards. */
    method Record(key: Key)
      requires Valid()
      modifies this`incidents, this`incidentIndex, this`droppedIncidents, this`totalIncidents
      ensures Valid() && State() == old(State()).(log := Recorded(old(State()).log, key))
      ensures AddsOne(old(State()).log, State().log, key)
    {
      ghost var log := State().log;
      RecordedIndexed(log, key);
      RecordedAddsOne(log, key);
      totalIncidents := totalIncidents + 1;
      if key in incidentIndex {
        var i := incidentIndex[key];
        incidents := incidents[i := Incident(key, incidents[i].occurrences + 1)];
      } else if |incidents| < MAX_INCIDENTS {
        incidentIndex := incidentIndex[key := |incidents|];
        incidents := incidents + [Incident(key, 1)];
      } else {
        droppedIncidents := droppedIncidents + 1;
      }
      assert State().log == Recorded(log, key);
    }

    method Violation(kind: ViolationKind, locator: Locator)
      requires Valid()
      modifies this
      ensures Valid() && State() == Observed(old(State()), Violated(kind, locator))
    {
      ghost var log := State().log;
      RecordedIndexed(log, Key(Block, locator));
      ghost var next := Recorded(log, Key(Block, locator));
      violations := violations + [kind];
      Record(Key(Block, locator));
      if blockedCode.None? {
        blockedCode := Some(CodeOf(kind));
        onBlock := onBlock + [CodeOf(kind)];
      }
      assert State().log == next;
    }

    method Note(kind: NoticeKind, locator: Locator)
      requires Valid()
      modifies this
      ensures Valid() && State() == Observed(old(State()), Noticed(kind, locator))
    {
      ghost var log := State().log;
      var key := Key(if kind.PiiRedacted? || kind.SensitiveRedacted? then Sanitize else Notice, locator);
      RecordedIndexed(log, key);
      ghost var next := Recorded(log, key);
      notices := notices + [kind];
      Record(key);
      assert State().log == next;
    }

    method Observe(o: Observation)
      requires Valid()
      modifies this
      ensures Valid() && State() == Observed(old(State()), o)
    {
      match o
      case Violated(kind, locator) => Violation(kind, locator);
      case Noticed(kind, locator) => Note(kind, locator);
    }

    method ObserveAll(checks: seq<Observation>)
      requires Valid()
      modifies this
      ensures Valid() && State() == ObservedAll(old(State()), checks)
    {
      ghost var g := State();
      var i := 0;
      while i < |checks|
        invariant i <= |checks| && Valid() && State() == ObservedAll(g, checks[..i])
      {
        OneMoreObserved(g, checks, i);
        Observe(checks[i]);
        i := i + 1;
      }
      assert checks[..i] == checks;
    }

    /**
     * The check of an outgoing payload. A block code once set stays, and a blocked run changes
     * nothing more; otherwise the payload passes exactly if it shows no violation, and the first
     * violation is reported once.
     */
    method BeforeProviderRequest(f: Findings) returns (egress: Egress)
      requires Valid()
      modifies this
      ensures Valid() && (State(), egress) == ProviderRequest(options, old(State()), f)
      ensures old(blockedCode).Some? ==> State() == old(State()) && egress == Throws(old(blockedCode).value)
      ensures old(blockedCode).None? ==> egress == Verdict(options, f)
      ensures egress == if blockedCode.Some? then Throws(blockedCode.value) else Passes
      ensures onBlock == old(onBlock) + if old(blockedCode).None? && blockedCode.Some? then [blockedCode.value] else []
    {
      RequestVerdict(options, State(), f);
      if blockedCode.Some? {
        return Throws(blockedCode.value);
      }
      ObserveAll(PayloadObservations(options, f));
      egress := if blockedCode.Some? then Throws(blockedCode.value) else Passes;
    }
  }
}
