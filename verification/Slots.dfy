/**
 * The sidecar's slot map: a slot is reserved before the lease request is sent, and replaced by
 * the run when the request answers. Each method is the code between two awaits.
 */
module Slots {
  import opened Common

  datatype Kind = Assistant | Steward

  datatype Role = AssistantOnly | StewardOnly | Both

  datatype Config = Config(role: Role, maxConcurrentRuns: int, stewardMaxConcurrentCalls: int)

  /** Map keys: a reservation's synthetic key, or a run id. */
  datatype Key = Reserved(kind: Kind, seqNo: nat) | RunId(id: nat)

  /** `run` numbers the leased runs in order; it stands for the identity of the run object. */
  datatype Slot = Pending(kind: Kind) | Active(kind: Kind, run: nat)

  datatype Worker = Worker(config: Config, slots: map<Key, Slot>, slotSeq: nat)

  /** What one lease request answers. */
  datatype LeaseReply = LeaseError | NoJob | Job(runId: nat, maxConcurrent: Option<int>)

  predicate EnabledKind(role: Role, kind: Kind) {
    match role
    case AssistantOnly => kind == Assistant
    case StewardOnly => kind == Steward
    case Both => true
  }

  function Budget(config: Config, kind: Kind): int {
    match kind
    case Assistant => config.maxConcurrentRuns
    case Steward => config.stewardMaxConcurrentCalls
  }

  predicate AdoptsServerConcurrency(kind: Kind) { kind == Steward }

  function OfKind(slots: map<Key, Slot>, kind: Kind): set<Key> {
    set k | k in slots && slots[k].kind == kind
  }

  function Adopted(config: Config, broadcast: Option<int>): Config {
    if broadcast.Some? && broadcast.value > config.stewardMaxConcurrentCalls
    then config.(stewardMaxConcurrentCalls := broadcast.value) else config
  }

  /** A lease may be requested: the kind is enabled and has a free slot. */
  predicate MayLease(w: Worker, kind: Kind) {
    EnabledKind(w.config.role, kind) && |OfKind(w.slots, kind)| < Budget(w.config, kind)
  }

  function Reserve(w: Worker, kind: Kind): Worker {
    var n := w.slotSeq + 1;
    w.(slotSeq := n, slots := w.slots[Reserved(kind, n) := Pending(kind)])
  }

  function Answered(w: Worker, kind: Kind, key: Key, reply: LeaseReply, run: nat): Worker {
    var freed := w.slots - {key};
    match reply
    case LeaseError => w.(slots := freed)
    case NoJob => w.(slots := freed)
    case Job(id, broadcast) =>
      w.(config := if AdoptsServerConcurrency(kind) then Adopted(w.config, broadcast) else w.config,
         slots := freed[RunId(id) := Active(kind, run)])
  }

  /** A finished run removes the entry under its id only if that entry is its own. */
  function RunEnded(w: Worker, runId: nat, kind: Kind, run: nat): Worker {
    if RunId(runId) in w.slots && w.slots[RunId(runId)] == Active(kind, run) then w.(slots := w.slots - {RunId(runId)})
    else w
  }

  /** Both maps say the same about `k`. */
  predicate SameEntry(a: map<Key, Slot>, b: map<Key, Slot>, k: Key) {
    (k in a <==> k in b) && (k in a ==> a[k] == b[k])
  }

  lemma CountsNoMore(a: set<Key>, b: set<Key>)
    requires a <= b
    ensures |a| <= |b|
  {
    assert b == a + (b - a);
  }

  /** A run that takes the place of its reservation occupies no slot more. */
  lemma AnsweredFits(w: Worker, kind: Kind, key: Key, reply: LeaseReply, run: nat)
    requires key in w.slots && w.slots[key].kind == kind
    ensures forall k :: |OfKind(Answered(w, kind, key, reply, run).slots, k)| <= |OfKind(w.slots, k)|
  {
    forall k ensures |OfKind(Answered(w, kind, key, reply, run).slots, k)| <= |OfKind(w.slots, k)| {
      var was, now := OfKind(w.slots, k), OfKind(Answered(w, kind, key, reply, run).slots, k);
      if reply.Job? && k == kind {
        assert now - {RunId(reply.runId)} <= was - {key};
        CountsNoMore(now - {RunId(reply.runId)}, was - {key});
      } else {
        CountsNoMore(now, was);
      }
    }
  }

  lemma OneMore(target: set<Key>, rest: set<Key>, k: Key)
    requires k in rest
    ensures |target - (rest - {k})| == |target - rest| + (if k in target then 1 else 0)
  {
    assert target - (rest - {k}) == (target - rest) + (if k in target then {k} else {});
  }

  class SidecarWorker {
    var config: Config
    var slots: map<Key, Slot>
    var slotSeq: nat

    ghost function State(): Worker
      reads this
    {
      Worker(config, slots, slotSeq)
    }

    constructor (config: Config)
      ensures State() == Worker(config, map[], 0)
    {
      this.config, slots, slotSeq := config, map[], 0;
    }

    /** Slots of this kind that are occupied, pending or running. */
    method InFlight(kind: Kind) returns (count: nat)
      ensures count == |OfKind(slots, kind)|
    {
      count := 0;
      var all := slots;
      var rest := all.Keys;
      ghost var target := OfKind(all, kind);
      while rest != {}
        invariant rest <= all.Keys && count == |target - rest|
        decreases rest
      {
        var k :| k in rest;
        OneMore(target, rest, k);
        if all[k].kind == kind {
          count := count + 1;
        }
        rest := rest - {k};
      }
      assert target - rest == target;
    }

    /** Up to the lease request: no slot, or a reservation held before anything is awaited. */
    method BeginLease(kind: Kind) returns (key: Option<Key>)
      modifies this
      ensures key.Some? <==> old(MayLease(State(), kind))
      ensures State() == if key.Some? then Reserve(old(State()), kind) else old(State())
      ensures key.Some? ==> key.value == Reserved(kind, slotSeq)
    {
      if !EnabledKind(config.role, kind) {
        return None;
      }
      var busy := InFlight(kind);
      if busy >= Budget(config, kind) {
        return None;
      }
      slotSeq := slotSeq + 1;
      slots := slots[Reserved(kind, slotSeq) := Pending(kind)];
      return Some(Reserved(kind, slotSeq));
    }

    method AdoptServerConcurrency(broadcast: Option<int>)
      modifies this`config
      ensures config == Adopted(old(config), broadcast)
    {
      if broadcast.None? {
        return;
      }
      if broadcast.value > config.stewardMaxConcurrentCalls {
        config := config.(stewardMaxConcurrentCalls := broadcast.value);
      }
    }

    /**
     * After the lease request: give the reservation back, or put the run in its place. Neither
     * occupies a slot more than the reservation did, of either kind, and no budget shrinks.
     */
    method EndLease(kind: Kind, key: Key, reply: LeaseReply, run: nat)
      modifies this`config, this`slots
      ensures State() == Answered(old(State()), kind, key, reply, run)
      ensures forall k :: Budget(config, k) >= Budget(old(config), k)
      ensures reply.Job? ==> RunId(reply.runId) in slots && slots[RunId(reply.runId)] == Active(kind, run)
      ensures key.Reserved? ==> key !in slots
      ensures forall k | k != key && !(reply.Job? && k == RunId(reply.runId)) :: SameEntry(slots, old(slots), k)
      ensures key in old(slots) && old(slots)[key].kind == kind ==>
        forall k :: |OfKind(slots, k)| <= |OfKind(old(slots), k)|
    {
      if key in slots && slots[key].kind == kind { AnsweredFits(State(), kind, key, reply, run); }
      match reply
      case LeaseError => slots := slots - {key};
      case NoJob => slots := slots - {key};
      case Job(id, broadcast) =>
        if AdoptsServerConcurrency(kind) {
          AdoptServerConcurrency(broadcast);
        }
        slots := slots - {key};
        slots := slots[RunId(id) := Active(kind, run)];
    }

    /** Afterwards the run has no entry under its id; an entry of another run stays, and so does every other key. */
    method Finish(runId: nat, kind: Kind, run: nat)
      modifies this`slots
      ensures State() == RunEnded(old(State()), runId, kind, run)
      ensures RunId(runId) in slots ==> slots[RunId(runId)] != Active(kind, run)
      ensures forall k | k in old(slots) && old(slots)[k] != Active(kind, run) :: SameEntry(slots, old(slots), k)
      ensures forall k | k != RunId(runId) :: SameEntry(slots, old(slots), k)
    {
      if RunId(runId) in slots && slots[RunId(runId)] == Active(kind, run) {
        slots := slots - {RunId(runId)};
      }
    }
  }
}
