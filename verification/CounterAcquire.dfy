/**
 * One counter row and any number of workers acquiring from it, with and without the row lock.
 *
 * The locked form reads the row it has just locked; the naive form reads the committed row,
 * decides, and only then takes the lock for its UPDATE.
 */
module CounterAcquire {
  import opened Common

  datatype Form = Locked | Naive

  datatype Phase =
    | Start
    | Decided          // may take a unit, has not written yet
    | Written          // holds the row lock, increment not committed
    | Granted
    | Refused

  datatype State = State(capacity: nat, active: nat, holder: Option<nat>, workers: seq<Phase>)

  predicate RowFree(s: State, w: nat) {
    s.holder == None || s.holder == Some(w)
  }

  predicate Enabled(form: Form, s: State, w: nat) {
    w < |s.workers|
    && match s.workers[w]
       case Start => form == Naive || RowFree(s, w)
       case Decided => RowFree(s, w)
       case Written => true
       case _ => false
  }

  function Goto(s: State, w: nat, p: Phase): State
    requires w < |s.workers|
  {
    s.(workers := s.workers[w := p])
  }

  function Step(form: Form, s: State, w: nat): State
    requires Enabled(form, s, w)
  {
    match s.workers[w]
    case Start =>
      if s.active >= s.capacity then Goto(s, w, Refused)
      else if form == Locked then Goto(s, w, Decided).(holder := Some(w))
      else Goto(s, w, Decided)
    case Decided => Goto(s, w, Written).(holder := Some(w))
    case Written => Goto(s, w, Granted).(active := s.active + 1, holder := None)
  }

  predicate IsRun(form: Form, s: State, ws: seq<nat>)
    decreases |ws|
  {
    ws == [] || (Enabled(form, s, ws[0]) && IsRun(form, Step(form, s, ws[0]), ws[1..]))
  }

  function After(form: Form, s: State, ws: seq<nat>): State
    requires IsRun(form, s, ws)
    decreases |ws|
  {
    if ws == [] then s else After(form, Step(form, s, ws[0]), ws[1..])
  }

  function Tally(workers: seq<Phase>, p: Phase): nat {
    if workers == [] then 0
    else Tally(workers[..|workers| - 1], p) + (if workers[|workers| - 1] == p then 1 else 0)
  }

  lemma {:induction false} TallyUpdate(workers: seq<Phase>, w: nat, q: Phase, p: Phase)
    requires w < |workers|
    ensures Tally(workers[w := q], p)
         == Tally(workers, p) - (if workers[w] == p then 1 else 0) + (if q == p then 1 else 0)
  {
    var n := |workers| - 1;
    if w == n {
      assert workers[w := q][..n] == workers[..n];
    } else {
      assert workers[w := q][..n] == workers[..n][w := q];
      TallyUpdate(workers[..n], w, q, p);
    }
  }

  lemma {:induction false} TallyAll(workers: seq<Phase>)
    requires forall i | 0 <= i < |workers| :: workers[i] == Granted || workers[i] == Refused
    ensures Tally(workers, Granted) + Tally(workers, Refused) == |workers|
  {
    if workers != [] { TallyAll(workers[..|workers| - 1]); }
  }

  lemma {:induction false} TallyNone(workers: seq<Phase>, p: Phase)
    requires forall i | 0 <= i < |workers| :: workers[i] != p
    ensures Tally(workers, p) == 0
  {
    if workers != [] { TallyNone(workers[..|workers| - 1], p); }
  }

  // ------------------------------------------------------------------
  // With the lock: the quota is exact
  // ------------------------------------------------------------------

  ghost predicate LockedInv(base: nat, s: State) {
    && base <= s.active && (base <= s.capacity ==> s.active <= s.capacity)
    && Tally(s.workers, Granted) == s.active - base
    && (Tally(s.workers, Refused) > 0 ==> s.active >= s.capacity)
    && (forall w | 0 <= w < |s.workers| && (s.workers[w] == Decided || s.workers[w] == Written) ::
          s.holder == Some(w) && s.active < s.capacity)
  }

  lemma {:induction false} LockedRun(base: nat, s: State, ws: seq<nat>)
    requires LockedInv(base, s) && IsRun(Locked, s, ws)
    ensures LockedInv(base, After(Locked, s, ws))
    ensures |After(Locked, s, ws).workers| == |s.workers| && After(Locked, s, ws).capacity == s.capacity
    decreases |ws|
  {
    if ws != [] {
      var s' := Step(Locked, s, ws[0]);
      TallyUpdate(s.workers, ws[0], s'.workers[ws[0]], Granted);
      TallyUpdate(s.workers, ws[0], s'.workers[ws[0]], Refused);
      LockedRun(base, s', ws[1..]);
    }
  }

  function Fresh(capacity: nat, active: nat, n: nat): State {
    State(capacity, active, None, seq(n, _ => Start))
  }

  /**
   * With the row lock, no interleaving grants more than the free units, and an interleaving
   * that lets every worker finish grants exactly `min(n, capacity - active)`.
   */
  lemma LockedGrantsExactly(capacity: nat, active: nat, n: nat, ws: seq<nat>)
    requires active <= capacity && IsRun(Locked, Fresh(capacity, active, n), ws)
    ensures var e := After(Locked, Fresh(capacity, active, n), ws);
      var granted := Tally(e.workers, Granted);
      && e.active == active + granted <= capacity
      && ((forall i | 0 <= i < |e.workers| :: e.workers[i] == Granted || e.workers[i] == Refused) ==>
            granted == if n <= capacity - active then n else capacity - active)
  {
    var s := Fresh(capacity, active, n);
    TallyNone(s.workers, Granted);
    TallyNone(s.workers, Refused);
    LockedRun(active, s, ws);
    var e := After(Locked, s, ws);
    if forall i | 0 <= i < |e.workers| :: e.workers[i] == Granted || e.workers[i] == Refused { TallyAll(e.workers); }
  }

  // ------------------------------------------------------------------
  // Without it: one schedule grants everybody
  // ------------------------------------------------------------------

  /** The first `done` workers were granted, the next ones have read a stale row. */
  function Half(capacity: nat, active: nat, n: nat, read: nat, done: nat): State
    requires done <= read <= n
  {
    State(capacity, active + done, None,
          seq(n, i => if i < done then Granted else if i < read then Decided else Start))
  }

  /** Read everywhere first, then update and commit one by one. */
  function ReadAll(n: nat, from: nat): seq<nat>
    requires from <= n
    decreases n - from
  {
    if from == n then [] else [from] + ReadAll(n, from + 1)
  }

  function WriteAll(n: nat, from: nat): seq<nat>
    requires from <= n
    decreases n - from
  {
    if from == n then [] else [from, from] + WriteAll(n, from + 1)
  }

  lemma {:induction false} ReadsRun(capacity: nat, active: nat, n: nat, from: nat, rest: seq<nat>)
    requires active < capacity && from <= n
    requires IsRun(Naive, Half(capacity, active, n, n, 0), rest)
    ensures IsRun(Naive, Half(capacity, active, n, from, 0), ReadAll(n, from) + rest)
    ensures After(Naive, Half(capacity, active, n, from, 0), ReadAll(n, from) + rest)
         == After(Naive, Half(capacity, active, n, n, 0), rest)
    decreases n - from
  {
    if from == n {
      assert ReadAll(n, from) + rest == rest;
    } else {
      ReadsRun(capacity, active, n, from + 1, rest);
      assert (ReadAll(n, from) + rest)[1..] == ReadAll(n, from + 1) + rest;
      assert Step(Naive, Half(capacity, active, n, from, 0), from) == Half(capacity, active, n, from + 1, 0);
    }
  }

  lemma {:induction false} WritesRun(capacity: nat, active: nat, n: nat, from: nat)
    requires from <= n
    ensures IsRun(Naive, Half(capacity, active, n, n, from), WriteAll(n, from))
    ensures After(Naive, Half(capacity, active, n, n, from), WriteAll(n, from)) == Half(capacity, active, n, n, n)
    decreases n - from
  {
    if from < n {
      WritesRun(capacity, active, n, from + 1);
      var s := Half(capacity, active, n, n, from);
      var ws := WriteAll(n, from);
      assert ws[1..][1..] == WriteAll(n, from + 1);
      assert Step(Naive, Step(Naive, s, from), from) == Half(capacity, active, n, n, from + 1);
    }
  }

  lemma {:induction false} AllGranted(workers: seq<Phase>)
    requires forall i | 0 <= i < |workers| :: workers[i] == Granted
    ensures Tally(workers, Granted) == |workers|
  {
    if workers != [] { AllGranted(workers[..|workers| - 1]); }
  }

  /**
   * Without the lock: for every capacity with a free unit and every number of workers, one
   * schedule grants all of them, so the quota is broken as soon as workers outnumber units.
   */
  lemma NaiveGrantsEverybody(capacity: nat, active: nat, n: nat) returns (ws: seq<nat>)
    requires active < capacity
    ensures IsRun(Naive, Fresh(capacity, active, n), ws)
    ensures Tally(After(Naive, Fresh(capacity, active, n), ws).workers, Granted) == n
    ensures After(Naive, Fresh(capacity, active, n), ws).active == active + n
  {
    ws := ReadAll(n, 0) + WriteAll(n, 0);
    assert Fresh(capacity, active, n) == Half(capacity, active, n, 0, 0);
    WritesRun(capacity, active, n, 0);
    ReadsRun(capacity, active, n, 0, WriteAll(n, 0));
    AllGranted(Half(capacity, active, n, n, n).workers);
  }

  ghost predicate NaiveInv(base: nat, n: nat, s: State) {
    && |s.workers| == n
    && Tally(s.workers, Granted) == s.active - base
    && base <= s.active
    && (base >= s.capacity ==> forall i | 0 <= i < |s.workers| :: s.workers[i] == Start || s.workers[i] == Refused)
  }

  lemma {:induction false} NaiveRun(base: nat, n: nat, s: State, ws: seq<nat>)
    requires NaiveInv(base, n, s) && IsRun(Naive, s, ws)
    ensures NaiveInv(base, n, After(Naive, s, ws)) && After(Naive, s, ws).capacity == s.capacity
    decreases |ws|
  {
    if ws != [] {
      var s' := Step(Naive, s, ws[0]);
      TallyUpdate(s.workers, ws[0], s'.workers[ws[0]], Granted);
      NaiveRun(base, n, s', ws[1..]);
    }
  }

  lemma {:induction false} TallyBound(workers: seq<Phase>, p: Phase)
    ensures Tally(workers, p) <= |workers|
  {
    if workers != [] { TallyBound(workers[..|workers| - 1], p); }
  }

  /** The naive form can pass its capacity exactly when a unit is free and workers outnumber the free units. */
  lemma NaiveOvergrantsIff(capacity: nat, active: nat, n: nat)
    requires active <= capacity
    ensures (exists ws :: IsRun(Naive, Fresh(capacity, active, n), ws)
                          && After(Naive, Fresh(capacity, active, n), ws).active > capacity)
       <==> active < capacity < active + n
  {
    var s := Fresh(capacity, active, n);
    if active < capacity < active + n {
      var ws := NaiveGrantsEverybody(capacity, active, n);
    }
    if ws :| IsRun(Naive, s, ws) && After(Naive, s, ws).active > capacity {
      TallyNone(s.workers, Granted);
      NaiveRun(active, n, s, ws);
      var e := After(Naive, s, ws);
      TallyBound(e.workers, Granted);
      if active == capacity {
        TallyNone(e.workers, Granted);
        assert false;
      }
    }
  }

  // ------------------------------------------------------------------
  // Both forms: one writer at a time, and everybody finishes
  // ------------------------------------------------------------------

  /** The row lock belongs to the worker between its UPDATE, or its locking read, and its commit. */
  ghost predicate OneWriter(form: Form, s: State) {
    && (forall w | 0 <= w < |s.workers| && (s.workers[w] == Written || (form == Locked && s.workers[w] == Decided)) ::
          s.holder == Some(w))
    && (s.holder.Some? ==>
          && s.holder.value < |s.workers|
          && (s.workers[s.holder.value] == Written || s.workers[s.holder.value] == Decided))
  }

  function StepsOf(p: Phase): nat {
    match p
    case Start => 3
    case Decided => 2
    case Written => 1
    case _ => 0
  }

  function StepsLeft(workers: seq<Phase>): nat {
    if workers == [] then 0 else StepsLeft(workers[..|workers| - 1]) + StepsOf(workers[|workers| - 1])
  }

  lemma {:induction false} StepsUpdate(workers: seq<Phase>, w: nat, p: Phase)
    requires w < |workers|
    ensures StepsLeft(workers[w := p]) == StepsLeft(workers) - StepsOf(workers[w]) + StepsOf(p)
  {
    var n := |workers| - 1;
    if w == n {
      assert workers[w := p][..n] == workers[..n];
    } else {
      assert workers[w := p][..n] == workers[..n][w := p];
      StepsUpdate(workers[..n], w, p);
    }
  }

  lemma {:induction false} RunShrinks(form: Form, s: State, ws: seq<nat>)
    requires OneWriter(form, s) && IsRun(form, s, ws)
    ensures OneWriter(form, After(form, s, ws))
    ensures |ws| + StepsLeft(After(form, s, ws).workers) <= StepsLeft(s.workers)
    decreases |ws|
  {
    if ws != [] {
      var s' := Step(form, s, ws[0]);
      StepsUpdate(s.workers, ws[0], s'.workers[ws[0]]);
      RunShrinks(form, s', ws[1..]);
    }
  }

  lemma {:induction false} AtMostThreeEach(workers: seq<Phase>)
    ensures StepsLeft(workers) <= 3 * |workers|
  {
    if workers != [] { AtMostThreeEach(workers[..|workers| - 1]); }
  }

  /**
   * Either form, any schedule: between its UPDATE and its commit a worker has the row to itself;
   * a schedule has at most three steps for each worker; and while somebody is not done,
   * somebody can go on.
   */
  lemma WritersAloneAndDone(form: Form, capacity: nat, active: nat, n: nat, ws: seq<nat>, w: nat)
    requires IsRun(form, Fresh(capacity, active, n), ws)
    ensures var e := After(form, Fresh(capacity, active, n), ws);
      && (forall u, v | 0 <= u < |e.workers| && 0 <= v < |e.workers| ::
            e.workers[u] == Written && e.workers[v] == Written ==> u == v)
      && |ws| <= 3 * n
      && (w < |e.workers| && StepsOf(e.workers[w]) > 0 ==> exists u :: Enabled(form, e, u))
  {
    var s := Fresh(capacity, active, n);
    RunShrinks(form, s, ws);
    AtMostThreeEach(s.workers);
    var e := After(form, s, ws);
    if w < |e.workers| && StepsOf(e.workers[w]) > 0 {
      assert Enabled(form, e, if e.holder.Some? then e.holder.value else w);
    }
  }
}
