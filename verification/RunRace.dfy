/**
 * Settles and cancels of one run racing by compare-and-set: each is one transaction that
 * updates the row only while the run is still running.
 */
module RunRace {
  import opened Common

  datatype Terminal = Succeeded | Cancelled

  datatype Status = Running | Ended(goal: Terminal)

  datatype Phase = Begin | Wrote | Won | NoRow | Crashed

  datatype Racer = Racer(goal: Terminal, phase: Phase)

  /** `lock` is the racer that has written the row and not yet committed. */
  datatype Race = Race(status: Status, lock: Option<nat>, racers: seq<Racer>)

  datatype Action = Run(t: nat) | Crash(t: nat)

  predicate Active(s: Race, t: nat) {
    t < |s.racers| && (s.racers[t].phase.Begin? || s.racers[t].phase.Wrote?)
  }

  /** An update whose row another transaction holds waits, and tests its condition again afterwards. */
  predicate Enabled(s: Race, a: Action) {
    Active(s, a.t) && (a.Run? && s.racers[a.t].phase.Begin? && s.status.Running? ==> s.lock.None?)
  }

  function To(s: Race, t: nat, phase: Phase): seq<Racer>
    requires t < |s.racers|
  {
    s.racers[t := s.racers[t].(phase := phase)]
  }

  function Step(s: Race, a: Action): Race
    requires Enabled(s, a)
  {
    var unlocked := if s.lock == Some(a.t) then None else s.lock;
    match a
    case Crash(t) => s.(racers := To(s, t, Crashed), lock := unlocked)
    case Run(t) =>
      if s.racers[t].phase.Wrote? then Race(Ended(s.racers[t].goal), unlocked, To(s, t, Won))
      else if s.status.Running? then s.(racers := To(s, t, Wrote), lock := Some(t))
      else s.(racers := To(s, t, NoRow))
  }

  predicate IsRun(s: Race, acts: seq<Action>)
    decreases |acts|
  {
    acts == [] || (Enabled(s, acts[0]) && IsRun(Step(s, acts[0]), acts[1..]))
  }

  function After(s: Race, acts: seq<Action>): Race
    requires IsRun(s, acts)
    decreases |acts|
  {
    if acts == [] then s else After(Step(s, acts[0]), acts[1..])
  }

  function Start(goals: seq<Terminal>): Race {
    Race(Running, None, seq(|goals|, i requires 0 <= i < |goals| => Racer(goals[i], Begin)))
  }

  /** Racer `w` alone has won, and the status is its own. */
  ghost predicate WonBy(s: Race, w: nat) {
    && w < |s.racers| && s.racers[w].phase.Won? && s.status == Ended(s.racers[w].goal)
    && forall t | 0 <= t < |s.racers| && s.racers[t].phase.Won? :: t == w
  }

  ghost predicate Inv(s: Race) {
    && (forall t | 0 <= t < |s.racers| :: s.racers[t].phase.Wrote? <==> s.lock == Some(t))
    && (s.lock.Some? ==> s.lock.value < |s.racers| && s.status.Running?)
    && (if s.status.Running?
        then forall t | 0 <= t < |s.racers| :: !s.racers[t].phase.Won? && !s.racers[t].phase.NoRow?
        else exists w: nat :: WonBy(s, w))
  }

  lemma StepKeeps(s: Race, a: Action)
    requires Inv(s) && Enabled(s, a)
    ensures Inv(Step(s, a))
  {
    var s' := Step(s, a);
    if s.status.Ended? {
      var w: nat :| WonBy(s, w);
      assert WonBy(s', w);
    } else if s'.status.Ended? {
      assert WonBy(s', a.t);
    }
  }

  lemma {:induction false} RunKeeps(s: Race, acts: seq<Action>)
    requires Inv(s) && IsRun(s, acts)
    ensures Inv(After(s, acts)) && |After(s, acts).racers| == |s.racers|
    decreases |acts|
  {
    if acts != [] {
      StepKeeps(s, acts[0]);
      RunKeeps(Step(s, acts[0]), acts[1..]);
    }
  }

  /** While a racer is active some racer can go on. */
  lemma SomebodyMoves(s: Race, t: nat) returns (u: nat)
    requires Inv(s) && Active(s, t)
    ensures Enabled(s, Run(u))
  {
    u := if s.lock.Some? then s.lock.value else t;
  }

  /**
   * Any number of settles and cancels, in any order and with any crashes before commit: the
   * status is terminal exactly if somebody has won, then exactly one has and the status is its
   * own; and once nobody is active, there is a winner exactly if some racer did not crash.
   */
  lemma ExactlyOneWinner(goals: seq<Terminal>, acts: seq<Action>)
    requires IsRun(Start(goals), acts)
    ensures var e := After(Start(goals), acts);
      && (e.status.Ended? <==> exists w: nat :: WonBy(e, w))
      && (e.status.Running? ==> forall t | 0 <= t < |e.racers| :: !e.racers[t].phase.Won?)
      && ((forall t | 0 <= t < |e.racers| :: !Active(e, t)) ==>
            (e.status.Ended? <==> exists t :: 0 <= t < |e.racers| && !e.racers[t].phase.Crashed?))
  {
    RunKeeps(Start(goals), acts);
    var e := After(Start(goals), acts);
    if e.status.Ended? {
      var w: nat :| WonBy(e, w);
      assert !e.racers[w].phase.Crashed?;
    } else if forall t | 0 <= t < |e.racers| :: !Active(e, t) {
      forall t | 0 <= t < |e.racers| ensures e.racers[t].phase.Crashed? {
        assert !Active(e, t);
      }
    }
  }

  /** Steps that a racer still has before it. */
  function StepsOf(r: Racer): nat {
    match r.phase
    case Begin => 2
    case Wrote => 1
    case _ => 0
  }

  function StepsLeft(racers: seq<Racer>): nat {
    if racers == [] then 0 else StepsLeft(racers[..|racers| - 1]) + StepsOf(racers[|racers| - 1])
  }

  lemma {:induction false} StepsUpdate(racers: seq<Racer>, t: nat, r: Racer)
    requires t < |racers|
    ensures StepsLeft(racers[t := r]) == StepsLeft(racers) - StepsOf(racers[t]) + StepsOf(r)
  {
    var n := |racers| - 1;
    if t == n {
      assert racers[t := r][..n] == racers[..n];
    } else {
      assert racers[t := r][..n] == racers[..n][t := r];
      StepsUpdate(racers[..n], t, r);
    }
  }

  lemma {:induction false} RunShrinks(s: Race, acts: seq<Action>)
    requires IsRun(s, acts)
    ensures |acts| + StepsLeft(After(s, acts).racers) <= StepsLeft(s.racers)
    decreases |acts|
  {
    if acts != [] {
      var s' := Step(s, acts[0]);
      StepsUpdate(s.racers, acts[0].t, s'.racers[acts[0].t]);
      RunShrinks(s', acts[1..]);
    }
  }

  lemma {:induction false} AtMostTwoEach(racers: seq<Racer>)
    ensures StepsLeft(racers) <= 2 * |racers|
  {
    if racers != [] { AtMostTwoEach(racers[..|racers| - 1]); }
  }

  /** Every race ends: no schedule has more than two steps for each racer. */
  lemma RacesEnd(goals: seq<Terminal>, acts: seq<Action>)
    requires IsRun(Start(goals), acts)
    ensures |acts| <= 2 * |goals|
  {
    RunShrinks(Start(goals), acts);
    AtMostTwoEach(Start(goals).racers);
  }
}
