/**
 * The counter-free lease: the quota test counts committed in-flight rows in a subquery, so
 * nothing serialises the workers between the test and the claim.
 */
module CountingSubquery {
  import opened Common

  datatype Phase =
    | Start
    | Counted          // saw fewer live rows than the capacity
    | Holding(id: nat) // locked a candidate, claim not committed
    | Leased(id: nat)
    | Full
    | NoCandidate

  /** `live[i]` says whether candidate `i` is committed as in flight; otherwise it is reserved. */
  datatype State = State(capacity: nat, live: seq<bool>, locked: set<nat>, workers: seq<Phase>)

  function Live(rows: seq<bool>): nat {
    if rows == [] then 0 else (if rows[0] then 1 else 0) + Live(rows[1..])
  }

  /** `status='reserved' ORDER BY id FOR UPDATE SKIP LOCKED LIMIT 1`. */
  function Pick(s: State, from: nat): (r: Option<nat>)
    ensures r.Some? ==> from <= r.value < |s.live| && !s.live[r.value] && r.value !in s.locked
    ensures forall i | from <= i < (if r.Some? then r.value else |s.live|) :: s.live[i] || i in s.locked
    decreases |s.live| - from
  {
    if from >= |s.live| then None
    else if !s.live[from] && from !in s.locked then Some(from)
    else Pick(s, from + 1)
  }

  predicate Enabled(s: State, w: nat) {
    w < |s.workers| && (s.workers[w].Start? || s.workers[w].Counted?
        || (s.workers[w].Holding? && s.workers[w].id < |s.live|))
  }

  function Step(s: State, w: nat): State
    requires Enabled(s, w)
  {
    match s.workers[w]
    case Start => s.(workers := s.workers[w := if Live(s.live) >= s.capacity then Full else Counted])
    case Counted =>
      (match Pick(s, 0)
       case None => s.(workers := s.workers[w := NoCandidate])
       case Some(id) => s.(workers := s.workers[w := Holding(id)], locked := s.locked + {id}))
    case Holding(id) =>
      s.(workers := s.workers[w := Leased(id)], locked := s.locked - {id}, live := s.live[id := true])
  }

  predicate IsRun(s: State, ws: seq<nat>)
    decreases |ws|
  {
    ws == [] || (Enabled(s, ws[0]) && IsRun(Step(s, ws[0]), ws[1..]))
  }

  function After(s: State, ws: seq<nat>): State
    requires IsRun(s, ws)
    decreases |ws|
  {
    if ws == [] then s else After(Step(s, ws[0]), ws[1..])
  }

  function Seeded(capacity: nat, rows: nat, n: nat): State {
    State(capacity, seq(rows, _ => false), {}, seq(n, _ => Start))
  }

  /** `read` workers have counted, the first `done` of them have committed their claims. */
  function Half(capacity: nat, rows: nat, n: nat, read: nat, done: nat): State {
    State(capacity, seq(rows, i => i < done), {},
          seq(n, (i: nat) => if i < done then Leased(i) else if i < read then Counted else Start))
  }

  function CountAll(m: nat, from: nat): seq<nat>
    requires from <= m
    decreases m - from
  {
    if from == m then [] else [from] + CountAll(m, from + 1)
  }

  function ClaimAll(m: nat, from: nat): seq<nat>
    requires from <= m
    decreases m - from
  {
    if from == m then [] else [from, from] + ClaimAll(m, from + 1)
  }

  lemma {:induction false} LivePrefix(rows: nat, done: nat)
    requires done <= rows
    ensures Live(seq(rows, i => i < done)) == done
  {
    if rows > 0 {
      var s := seq(rows, i => i < done);
      if done > 0 {
        assert s[1..] == seq(rows - 1, i => i < done - 1);
        LivePrefix(rows - 1, done - 1);
      } else {
        assert s[1..] == seq(rows - 1, i => i < 0);
        LivePrefix(rows - 1, 0);
      }
    }
  }

  lemma CountStep(capacity: nat, rows: nat, n: nat, from: nat)
    requires capacity > 0 && from < n
    ensures Enabled(Half(capacity, rows, n, from, 0), from)
    ensures Step(Half(capacity, rows, n, from, 0), from) == Half(capacity, rows, n, from + 1, 0)
  {
    LivePrefix(rows, 0);
  }

  lemma Chain(s: State, w: nat, rest: seq<nat>)
    requires Enabled(s, w) && IsRun(Step(s, w), rest)
    ensures IsRun(s, [w] + rest) && After(s, [w] + rest) == After(Step(s, w), rest)
  {
    assert ([w] + rest)[1..] == rest;
  }

  lemma {:induction false} CountsRun(capacity: nat, rows: nat, n: nat, m: nat, from: nat, rest: seq<nat>)
    requires capacity > 0 && from <= m <= n
    requires IsRun(Half(capacity, rows, n, m, 0), rest)
    ensures IsRun(Half(capacity, rows, n, from, 0), CountAll(m, from) + rest)
    ensures After(Half(capacity, rows, n, from, 0), CountAll(m, from) + rest)
        == After(Half(capacity, rows, n, m, 0), rest)
    decreases m - from
  {
    if from == m {
      assert CountAll(m, from) + rest == rest;
    } else {
      CountsRun(capacity, rows, n, m, from + 1, rest);
      CountStep(capacity, rows, n, from);
      Chain(Half(capacity, rows, n, from, 0), from, CountAll(m, from + 1) + rest);
      assert CountAll(m, from) + rest == [from] + (CountAll(m, from + 1) + rest);
    }
  }

  lemma {:induction false} ClaimsRun(capacity: nat, rows: nat, n: nat, m: nat, from: nat)
    requires from <= m <= rows && m <= n
    ensures IsRun(Half(capacity, rows, n, m, from), ClaimAll(m, from))
    ensures After(Half(capacity, rows, n, m, from), ClaimAll(m, from)) == Half(capacity, rows, n, m, m)
    decreases m - from
  {
    if from < m {
      ClaimsRun(capacity, rows, n, m, from + 1);
      var s := Half(capacity, rows, n, m, from);
      var ws := ClaimAll(m, from);
      assert ws[1..][1..] == ClaimAll(m, from + 1);
      assert !s.live[from] && from !in s.locked;
      assert Pick(s, 0) == Some(from);
      assert Step(s, from) == s.(workers := s.workers[from := Holding(from)], locked := {from});
      assert Step(Step(s, from), from) == Half(capacity, rows, n, m, from + 1);
    }
  }

  /**
   * On every positive capacity, however small, one schedule leases to any `m` of the workers
   * for which there are rows.
   */
  lemma SubqueryLeasesEverybody(capacity: nat, rows: nat, n: nat, m: nat) returns (ws: seq<nat>)
    requires capacity > 0 && m <= n && m <= rows
    ensures IsRun(Seeded(capacity, rows, n), ws)
    ensures var e := After(Seeded(capacity, rows, n), ws);
      Live(e.live) == m && |e.workers| == n && forall w | 0 <= w < m :: e.workers[w] == Leased(w)
  {
    ws := CountAll(m, 0) + ClaimAll(m, 0);
    assert Seeded(capacity, rows, n) == Half(capacity, rows, n, 0, 0);
    ClaimsRun(capacity, rows, n, m, 0);
    CountsRun(capacity, rows, n, m, 0, ClaimAll(m, 0));
    LivePrefix(rows, m);
  }

  // ------------------------------------------------------------------
  // No schedule does worse than that
  // ------------------------------------------------------------------

  function Leases(workers: seq<Phase>): (n: nat)
    ensures n <= |workers|
  {
    if workers == [] then 0 else (if workers[0].Leased? then 1 else 0) + Leases(workers[1..])
  }

  lemma {:induction false} LeasesUpdate(workers: seq<Phase>, w: nat, p: Phase)
    requires w < |workers| && !workers[w].Leased?
    ensures Leases(workers[w := p]) == Leases(workers) + if p.Leased? then 1 else 0
  {
    if w == 0 {
      assert workers[w := p][1..] == workers[1..];
    } else {
      assert workers[w := p][1..] == workers[1..][w - 1 := p];
      LeasesUpdate(workers[1..], w - 1, p);
    }
  }

  lemma {:induction false} LiveUpdate(rows: seq<bool>, id: nat)
    requires id < |rows|
    ensures Live(rows) <= Live(rows[id := true]) <= Live(rows) + 1
  {
    if id == 0 {
      assert rows[id := true][1..] == rows[1..];
    } else {
      assert rows[id := true][1..] == rows[1..][id - 1 := true];
      LiveUpdate(rows[1..], id - 1);
    }
  }

  lemma {:induction false} LiveWithin(rows: seq<bool>)
    ensures Live(rows) <= |rows|
  {
    if rows != [] { LiveWithin(rows[1..]); }
  }

  /** Every row in flight has its own leased worker, and nobody passes the test of a zero quota. */
  ghost predicate Inv(s: State) {
    && Live(s.live) <= Leases(s.workers)
    && (s.capacity == 0 ==> forall w | 0 <= w < |s.workers| :: s.workers[w].Start? || s.workers[w].Full?)
  }

  lemma StepKeeps(s: State, w: nat)
    requires Inv(s) && Enabled(s, w)
    ensures var s' := Step(s, w);
      Inv(s') && s'.capacity == s.capacity && |s'.live| == |s.live| && |s'.workers| == |s.workers|
  {
    var p := Step(s, w).workers[w];
    LeasesUpdate(s.workers, w, p);
    if s.workers[w].Holding? { LiveUpdate(s.live, s.workers[w].id); }
  }

  lemma {:induction false} RunKeeps(s: State, ws: seq<nat>)
    requires Inv(s) && IsRun(s, ws)
    ensures var e := After(s, ws);
      Inv(e) && e.capacity == s.capacity && |e.live| == |s.live| && |e.workers| == |s.workers|
    decreases |ws|
  {
    if ws != [] {
      StepKeeps(s, ws[0]);
      RunKeeps(Step(s, ws[0]), ws[1..]);
    }
  }

  lemma {:induction false} NobodyLeased(workers: seq<Phase>)
    requires forall w | 0 <= w < |workers| :: !workers[w].Leased?
    ensures Leases(workers) == 0
  {
    if workers != [] { NobodyLeased(workers[1..]); }
  }

  /** A schedule of `n` workers on `rows` candidates ends with more rows in flight than the capacity. */
  ghost predicate Exceeds(capacity: nat, rows: nat, n: nat, ws: seq<nat>) {
    IsRun(Seeded(capacity, rows, n), ws) && Live(After(Seeded(capacity, rows, n), ws).live) > capacity
  }

  /**
   * Some schedule exceeds the capacity if and only if the capacity is positive and smaller
   * than both the number of workers and the number of candidate rows.
   */
  lemma SubqueryExceedsIff(capacity: nat, rows: nat, n: nat)
    ensures (exists ws :: Exceeds(capacity, rows, n, ws)) <==> 0 < capacity < n && capacity < rows
  {
    if 0 < capacity < n && capacity < rows {
      var ws := SubqueryLeasesEverybody(capacity, rows, n, capacity + 1);
      assert Exceeds(capacity, rows, n, ws);
    } else {
      var s := Seeded(capacity, rows, n);
      LivePrefix(rows, 0);
      assert s.live == seq(rows, i => i < 0);
      NobodyLeased(s.workers);
      forall ws | IsRun(s, ws) ensures Live(After(s, ws).live) <= capacity {
        RunKeeps(s, ws);
        var e := After(s, ws);
        LiveWithin(e.live);
        if capacity == 0 { NobodyLeased(e.workers); }
      }
    }
  }

  function StepsOf(p: Phase): nat {
    match p
    case Start => 3
    case Counted => 2
    case Holding(_) => 1
    case _ => 0
  }

  function StepsLeft(workers: seq<Phase>): nat {
    if workers == [] then 0 else StepsOf(workers[0]) + StepsLeft(workers[1..])
  }

  lemma {:induction false} StepsUpdate(workers: seq<Phase>, w: nat, p: Phase)
    requires w < |workers|
    ensures StepsLeft(workers[w := p]) == StepsLeft(workers) - StepsOf(workers[w]) + StepsOf(p)
  {
    if w == 0 {
      assert workers[w := p][1..] == workers[1..];
    } else {
      assert workers[w := p][1..] == workers[1..][w - 1 := p];
      StepsUpdate(workers[1..], w - 1, p);
    }
  }

  /** A candidate being claimed is locked and reserved, and by one worker only. */
  ghost predicate ClaimsApart(s: State) {
    && (forall w | 0 <= w < |s.workers| && s.workers[w].Holding? ::
          s.workers[w].id < |s.live| && !s.live[s.workers[w].id] && s.workers[w].id in s.locked)
    && (forall w | 0 <= w < |s.workers| && s.workers[w].Leased? ::
          s.workers[w].id < |s.live| && s.live[s.workers[w].id])
    && (forall v, w | 0 <= v < w < |s.workers| && Row(s.workers[v]).Some? :: Row(s.workers[v]) != Row(s.workers[w]))
  }

  function Row(p: Phase): Option<nat> {
    match p
    case Holding(id) => Some(id)
    case Leased(id) => Some(id)
    case _ => None
  }

  lemma StepShrinks(s: State, w: nat)
    requires ClaimsApart(s) && Enabled(s, w)
    ensures ClaimsApart(Step(s, w)) && StepsLeft(Step(s, w).workers) < StepsLeft(s.workers)
  {
    var p := Step(s, w).workers[w];
    StepsUpdate(s.workers, w, p);
    if s.workers[w].Counted? && p.Holding? {
      ClaimIsNew(s, w, p.id);
    } else if s.workers[w].Holding? {
      assert Row(s.workers[w]) == Row(p);
    }
  }

  lemma ClaimIsNew(s: State, w: nat, id: nat)
    requires ClaimsApart(s) && w < |s.workers| && id < |s.live| && !s.live[id] && id !in s.locked
    ensures forall v | 0 <= v < |s.workers| :: Row(s.workers[v]) != Some(id)
  {
  }

  lemma {:induction false} RunShrinks(s: State, ws: seq<nat>)
    requires ClaimsApart(s) && IsRun(s, ws)
    ensures ClaimsApart(After(s, ws)) && |ws| + StepsLeft(After(s, ws).workers) <= StepsLeft(s.workers)
    decreases |ws|
  {
    if ws != [] {
      StepShrinks(s, ws[0]);
      RunShrinks(Step(s, ws[0]), ws[1..]);
    }
  }

  lemma {:induction false} AtMostThreeEach(workers: seq<Phase>)
    ensures StepsLeft(workers) <= 3 * |workers|
  {
    if workers != [] { AtMostThreeEach(workers[1..]); }
  }

  /**
   * Whatever the quota test misses, SKIP LOCKED keeps rows apart: no two workers ever claim the
   * same candidate; nobody ever waits; and a schedule has at most three steps for each worker.
   */
  lemma ClaimsAreDistinct(capacity: nat, rows: nat, n: nat, ws: seq<nat>)
    requires IsRun(Seeded(capacity, rows, n), ws)
    ensures var e := After(Seeded(capacity, rows, n), ws);
      && |ws| <= 3 * n
      && (forall v, w | 0 <= v < w < |e.workers| && Row(e.workers[v]).Some? :: Row(e.workers[v]) != Row(e.workers[w]))
      && (forall w | 0 <= w < |e.workers| && StepsOf(e.workers[w]) > 0 :: Enabled(e, w))
  {
    RunShrinks(Seeded(capacity, rows, n), ws);
    AtMostThreeEach(Seeded(capacity, rows, n).workers);
  }
}
