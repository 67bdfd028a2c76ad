/**
 * Quotas over a list of counter rows ("dimensions"): all of them are taken or none is.
 */
module MultiDimension {
  import opened Common

  datatype Counter = Counter(capacity: nat, active: nat)

  type Rows = map<nat, Counter>

  // ------------------------------------------------------------------
  // One transaction on its own
  // ------------------------------------------------------------------

  predicate HasRoom(rows: Rows, c: nat) {
    c in rows ==> rows[c].active < rows[c].capacity
  }

  function Raise(rows: Rows, c: nat): Rows {
    if c in rows then rows[c := rows[c].(active := rows[c].active + 1)] else rows
  }

  function Lower(rows: Rows, c: nat): Rows {
    if c in rows && rows[c].active > 0 then rows[c := rows[c].(active := rows[c].active - 1)] else rows
  }

  function RaiseAll(rows: Rows, specs: seq<nat>): Rows {
    if specs == [] then rows else Raise(RaiseAll(rows, specs[..|specs| - 1]), specs[|specs| - 1])
  }

  function LowerAll(rows: Rows, specs: seq<nat>): Rows {
    if specs == [] then rows else Lower(LowerAll(rows, specs[..|specs| - 1]), specs[|specs| - 1])
  }

  /** Raising adds each dimension's multiplicity to its row and touches nothing else. */
  lemma {:induction false} RaiseAllCounts(rows: Rows, specs: seq<nat>)
    ensures RaiseAll(rows, specs).Keys == rows.Keys
    ensures forall c | c in rows ::
              RaiseAll(rows, specs)[c] == rows[c].(active := rows[c].active + multiset(specs)[c])
  {
    if specs != [] {
      var n := |specs| - 1;
      RaiseAllCounts(rows, specs[..n]);
      assert specs == specs[..n] + [specs[n]];
    }
  }

  lemma {:induction false} LowerAllCounts(rows: Rows, specs: seq<nat>)
    ensures LowerAll(rows, specs).Keys == rows.Keys
    ensures forall c | c in rows ::
              LowerAll(rows, specs)[c] == rows[c].(active :=
                if rows[c].active >= multiset(specs)[c] then rows[c].active - multiset(specs)[c] else 0)
  {
    if specs != [] {
      var n := |specs| - 1;
      LowerAllCounts(rows, specs[..n]);
      assert specs == specs[..n] + [specs[n]];
    }
  }

  /** Releasing what was acquired restores every counter, even when a dimension is listed twice. */
  lemma ReleaseUndoesAcquire(rows: Rows, specs: seq<nat>)
    ensures LowerAll(RaiseAll(rows, specs), specs) == rows
  {
    RaiseAllCounts(rows, specs);
    LowerAllCounts(RaiseAll(rows, specs), specs);
  }

  ghost predicate Bounded(rows: Rows) {
    forall c | c in rows :: rows[c].active <= rows[c].capacity
  }

  lemma {:induction false} DistinctOnce(specs: seq<nat>, c: nat)
    requires Distinct(specs)
    ensures multiset(specs)[c] == if c in specs then 1 else 0
  {
    if specs != [] {
      var n := |specs| - 1;
      DistinctOnce(specs[..n], c);
      assert specs == specs[..n] + [specs[n]];
      assert specs[n] !in specs[..n];
    }
  }

  /** Adding every entry of the list one by one stays within the capacity of every listed row. */
  ghost predicate Fits(rows: Rows, specs: seq<nat>) {
    forall c <- specs :: c in rows ==> rows[c].active + multiset(specs)[c] <= rows[c].capacity
  }

  lemma RefusedNeverFits(rows: Rows, specs: seq<nat>, c: nat)
    requires c in specs && !HasRoom(rows, c)
    ensures !Fits(rows, specs)
  {
    assert c in multiset(specs);
  }

  /** The next entry fits exactly if its row, raised so far, still has room; if not, the list never fits. */
  lemma OneMoreEntry(rows: Rows, specs: seq<nat>, k: nat)
    requires k < |specs| && Fits(rows, specs[..k]) && forall c <- specs :: HasRoom(rows, c)
    ensures HasRoom(RaiseAll(rows, specs[..k]), specs[k]) <==> Fits(rows, specs[..k + 1])
    ensures Fits(rows, specs) ==> Fits(rows, specs[..k + 1])
    ensures Distinct(specs) ==> Fits(rows, specs[..k + 1])
  {
    RaiseAllCounts(rows, specs[..k]);
    assert specs[..k + 1] == specs[..k] + [specs[k]];
    assert specs == specs[..k + 1] + specs[k + 1..];
    var now := multiset(specs[..k + 1]);
    assert now[specs[k]] == multiset(specs[..k])[specs[k]] + 1;
    assert forall c :: multiset(specs)[c] == now[c] + multiset(specs[k + 1..])[c];
    if Distinct(specs) {
      forall c <- specs[..k + 1] ensures c in rows ==> rows[c].active + now[c] <= rows[c].capacity {
        DistinctOnce(specs[..k + 1], c);
        assert c in specs;
      }
    }
  }

  lemma FitsKeepsBounds(rows: Rows, specs: seq<nat>)
    requires Fits(rows, specs)
    ensures Bounded(rows) ==> Bounded(RaiseAll(rows, specs))
  {
    RaiseAllCounts(rows, specs);
    forall c | c in rows && Bounded(rows) ensures rows[c].active + multiset(specs)[c] <= rows[c].capacity {
      if c !in specs { assert c !in multiset(specs); }
    }
  }

  /** `Aborted` is the rollback after a raise that violates the table's CHECK. */
  datatype Outcome = Refused | Raised | Aborted

  class CounterTable {
    var rows: Rows

    constructor (rows: Rows)
      ensures this.rows == rows
    {
      this.rows := rows;
    }

    /**
     * Test every dimension, then raise every dimension. A raise beyond the capacity violates the
     * table's CHECK, and the transaction rolls back.
     */
    method TryAcquire(specs: seq<nat>) returns (outcome: Outcome)
      modifies this
      ensures outcome.Refused? <==> exists c <- specs :: !HasRoom(old(rows), c)
      ensures outcome.Raised? <==> Fits(old(rows), specs)
      ensures Distinct(specs) ==> !outcome.Aborted?
      ensures rows.Keys == old(rows).Keys
      ensures forall c | c in rows :: rows[c] ==
                old(rows)[c].(active := old(rows)[c].active + (if outcome.Raised? then multiset(specs)[c] else 0))
      ensures Bounded(old(rows)) ==> Bounded(rows)
    {
      for k := 0 to |specs|
        invariant forall i | 0 <= i < k :: HasRoom(rows, specs[i])
      {
        if !HasRoom(rows, specs[k]) {
          assert specs[k] in specs;
          RefusedNeverFits(rows, specs, specs[k]);
          return Refused;
        }
      }
      assert forall c <- specs :: HasRoom(rows, c);
      var before := rows;
      for k := 0 to |specs|
        invariant before == old(rows) && rows == RaiseAll(before, specs[..k]) && Fits(before, specs[..k])
      {
        assert specs[..k + 1][..k] == specs[..k];
        RaiseAllCounts(before, specs[..k]);
        OneMoreEntry(before, specs, k);
        if !HasRoom(rows, specs[k]) {
          rows := before;
          return Aborted;
        }
        rows := Raise(rows, specs[k]);
      }
      assert specs[..|specs|] == specs;
      RaiseAllCounts(before, specs);
      FitsKeepsBounds(before, specs);
      return Raised;
    }

    method Release(specs: seq<nat>)
      modifies this
      ensures rows == LowerAll(old(rows), specs)
    {
      for k := 0 to |specs|
        invariant rows == LowerAll(old(rows), specs[..k])
      {
        assert specs[..k + 1][..k] == specs[..k];
        rows := Lower(rows, specs[k]);
      }
      assert specs[..|specs|] == specs;
    }
  }
}
