/**
 * Row locks shared by transactions, seen only as "who holds what" and "who waits for what".
 */
module RowLocks {
  import opened Common

  /** The lock table is exactly the union of what each transaction holds. */
  ghost predicate LocksAre<R>(locks: map<R, nat>, held: seq<set<R>>) {
    && (forall r | r in locks :: locks[r] < |held| && r in held[locks[r]])
    && (forall t, r | 0 <= t < |held| && r in held[t] :: r in locks && locks[r] == t)
  }

  function Grant<R>(locks: map<R, nat>, t: nat, rows: set<R>): map<R, nat> {
    map r | r in locks.Keys + rows :: if r in rows then t else locks[r]
  }

  function Release<R>(locks: map<R, nat>, t: nat): map<R, nat> {
    locks - (set r | r in locks && locks[r] == t)
  }

  lemma GrantKeeps<R>(locks: map<R, nat>, held: seq<set<R>>, t: nat, rows: set<R>)
    requires LocksAre(locks, held) && t < |held|
    requires forall r | r in rows && r in locks :: locks[r] == t
    ensures LocksAre(Grant(locks, t, rows), held[t := held[t] + rows])
  {
  }

  lemma ReleaseKeeps<R>(locks: map<R, nat>, held: seq<set<R>>, t: nat)
    requires LocksAre(locks, held) && t < |held|
    ensures LocksAre(Release(locks, t), held[t := {}])
  {
  }

  /** Transaction `t` waits: it wants a row that somebody else holds. */
  predicate Waits<R(==)>(locks: map<R, nat>, wants: seq<Option<R>>, t: nat)
    requires t < |wants|
  {
    wants[t].Some? && wants[t].value in locks && locks[wants[t].value] != t
  }

  /** Every wanted row ranks strictly above every row its transaction holds. */
  ghost predicate RankedRequests<R(!new)>(held: seq<set<R>>, wants: seq<Option<R>>, rank: R -> nat)
    requires |wants| == |held|
  {
    forall t, r | 0 <= t < |held| && wants[t].Some? && r in held[t] :: rank(r) < rank(wants[t].value)
  }

  /**
   * Deadlock freedom: with ranked requests, whoever waits is, through a chain of holders,
   * behind some transaction that holds a row and does not wait.
   */
  lemma {:induction false} SomeoneRuns<R(!new)>(locks: map<R, nat>, held: seq<set<R>>, wants: seq<Option<R>>,
          rank: R -> nat, t: nat, top: nat)
    returns (free: nat)
    requires |wants| == |held| && LocksAre(locks, held) && RankedRequests(held, wants, rank)
    requires t < |held| && Waits(locks, wants, t)
    requires forall u | 0 <= u < |wants| && wants[u].Some? :: rank(wants[u].value) <= top
    ensures free < |held| && held[free] != {} && !Waits(locks, wants, free)
    decreases top - rank(wants[t].value)
  {
    var holder := locks[wants[t].value];
    assert wants[t].value in held[holder];
    if Waits(locks, wants, holder) {
      free := SomeoneRuns(locks, held, wants, rank, holder, top);
    } else {
      free := holder;
    }
  }

  function MaxRank<R>(wants: seq<Option<R>>, rank: R -> nat): (m: nat)
    ensures forall u | 0 <= u < |wants| && wants[u].Some? :: rank(wants[u].value) <= m
  {
    if wants == [] then 0
    else
      var rest := MaxRank(wants[1..], rank);
      assert forall u | 1 <= u < |wants| :: wants[u] == wants[1..][u - 1];
      if wants[0].Some? && rank(wants[0].value) > rest then rank(wants[0].value) else rest
  }
}
