/**
 * Seeding of users and spaces. The session does not flush on queries, so a query sees the rows
 * of the last flush; rows added since wait for the next one.
 */
module SeedLookup {
  import opened Common
  import opened SeedManifest

  lemma {:induction false} FindUserStable(users: seq<User>, more: seq<User>, name: string)
    ensures FindUser(users, name).Some? ==> FindUser(users + more, name) == FindUser(users, name)
    decreases |more|
  {
    if more == [] {
      assert users + more == users;
    } else {
      FindUserStable(users, more[..|more| - 1], name);
      assert (users + more)[..|users + more| - 1] == users + more[..|more| - 1];
    }
  }

  lemma {:induction false} FindSpaceStable(spaces: seq<Space>, more: seq<Space>, name: string)
    ensures FindSpace(spaces, name).Some? ==> FindSpace(spaces + more, name) == FindSpace(spaces, name)
    decreases |more|
  {
    if more == [] {
      assert spaces + more == spaces;
    } else {
      FindSpaceStable(spaces, more[..|more| - 1], name);
      assert (spaces + more)[..|spaces + more| - 1] == spaces + more[..|more| - 1];
    }
  }

  /** A name that stands in one row only is found there. */
  lemma {:induction false} OnlyUser(users: seq<User>, name: string, i: nat)
    requires i < |users| && users[i].name == name && !users[i].deleted
    requires forall j | 0 <= j < i :: users[j].name != name || users[j].deleted
    ensures FindUser(users, name) == Some(i)
  {
    FindUserStable(users[..i + 1], users[i + 1..], name);
    assert users[..i + 1] + users[i + 1..] == users;
    assert users[..i + 1][..i] == users[..i];
  }

  lemma {:induction false} OnlySpace(spaces: seq<Space>, name: string, i: nat)
    requires i < |spaces| && spaces[i].name == name
    requires forall j | 0 <= j < i :: spaces[j].name != name
    ensures FindSpace(spaces, name) == Some(i)
  {
    FindSpaceStable(spaces[..i + 1], spaces[i + 1..], name);
    assert spaces[..i + 1] + spaces[i + 1..] == spaces;
    assert spaces[..i + 1][..i] == spaces[..i];
  }

  lemma RostersNext(m: Manifest, k: nat)
    requires k < |m.rosterOrder| && m.rosterOrder[k] in m.rosters
    ensures Rosters(m, m.rosterOrder[..k + 1]) == Rosters(m, m.rosterOrder[..k]) + m.rosters[m.rosterOrder[k]]
    ensures forall name ::
              (exists s <- m.rosterOrder[..k + 1] :: s in m.rosters && Named(m.rosters[s], name)) <==>
              ((exists s <- m.rosterOrder[..k] :: s in m.rosters && Named(m.rosters[s], name))
               || Named(m.rosters[m.rosterOrder[k]], name))
  {
    assert m.rosterOrder[..k + 1][..k] == m.rosterOrder[..k];
    assert m.rosterOrder[..k + 1] == m.rosterOrder[..k] + [m.rosterOrder[k]];
  }

  /** Everybody on the rosters once, in order of first appearance. */
  method AllPeople(m: Manifest) returns (people: seq<Person>)
    requires WellFormed(m)
    ensures forall name :: Named(people, name) <==> Known(m, name)
    ensures DistinctNames(people)
    ensures FirstEntries(people, Rosters(m, m.rosterOrder))
  {
    people := [];
    for k := 0 to |m.rosterOrder|
      invariant forall name :: Named(people, name) <==>
                  exists s <- m.rosterOrder[..k] :: s in m.rosters && Named(m.rosters[s], name)
      invariant DistinctNames(people) && FirstEntries(people, Rosters(m, m.rosterOrder[..k]))
    {
      var roster := m.rosters[m.rosterOrder[k]];
      RostersNext(m, k);
      people := AddNew(people, roster, Rosters(m, m.rosterOrder[..k]));
    }
    assert m.rosterOrder[..|m.rosterOrder|] == m.rosterOrder;
  }

  /** Those are the first entries of their names, and no name of the list is left out. */
  ghost predicate FirstEntries(people: seq<Person>, list: seq<Person>) {
    && (forall p <- people :: p in list && FirstNamed(list, p.name) == Some(p))
    && (forall q <- list :: Named(people, q.name))
  }

  lemma {:induction false} FirstOfNone(list: seq<Person>, name: string)
    ensures FirstNamed(list, name).None? <==> !Named(list, name)
  {
    if list != [] {
      var n := |list| - 1;
      FirstOfNone(list[..n], name);
      assert list == list[..n] + [list[n]];
    }
  }

  lemma FirstEntriesNext(people: seq<Person>, list: seq<Person>, p: Person)
    requires FirstEntries(people, list)
    ensures FirstEntries(if Named(people, p.name) then people else people + [p], list + [p])
  {
    assert (list + [p])[..|list|] == list;
    FirstOfNone(list, p.name);
    forall q <- list ensures Named(people + [p], q.name) {
      var r :| r in people && r.name == q.name;
      assert r in people + [p];
    }
    assert p in people + [p];
  }

  lemma NamedNext(people: seq<Person>, p: Person)
    ensures forall name :: Named(people + [p], name) <==> Named(people, name) || p.name == name
    ensures DistinctNames(people) && !Named(people, p.name) ==> DistinctNames(people + [p])
  {
    forall name | Named(people, name) || p.name == name ensures Named(people + [p], name) {
      if Named(people, name) {
        var q :| q in people && q.name == name;
        assert q in people + [p];
      } else {
        assert p in people + [p];
      }
    }
    if !Named(people, p.name) {
      assert forall i | 0 <= i < |people| :: people[i] in people;
    }
  }

  /** The next entry, unless its name has come before. */
  method AddPerson(people: seq<Person>, p: Person, ghost list: seq<Person>) returns (all: seq<Person>)
    requires DistinctNames(people) && FirstEntries(people, list)
    ensures forall name :: Named(all, name) <==> Named(people, name) || p.name == name
    ensures DistinctNames(all) && FirstEntries(all, list + [p])
  {
    FirstEntriesNext(people, list, p);
    NamedNext(people, p);
    all := if Named(people, p.name) then people else people + [p];
  }

  method AddNew(people: seq<Person>, roster: seq<Person>, ghost list: seq<Person>) returns (all: seq<Person>)
    requires DistinctNames(people) && FirstEntries(people, list)
    ensures FirstEntries(all, list + roster)
    ensures forall name :: Named(all, name) <==> Named(people, name) || Named(roster, name)
    ensures DistinctNames(all)
  {
    all := people;
    assert list + roster[..0] == list;
    for k := 0 to |roster|
      invariant forall name :: Named(all, name) <==> Named(people, name) || Named(roster[..k], name)
      invariant DistinctNames(all) && FirstEntries(all, list + roster[..k])
    {
      var p := roster[k];
      assert roster[..k + 1] == roster[..k] + [p];
      NamedNext(roster[..k], p);
      assert list + roster[..k + 1] == (list + roster[..k]) + [p];
      all := AddPerson(all, p, list + roster[..k]);
    }
    assert roster[..|roster|] == roster;
  }

  /** Rows of `users` by name. */
  ghost predicate Finds(users: seq<User>, ids: map<string, nat>) {
    forall name | name in ids :: FindUser(users, name) == Some(ids[name])
  }

  /**
   * Queries see `users`, the rows of the last flush; new rows wait behind them in `all` and
   * are flushed at the end.
   */
  method EnsureUsers(users: seq<User>, people: seq<Person>) returns (all: seq<User>, ids: map<string, nat>)
    requires DistinctNames(people)
    ensures users <= all && Finds(all, ids)
    ensures forall name :: name in ids <==> Named(people, name)
    ensures (forall p <- people :: FindUser(users, p.name).Some?) ==> all == users
    ensures forall i | |users| <= i < |all| :: exists p <- people :: all[i] == User(p.name, p.gender, false)
  {
    all := users;
    ids := map[];
    for k := 0 to |people|
      invariant users <= all && Finds(all, ids)
      invariant forall name :: name in ids <==> Named(people[..k], name)
      invariant forall i | |users| <= i < |all| :: exists p <- people[..k] :: all[i] == User(p.name, p.gender, false)
      invariant (forall p <- people[..k] :: FindUser(users, p.name).Some?) ==> all == users
    {
      var p := people[k];
      var found := FindUser(users, p.name);
      assert people[..k + 1] == people[..k] + [p];
      if found.Some? {
        FoundIn(users, all, p.name);
        ids := ids[p.name := found.value];
      } else {
        NewUser(all, ids, User(p.name, p.gender, false));
        ids := ids[p.name := |all|];
        all := all + [User(p.name, p.gender, false)];
      }
    }
    assert people[..|people|] == people;
  }

  lemma FoundIn(users: seq<User>, all: seq<User>, name: string)
    requires users <= all && FindUser(users, name).Some?
    ensures FindUser(all, name) == FindUser(users, name)
  {
    FindUserStable(users, all[|users|..], name);
    assert users + all[|users|..] == all;
  }

  lemma NewUser(all: seq<User>, ids: map<string, nat>, u: User)
    requires Finds(all, ids) && !u.deleted
    requires forall i | 0 <= i < |all| :: all[i].name != u.name || all[i].deleted
    ensures Finds(all + [u], ids[u.name := |all|])
  {
    forall name | name in ids && name != u.name ensures FindUser(all + [u], name) == Some(ids[name]) {
      FindUserStable(all, [u], name);
    }
    OnlyUser(all + [u], u.name, |all|);
  }

  lemma AppendLast<T>(a: seq<T>, b: seq<T>, x: T)
    ensures a + (b + [x]) == (a + b) + [x]
  {
  }

  // ------------------------------------------------------------------
  // Spaces
  // ------------------------------------------------------------------

  ghost predicate FindsSpaces(spaces: seq<Space>, ids: map<string, nat>) {
    forall name | name in ids :: FindSpace(spaces, name) == Some(ids[name])
  }

  lemma NewSpace(all: seq<Space>, ids: map<string, nat>, s: Space)
    requires FindsSpaces(all, ids) && forall i | 0 <= i < |all| :: all[i].name != s.name
    ensures FindsSpaces(all + [s], ids[s.name := |all|])
  {
    forall name | name in ids && name != s.name ensures FindSpace(all + [s], name) == Some(ids[name]) {
      FindSpaceStable(all, [s], name);
    }
    OnlySpace(all + [s], s.name, |all|);
  }

  /** Before the households are linked. */
  ghost predicate SpaceDraft(x: Space, p: SpacePair, users: map<string, nat>) {
    p.admin in users
    && (x == Space(p.household, true, users[p.admin], None) || x == Space(p.lineage, false, users[p.admin], None))
  }

  ghost predicate Drafts(all: seq<Space>, start: nat, pairs: seq<SpacePair>, users: map<string, nat>) {
    forall i | start <= i < |all| :: DraftOf(all[i], pairs, users)
  }

  ghost predicate DraftOf(x: Space, pairs: seq<SpacePair>, users: map<string, nat>) {
    exists j | 0 <= j < |pairs| :: SpaceDraft(x, pairs[j], users)
  }

  lemma DraftsNext(all: seq<Space>, start: nat, pairs: seq<SpacePair>, users: map<string, nat>, p: SpacePair, s: Space)
    requires Drafts(all, start, pairs, users) && p in pairs && SpaceDraft(s, p, users)
    ensures Drafts(all + [s], start, pairs, users)
  {
  }

  /** The spaces named are found or added; `spaces` are the flushed rows, new ones stand behind them in `all`. */
  ghost predicate SpacesDone(spaces: seq<Space>, all: seq<Space>, ids: map<string, nat>, names: seq<string>) {
    && spaces <= all && FindsSpaces(all, ids)
    && (forall name :: name in ids <==> name in names)
    && (forall i | |spaces| <= i < |all| :: all[i].name in ids && ids[all[i].name] == i && all[i].lineage.None?)
    && ((forall name <- names :: FindSpace(spaces, name).Some?) ==> all == spaces)
  }

  /** One space: reused if a flushed row has the name, otherwise added behind. */
  method EnsureSpace(spaces: seq<Space>, all: seq<Space>, ids: map<string, nat>, ghost names: seq<string>, s: Space)
    returns (all': seq<Space>, ids': map<string, nat>)
    requires SpacesDone(spaces, all, ids, names) && s.name !in names && s.lineage.None?
    ensures SpacesDone(spaces, all', ids', names + [s.name])
    ensures all' == all || all' == all + [s]
  {
    var found := FindSpace(spaces, s.name);
    assert forall name :: name in names + [s.name] <==> name in names || name == s.name;
    if found.Some? {
      FindSpaceStable(spaces, all[|spaces|..], s.name);
      assert spaces + all[|spaces|..] == all;
      return all, ids[s.name := found.value];
    }
    assert s.name in names + [s.name];
    NewSpace(all, ids, s);
    return all + [s], ids[s.name := |all|];
  }

  lemma DistinctLast<T>(a: seq<T>, x: T, y: T)
    requires Distinct(a + [x] + [y])
    ensures Distinct(a) && x !in a && y !in a && x != y
  {
    var all := a + [x] + [y];
    assert forall i | 0 <= i < |a| :: all[i] == a[i];
    assert all[|a|] == x && all[|a| + 1] == y;
  }

  /** Cutting the list of pairs cuts the list of names. */
  lemma {:induction false} NamesOfPrefix(pairs: seq<SpacePair>, k: nat)
    requires k < |pairs| && Distinct(SpaceNames(pairs))
    ensures SpaceNames(pairs[..k + 1]) == SpaceNames(pairs[..k]) + [pairs[k].household] + [pairs[k].lineage]
    ensures pairs[k].household !in SpaceNames(pairs[..k]) && pairs[k].lineage !in SpaceNames(pairs[..k])
    ensures pairs[k].household != pairs[k].lineage
    ensures SpaceNames(pairs[..k + 1]) <= SpaceNames(pairs)
    decreases |pairs|
  {
    var n := |pairs| - 1;
    assert pairs[..k + 1][..k] == pairs[..k];
    DistinctLast(SpaceNames(pairs[..n]), pairs[n].household, pairs[n].lineage);
    if k < n {
      NamesOfPrefix(pairs[..n], k);
      assert pairs[..n][..k + 1] == pairs[..k + 1] && pairs[..n][..k] == pairs[..k];
    } else {
      assert pairs[..k + 1] == pairs && pairs[..k] == pairs[..n];
    }
  }

  method EnsureSpaces(spaces: seq<Space>, pairs: seq<SpacePair>, users: map<string, nat>)
    returns (all: seq<Space>, ids: map<string, nat>)
    requires Distinct(SpaceNames(pairs)) && forall p <- pairs :: p.admin in users
    ensures SpacesDone(spaces, all, ids, SpaceNames(pairs))
    ensures Drafts(all, |spaces|, pairs, users)
  {
    all := spaces;
    ids := map[];
    for k := 0 to |pairs|
      invariant SpacesDone(spaces, all, ids, SpaceNames(pairs[..k]))
      invariant Drafts(all, |spaces|, pairs, users)
    {
      var p := pairs[k];
      ghost var names := SpaceNames(pairs[..k]);
      NamesOfPrefix(pairs, k);
      var h, l := Space(p.household, true, users[p.admin], None), Space(p.lineage, false, users[p.admin], None);
      DraftsNext(all, |spaces|, pairs, users, p, h);
      all, ids := EnsureSpace(spaces, all, ids, names, h);
      DraftsNext(all, |spaces|, pairs, users, p, l);
      all, ids := EnsureSpace(spaces, all, ids, names + [p.household], l);
    }
    assert pairs[..|pairs|] == pairs;
  }

  lemma {:induction false} SameNamesFind(a: seq<Space>, b: seq<Space>, name: string)
    requires |a| == |b| && forall i | 0 <= i < |a| :: a[i].name == b[i].name
    ensures FindSpace(a, name) == FindSpace(b, name)
  {
    if a != [] { SameNamesFind(a[..|a| - 1], b[..|b| - 1], name); }
  }

  lemma {:induction false} HouseholdNames(pairs: seq<SpacePair>)
    requires Distinct(SpaceNames(pairs))
    ensures forall p <- pairs :: p.household in SpaceNames(pairs) && p.lineage in SpaceNames(pairs)
    ensures forall i, j | 0 <= i < j < |pairs| :: pairs[i].household != pairs[j].household
  {
    if pairs != [] {
      var n := |pairs| - 1;
      DistinctLast(SpaceNames(pairs[..n]), pairs[n].household, pairs[n].lineage);
      HouseholdNames(pairs[..n]);
      assert pairs == pairs[..n] + [pairs[n]];
      assert forall i | 0 <= i < n :: pairs[i] in pairs[..n];
    }
  }

  /** Links each new household to its lineage; rows before `start` are left alone. */
  method LinkHouseholds(spaces: seq<Space>, start: nat, pairs: seq<SpacePair>, ids: map<string, nat>)
    returns (all: seq<Space>)
    requires forall p <- pairs :: p.household in ids && p.lineage in ids && ids[p.household] < |spaces|
    requires forall i, j | 0 <= i < j < |pairs| :: ids[pairs[i].household] != ids[pairs[j].household]
    requires start <= |spaces| && forall i | start <= i < |spaces| :: spaces[i].lineage.None?
    ensures Relinked(spaces, all, start)
    ensures forall j | 0 <= j < |pairs| :: Linked(all, start, pairs[j], ids)
    ensures forall i | 0 <= i < |all| && (forall p <- pairs :: ids[p.household] != i) :: all[i] == spaces[i]
  {
    all := spaces;
    for k := 0 to |pairs|
      invariant Relinked(spaces, all, start)
      invariant forall j | 0 <= j < k :: Linked(all, start, pairs[j], ids)
      invariant forall i | 0 <= i < |all| && (forall p <- pairs :: ids[p.household] != i) :: all[i] == spaces[i]
      invariant forall j | k <= j < |pairs| && ids[pairs[j].household] >= start ::
          all[ids[pairs[j].household]].lineage.None?
    {
      var h := ids[pairs[k].household];
      if h >= start && all[h].lineage.None? {
        all := all[h := all[h].(lineage := Some(ids[pairs[k].lineage]))];
      }
    }
  }

  lemma RelinkedFinds(a: seq<Space>, b: seq<Space>, start: nat, ids: map<string, nat>)
    requires Relinked(a, b, start) && FindsSpaces(a, ids)
    ensures FindsSpaces(b, ids)
  {
    forall name | name in ids ensures FindSpace(b, name) == Some(ids[name]) {
      assert forall i | 0 <= i < |a| :: b[i].name == b[i].(lineage := None).name;
      SameNamesFind(a, b, name);
    }
  }

  /** Only the link of rows from `start` on may differ. */
  ghost predicate Relinked(a: seq<Space>, b: seq<Space>, start: nat) {
    && |a| == |b|
    && (forall i | 0 <= i < |a| && i < start :: b[i] == a[i])
    && (forall i | 0 <= i < |a| :: b[i].(lineage := None) == a[i].(lineage := None))
  }

  ghost predicate Linked(spaces: seq<Space>, start: nat, p: SpacePair, ids: map<string, nat>) {
    p.household in ids && p.lineage in ids && ids[p.household] < |spaces|
    && (ids[p.household] >= start ==> spaces[ids[p.household]].lineage == Some(ids[p.lineage]))
  }

  /** The spaces of the list, found or added, and each new household linked. */
  method EnsureLinkedSpaces(spaces: seq<Space>, pairs: seq<SpacePair>, users: map<string, nat>)
    returns (all: seq<Space>, ids: map<string, nat>)
    requires Distinct(SpaceNames(pairs)) && forall p <- pairs :: p.admin in users
    ensures spaces <= all && FindsSpaces(all, ids)
    ensures forall name :: name in ids <==> name in SpaceNames(pairs)
    ensures (forall name <- SpaceNames(pairs) :: FindSpace(spaces, name).Some?) ==> all == spaces
    ensures forall j | 0 <= j < |pairs| :: Linked(all, |spaces|, pairs[j], ids)
    ensures forall i | |spaces| <= i < |all| :: NewSpaceOf(all[i], pairs, users, ids)
  {
    var found;
    found, ids := EnsureSpaces(spaces, pairs, users);
    HouseholdNames(pairs);
    HouseholdsApart(found, ids, pairs);
    all := LinkHouseholds(found, |spaces|, pairs, ids);
    RelinkedFinds(found, all, |spaces|, ids);
    NamesUnlike(pairs);
    FoundHouseholds(found, ids, pairs);
    LinkedRows(|spaces|, found, all, pairs, users, ids);
  }

  /** A new row of this name is the one that the pair's names resolve to. */
  lemma LinkedRow(found: Space, x: Space, i: nat, p: SpacePair, users: map<string, nat>, ids: map<string, nat>)
    requires SpaceDraft(found, p, users) && p.household in ids && p.lineage in ids
    requires found.name in ids && ids[found.name] == i
    requires x.(lineage := None) == found.(lineage := None)
    requires ids[p.household] == i ==> x.lineage == Some(ids[p.lineage])
    requires found.name == p.lineage && p.household != p.lineage ==> x == found
    requires p.household != p.lineage
    ensures SpaceRow(x, p, users, ids)
  {
  }

  /** No household is called like a lineage. */
  ghost predicate Unlike(pairs: seq<SpacePair>) {
    forall k, j | 0 <= k < |pairs| && 0 <= j < |pairs| :: pairs[k].household != pairs[j].lineage
  }

  /** No household stands in the row of a lineage. */
  lemma LineageNotLinked(found: seq<Space>, pairs: seq<SpacePair>, ids: map<string, nat>, j: nat, i: nat)
    requires Unlike(pairs) && j < |pairs| && i < |found| && found[i].name == pairs[j].lineage
    requires forall q <- pairs :: q.household in ids && FindSpace(found, q.household) == Some(ids[q.household])
    ensures forall q <- pairs :: ids[q.household] != i
  {
    forall q <- pairs ensures ids[q.household] != i {
      var k :| 0 <= k < |pairs| && pairs[k] == q;
      assert found[ids[q.household]].name == pairs[k].household;
    }
  }

  lemma LinkedRowAt(start: nat, found: seq<Space>, all: seq<Space>, pairs: seq<SpacePair>,
                    users: map<string, nat>, ids: map<string, nat>, i: nat, j: nat)
    requires Unlike(pairs) && Relinked(found, all, start) && start <= i < |found| && j < |pairs|
    requires SpaceDraft(found[i], pairs[j], users) && found[i].name in ids && ids[found[i].name] == i
    requires Linked(all, start, pairs[j], ids)
    requires forall q <- pairs :: q.household in ids && FindSpace(found, q.household) == Some(ids[q.household])
    requires (forall q <- pairs :: ids[q.household] != i) ==> all[i] == found[i]
    ensures SpaceRow(all[i], pairs[j], users, ids)
  {
    if found[i].name == pairs[j].lineage { LineageNotLinked(found, pairs, ids, j, i); }
    LinkedRow(found[i], all[i], i, pairs[j], users, ids);
  }

  lemma LinkedRows(start: nat, found: seq<Space>, all: seq<Space>, pairs: seq<SpacePair>,
                   users: map<string, nat>, ids: map<string, nat>)
    requires Unlike(pairs) && Drafts(found, start, pairs, users) && Relinked(found, all, start)
    requires forall i | start <= i < |found| :: found[i].name in ids && ids[found[i].name] == i
    requires forall j | 0 <= j < |pairs| :: Linked(all, start, pairs[j], ids)
    requires forall q <- pairs :: q.household in ids && FindSpace(found, q.household) == Some(ids[q.household])
    requires forall i | 0 <= i < |all| && (forall p <- pairs :: ids[p.household] != i) :: all[i] == found[i]
    ensures forall i | start <= i < |all| :: NewSpaceOf(all[i], pairs, users, ids)
  {
    forall i | start <= i < |all| ensures NewSpaceOf(all[i], pairs, users, ids) {
      assert DraftOf(found[i], pairs, users);
      var j :| 0 <= j < |pairs| && SpaceDraft(found[i], pairs[j], users);
      LinkedRowAt(start, found, all, pairs, users, ids, i, j);
    }
  }

  lemma FoundHouseholds(found: seq<Space>, ids: map<string, nat>, pairs: seq<SpacePair>)
    requires FindsSpaces(found, ids) && forall q <- pairs :: q.household in ids
    ensures forall q <- pairs :: q.household in ids && FindSpace(found, q.household) == Some(ids[q.household])
  {
  }

  lemma NamesUnlike(pairs: seq<SpacePair>)
    requires Distinct(SpaceNames(pairs))
    ensures Unlike(pairs)
  {
    forall k, j | 0 <= k < |pairs| && 0 <= j < |pairs| ensures pairs[k].household != pairs[j].lineage {
      NamesDiffer(pairs, k, j);
    }
  }

  lemma {:induction false} NamesApart(pairs: seq<SpacePair>, j: nat)
    requires Distinct(SpaceNames(pairs)) && j < |pairs|
    ensures pairs[j].household != pairs[j].lineage
  {
    NamesOfPrefix(pairs, j);
  }

  /** No household of the list is called like a lineage of it. */
  lemma {:induction false} NamesDiffer(pairs: seq<SpacePair>, k: nat, j: nat)
    requires Distinct(SpaceNames(pairs)) && k < |pairs| && j < |pairs|
    ensures pairs[k].household != pairs[j].lineage
  {
    if k == j {
      NamesApart(pairs, j);
    } else {
      var n := |pairs| - 1;
      DistinctLast(SpaceNames(pairs[..n]), pairs[n].household, pairs[n].lineage);
      if k < n && j < n {
        NamesDiffer(pairs[..n], k, j);
      } else {
        HouseholdNames(pairs[..n]);
        assert k < n ==> pairs[..n][k] in pairs[..n];
        assert j < n ==> pairs[..n][j] in pairs[..n];
      }
    }
  }

  lemma HouseholdsApart(spaces: seq<Space>, ids: map<string, nat>, pairs: seq<SpacePair>)
    requires FindsSpaces(spaces, ids) && forall p <- pairs :: p.household in ids
    requires forall i, j | 0 <= i < j < |pairs| :: pairs[i].household != pairs[j].household
    ensures forall p <- pairs :: ids[p.household] < |spaces|
    ensures forall i, j | 0 <= i < j < |pairs| :: ids[pairs[i].household] != ids[pairs[j].household]
  {
    assert forall p <- pairs :: FindSpace(spaces, p.household) == Some(ids[p.household]);
    forall i, j | 0 <= i < j < |pairs| ensures ids[pairs[i].household] != ids[pairs[j].household] {
      assert FindSpace(spaces, pairs[i].household) == Some(ids[pairs[i].household]);
      assert FindSpace(spaces, pairs[j].household) == Some(ids[pairs[j].household]);
    }
  }
}
