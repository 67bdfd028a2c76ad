/** Insert-only seeding in one transaction: memberships, structural edges with their facts, and the whole. */
module Seed {
  import opened Common
  import opened SeedManifest
  import opened SeedLookup

  // ------------------------------------------------------------------
  // Memberships
  // ------------------------------------------------------------------

  ghost predicate Injective(ids: map<string, nat>) {
    forall a, b | a in ids && b in ids && ids[a] == ids[b] :: a == b
  }

  lemma FoundUsersDiffer(users: seq<User>, ids: map<string, nat>)
    requires Finds(users, ids)
    ensures Injective(ids)
  {
    forall a, b | a in ids && b in ids && ids[a] == ids[b] ensures a == b {
      assert FindUser(users, a) == Some(ids[a]) && FindUser(users, b) == Some(ids[b]);
    }
  }

  lemma FoundSpacesDiffer(spaces: seq<Space>, ids: map<string, nat>)
    requires FindsSpaces(spaces, ids)
    ensures Injective(ids)
  {
    forall a, b | a in ids && b in ids && ids[a] == ids[b] ensures a == b {
      assert FindSpace(spaces, a) == Some(ids[a]) && FindSpace(spaces, b) == Some(ids[b]);
    }
  }

  /** The rosters' members up to a point are enrolled, among old rows and new. */
  ghost predicate EnrolledIn(all: seq<Member>, roster: seq<Person>, space: nat, users: map<string, nat>) {
    forall i | 0 <= i < |roster| :: roster[i].name in users && HasMember(all, space, users[roster[i].name])
  }

  lemma MemberMonotone(a: seq<Member>, b: seq<Member>)
    requires a <= b
    ensures forall s, u :: HasMember(a, s, u) ==> HasMember(b, s, u)
  {
    forall s, u | HasMember(a, s, u) ensures HasMember(b, s, u) {
      var x :| x in a && x.space == s && x.user == u;
      assert x in b;
    }
  }

  lemma UniqueNext(all: seq<Member>, x: Member)
    requires UniqueMembers(all) && !HasMember(all, x.space, x.user)
    ensures UniqueMembers(all + [x])
  {
    forall i | 0 <= i < |all| ensures all[i].space != x.space || all[i].user != x.user {
      assert all[i] in all;
    }
  }

  /** A name of the roster that is not enrolled yet has not been added either. */
  lemma NotYetMember(members: seq<Member>, added: seq<Member>, added': seq<Member>, roster: seq<Person>, k: nat,
                     space: nat, admin: string, users: map<string, nat>)
    requires Injective(users) && DistinctNames(roster) && k < |roster| && forall p <- roster :: p.name in users
    requires !HasMember(members, space, users[roster[k].name]) && forall x <- added :: x.space != space
    requires forall x <- added' :: x in added || MemberOf(x, roster[..k], space, admin, users)
    ensures !HasMember(members + added', space, users[roster[k].name])
  {
  }

  lemma MemberOfLonger(added: seq<Member>, roster: seq<Person>, k: nat, space: nat, admin: string,
                       users: map<string, nat>)
    requires k < |roster|
    ensures forall x <- added :: MemberOf(x, roster[..k], space, admin, users)
              ==> MemberOf(x, roster[..k + 1], space, admin, users)
  {
    forall x <- added | MemberOf(x, roster[..k], space, admin, users)
      ensures MemberOf(x, roster[..k + 1], space, admin, users)
    {
      var i :| 0 <= i < k && roster[..k][i].name in users
               && x == Member(space, users[roster[..k][i].name], roster[..k][i].name == admin);
      assert roster[..k + 1][i] == roster[..k][i];
    }
  }

  /** One roster of one space; `added` rows are not seen by the existence check. */
  method EnrollRoster(members: seq<Member>, added: seq<Member>, roster: seq<Person>, space: nat, admin: string,
          users: map<string, nat>)
    returns (added': seq<Member>)
    requires Injective(users) && DistinctNames(roster) && forall p <- roster :: p.name in users
    requires forall x <- added :: x.space != space
    ensures added <= added' && EnrolledIn(members + added', roster, space, users)
    ensures forall x <- added' :: x in added || MemberOf(x, roster, space, admin, users)
    ensures UniqueMembers(members + added) ==> UniqueMembers(members + added')
    ensures EnrolledIn(members, roster, space, users) ==> added' == added
  {
    added' := added;
    for k := 0 to |roster|
      invariant added <= added' && EnrolledIn(members + added', roster[..k], space, users)
      invariant forall x <- added' ::
                  x in added || MemberOf(x, roster[..k], space, admin, users)
      invariant UniqueMembers(members + added) ==> UniqueMembers(members + added')
      invariant EnrolledIn(members, roster[..k], space, users) ==> added' == added
    {
      var p := roster[k];
      assert roster[..k + 1] == roster[..k] + [p];
      MemberOfLonger(added', roster, k, space, admin, users);
      if HasMember(members, space, users[p.name]) {
        MemberMonotone(members, members + added');
      } else {
        var x := Member(space, users[p.name], p.name == admin);
        NotYetMember(members, added, added', roster, k, space, admin, users);
        assert MemberOf(x, roster[..k + 1], space, admin, users) by { assert roster[..k + 1][k] == p; }
        if UniqueMembers(members + added') { UniqueNext(members + added', x); }
        AppendLast(members, added', x);
        MemberMonotone(members + added', members + added' + [x]);
        assert x in members + added' + [x];
        assert !EnrolledIn(members, roster[..k + 1], space, users) by {
          assert roster[..k + 1][k] == p;
        }
        added' := added' + [x];
      }
    }
    assert roster[..|roster|] == roster;
  }

  /** The rosters of the spaces named are enrolled. */
  ghost predicate AllEnrolled(all: seq<Member>, m: Manifest, names: seq<string>, users: map<string, nat>,
          spaces: map<string, nat>) {
    forall name <- names :: name in m.rosters && name in spaces && EnrolledIn(all, m.rosters[name], spaces[name], users)
  }

  lemma EnrolledMonotone(a: seq<Member>, b: seq<Member>, m: Manifest, names: seq<string>, users: map<string, nat>,
          spaces: map<string, nat>)
    requires a <= b && AllEnrolled(a, m, names, users, spaces)
    ensures AllEnrolled(b, m, names, users, spaces)
  {
    MemberMonotone(a, b);
  }

  ghost predicate OfSpaces(added: seq<Member>, names: seq<string>, spaces: map<string, nat>) {
    forall x <- added :: exists n <- names :: n in spaces && x.space == spaces[n]
  }

  /** One more space of the list: its roster is enrolled after those before it. */
  method EnrollSpace(members: seq<Member>, added: seq<Member>, m: Manifest, ghost names: seq<string>, name: string,
          admin: string, users: map<string, nat>, spaces: map<string, nat>)
    returns (added': seq<Member>)
    requires Injective(users) && Injective(spaces) && name in spaces && name in m.rosters
        && DistinctNames(m.rosters[name])
    requires forall p <- m.rosters[name] :: p.name in users
    requires name !in names && AllEnrolled(members + added, m, names, users, spaces)
    requires OfSpaces(added, names, spaces)
    ensures added <= added' && AllEnrolled(members + added', m, names + [name], users, spaces)
    ensures OfSpaces(added', names + [name], spaces)
    ensures forall x <- added' :: x in added || MemberOf(x, m.rosters[name], spaces[name], admin, users)
    ensures UniqueMembers(members + added) ==> UniqueMembers(members + added')
    ensures EnrolledIn(members, m.rosters[name], spaces[name], users) ==> added' == added
  {
    forall x <- added ensures x.space != spaces[name] {
      var n :| n in names && n in spaces && x.space == spaces[n];
    }
    added' := EnrollRoster(members, added, m.rosters[name], spaces[name], admin, users);
    EnrolledMonotone(members + added, members + added', m, names, users, spaces);
    forall x <- added' ensures exists n <- names + [name] :: n in spaces && x.space == spaces[n] {
      if x in added {
        var n :| n in names && n in spaces && x.space == spaces[n];
        assert n in names + [name];
      } else {
        assert name in names + [name];
      }
    }
  }

  /** What the roster of one of the pair's spaces adds is a row of the pair. */
  lemma RosterRowsCount(added: seq<Member>, added': seq<Member>, m: Manifest, k: nat, name: string,
                        users: map<string, nat>, spaces: map<string, nat>)
    requires k < |m.pairs| && name in [m.pairs[k].household, m.pairs[k].lineage] && name in m.rosters && name in spaces
    requires forall x <- added :: NewMemberOf(x, m, users, spaces)
    requires forall x <- added' :: x in added || MemberOf(x, m.rosters[name], spaces[name], m.pairs[k].admin, users)
    ensures forall x <- added' :: NewMemberOf(x, m, users, spaces)
  {
    forall x <- added' | x !in added ensures NewMemberOf(x, m, users, spaces) {
      assert MemberRow(x, m, m.pairs[k], users, spaces);
    }
  }

  /** The household and then the lineage of one pair. */
  method EnrollPair(members: seq<Member>, added: seq<Member>, m: Manifest, k: nat, users: map<string, nat>,
          spaces: map<string, nat>)
    returns (added': seq<Member>)
    requires NoRepeats(m) && Injective(users) && Injective(spaces) && k < |m.pairs|
    requires forall name <- SpaceNames(m.pairs) ::
               name in spaces && name in m.rosters && forall p <- m.rosters[name] :: p.name in users
    requires AllEnrolled(members + added, m, SpaceNames(m.pairs[..k]), users, spaces)
    requires OfSpaces(added, SpaceNames(m.pairs[..k]), spaces)
    requires forall x <- added :: NewMemberOf(x, m, users, spaces)
    ensures AllEnrolled(members + added', m, SpaceNames(m.pairs[..k + 1]), users, spaces)
    ensures OfSpaces(added', SpaceNames(m.pairs[..k + 1]), spaces)
    ensures forall x <- added' :: NewMemberOf(x, m, users, spaces)
    ensures UniqueMembers(members + added) ==> UniqueMembers(members + added')
    ensures AllEnrolled(members, m, SpaceNames(m.pairs), users, spaces) ==> added' == added
  {
    var p := m.pairs[k];
    ghost var names := SpaceNames(m.pairs[..k]);
    NamesOfPrefix(m.pairs, k);
    assert p.household in names + [p.household] + [p.lineage] && p.lineage in names + [p.household] + [p.lineage];
    var more := EnrollSpace(members, added, m, names, p.household, p.admin, users, spaces);
    RosterRowsCount(added, more, m, k, p.household, users, spaces);
    added' := EnrollSpace(members, more, m, names + [p.household], p.lineage, p.admin, users, spaces);
    RosterRowsCount(more, added', m, k, p.lineage, users, spaces);
  }

  method EnsureMembers(members: seq<Member>, m: Manifest, users: map<string, nat>, spaces: map<string, nat>)
    returns (all: seq<Member>)
    requires NoRepeats(m) && Injective(users) && Injective(spaces)
    requires forall name <- SpaceNames(m.pairs) ::
               name in spaces && name in m.rosters && forall p <- m.rosters[name] :: p.name in users
    ensures members <= all && AllEnrolled(all, m, SpaceNames(m.pairs), users, spaces)
    ensures UniqueMembers(members) ==> UniqueMembers(all)
    ensures AllEnrolled(members, m, SpaceNames(m.pairs), users, spaces) ==> all == members
    ensures forall i | |members| <= i < |all| :: NewMemberOf(all[i], m, users, spaces)
  {
    var added: seq<Member> := [];
    assert members + added == members;
    for k := 0 to |m.pairs|
      invariant AllEnrolled(members + added, m, SpaceNames(m.pairs[..k]), users, spaces)
      invariant OfSpaces(added, SpaceNames(m.pairs[..k]), spaces)
      invariant UniqueMembers(members) ==> UniqueMembers(members + added)
      invariant forall x <- added :: NewMemberOf(x, m, users, spaces)
      invariant AllEnrolled(members, m, SpaceNames(m.pairs), users, spaces) ==> added == []
    {
      added := EnrollPair(members, added, m, k, users, spaces);
    }
    assert m.pairs[..|m.pairs|] == m.pairs;
    all := members + added;
  }

  // ------------------------------------------------------------------
  // Edges and facts
  // ------------------------------------------------------------------

  /**
   * What the fact service refuses besides a fact about one person alone: a parent cycle among
   * the facts already there.
   */
  type Refusals = (seq<Fact>, Fact) -> bool

  predicate Refused(refuses: Refusals, facts: seq<Fact>, f: Fact) {
    f.subject == f.target || refuses(facts, f)
  }

  /** The service has no cycle to complain of. */
  ghost predicate Lenient(refuses: Refusals) {
    forall facts, f :: !refuses(facts, f)
  }

  ghost predicate NoSelfPairs(m: Manifest) {
    (forall e <- m.edges :: e.from != e.to) && forall s <- m.siblings :: s.0 != s.1
  }

  ghost predicate EdgesIn(all: seq<Relation>, edges: seq<Edge>, users: map<string, nat>) {
    forall i | 0 <= i < |edges| ::
      edges[i].from in users && edges[i].to in users && HasLiveEdge(all, users[edges[i].from], users[edges[i].to])
  }

  lemma EdgeMonotone(a: seq<Relation>, b: seq<Relation>)
    requires a <= b
    ensures forall s, t :: HasLiveEdge(a, s, t) ==> HasLiveEdge(b, s, t)
  {
    forall s, t | HasLiveEdge(a, s, t) ensures HasLiveEdge(b, s, t) {
      var r :| r in a && r.live && SamePair(r.from, r.to, s, t);
      assert r in b;
    }
  }

  lemma FactMonotone(a: seq<Fact>, b: seq<Fact>)
    requires a <= b
    ensures forall k, s, t :: HasGlobalFact(a, k, s, t) ==> HasGlobalFact(b, k, s, t)
  {
    forall k, s, t | HasGlobalFact(a, k, s, t) ensures HasGlobalFact(b, k, s, t) {
      var f :| f in a && f.kind == k && f.subject == s && f.target == t && f.global && f.live;
      assert f in b;
    }
  }

  lemma UniqueEdgeNext(all: seq<Relation>, r: Relation)
    requires UniqueEdges(all) && !HasLiveEdge(all, r.from, r.to)
    ensures UniqueEdges(all + [r])
  {
    forall i | 0 <= i < |all| && all[i].live ensures !SamePair(all[i].from, all[i].to, r.from, r.to) {
      assert all[i] in all;
    }
  }

  /** Adds a fact, unless a live global one of the tuple is there; `ok` is false if the service refuses it. */
  method EnsureFact(facts: seq<Fact>, f: Fact, refuses: Refusals) returns (ok: bool, all: seq<Fact>)
    requires f.global && f.live
    ensures facts <= all && (ok ==> f in all && (all == facts || all == facts + [f]))
    ensures HasGlobalFact(facts, f.kind, f.subject, f.target) ==> ok && all == facts
    ensures !ok ==> Refused(refuses, facts, f)
  {
    if HasGlobalFact(facts, f.kind, f.subject, f.target) {
      assert f in facts;
      return true, facts;
    }
    if Refused(refuses, facts, f) {
      return false, facts;
    }
    assert f in facts + [f];
    return true, facts + [f];
  }

  /** A new edge stands for an entry of the list that had no live edge before. */
  ghost predicate NewEdgeOf(x: Relation, relations: seq<Relation>, edges: seq<Edge>, users: map<string, nat>) {
    !HasLiveEdge(relations, x.from, x.to) && exists i | 0 <= i < |edges| :: EdgeRow(x, edges[i], users)
  }

  ghost predicate FromList(added: seq<Relation>, relations: seq<Relation>, edges: seq<Edge>, users: map<string, nat>) {
    forall x <- added :: NewEdgeOf(x, relations, edges, users)
  }

  ghost predicate NewFactOf(f: Fact, edges: seq<Edge>, users: map<string, nat>) {
    exists i | 0 <= i < |edges| :: EdgeFact(f, edges[i], users)
  }

  /** An entry had a live edge before, or has its own new one now, with its fact on record. */
  ghost predicate Entered(relations: seq<Relation>, all: seq<Relation>, facts: seq<Fact>, e: Edge,
                          users: map<string, nat>) {
    && e.from in users && e.to in users
    && (HasLiveEdge(relations, users[e.from], users[e.to])
        || (Relation(users[e.from], users[e.to], e.dir, true) in all && Recorded(facts, e, users)))
  }

  /** Edges added for other entries of the list are between other people. */
  lemma EdgeIsNew(flushed: seq<Relation>, added: seq<Relation>, relations: seq<Relation>, edges: seq<Edge>, k: nat,
                  users: map<string, nat>)
    requires k < |edges| && DistinctPairs(edges) && Injective(users) && FromList(added, relations, edges[..k], users)
    requires edges[k].from in users && edges[k].to in users
    requires !HasLiveEdge(flushed, users[edges[k].from], users[edges[k].to])
    ensures !HasLiveEdge(flushed + added, users[edges[k].from], users[edges[k].to])
  {
    forall x <- added ensures !SamePair(x.from, x.to, users[edges[k].from], users[edges[k].to]) {
      assert NewEdgeOf(x, relations, edges[..k], users);
      var j :| 0 <= j < k && EdgeRow(x, edges[..k][j], users);
      assert !SamePair(edges[j].from, edges[j].to, edges[k].from, edges[k].to);
    }
  }

  lemma NewEdgeLonger(x: Relation, relations: seq<Relation>, edges: seq<Edge>, e: Edge, users: map<string, nat>)
    requires NewEdgeOf(x, relations, edges, users)
    ensures NewEdgeOf(x, relations, edges + [e], users)
  {
    var i :| 0 <= i < |edges| && EdgeRow(x, edges[i], users);
    assert (edges + [e])[i] == edges[i];
  }

  lemma ListLonger(added: seq<Relation>, relations: seq<Relation>, edges: seq<Edge>, e: Edge, users: map<string, nat>)
    requires FromList(added, relations, edges, users)
    ensures FromList(added, relations, edges + [e], users)
  {
    forall x <- added ensures NewEdgeOf(x, relations, edges + [e], users) {
      NewEdgeLonger(x, relations, edges, e, users);
    }
  }

  lemma ListGrows(added: seq<Relation>, relations: seq<Relation>, x: Relation, edges: seq<Edge>, e: Edge,
                  users: map<string, nat>)
    requires FromList(added, relations, edges, users) && EdgeRow(x, e, users) && !HasLiveEdge(relations, x.from, x.to)
    ensures FromList(added + [x], relations, edges + [e], users)
  {
    ListLonger(added, relations, edges, e, users);
    assert (edges + [e])[|edges|] == e;
  }

  lemma FactsLonger(facts0: seq<Fact>, facts: seq<Fact>, edges: seq<Edge>, e: Edge, users: map<string, nat>)
    requires facts0 <= facts && forall i | |facts0| <= i < |facts| :: NewFactOf(facts[i], edges, users)
    ensures forall i | |facts0| <= i < |facts| :: NewFactOf(facts[i], edges + [e], users)
  {
    forall i | |facts0| <= i < |facts| ensures NewFactOf(facts[i], edges + [e], users) {
      var j :| 0 <= j < |edges| && EdgeFact(facts[i], edges[j], users);
      assert (edges + [e])[j] == edges[j];
    }
  }

  /** Where the loop over the edges stands after some of them. */
  ghost predicate Progress(relations: seq<Relation>, all: seq<Relation>, facts0: seq<Fact>, facts: seq<Fact>,
                           edges: seq<Edge>, users: map<string, nat>) {
    && relations <= all && facts0 <= facts
    && EdgesIn(all, edges, users) && FromList(all[|relations|..], relations, edges, users)
    && (UniqueEdges(relations) ==> UniqueEdges(all))
    && (forall i | 0 <= i < |edges| :: Entered(relations, all, facts, edges[i], users))
    && (forall i | |facts0| <= i < |facts| :: NewFactOf(facts[i], edges, users))
    && (EdgesIn(relations, edges, users) ==> all == relations && facts == facts0)
  }

  lemma RecordedMonotone(a: seq<Fact>, b: seq<Fact>, e: Edge, users: map<string, nat>)
    requires a <= b && Recorded(a, e, users)
    ensures Recorded(b, e, users)
  {
    var f :| f in a && EdgeFact(f, e, users);
    assert f in b;
  }

  lemma EnteredMonotone(relations: seq<Relation>, all: seq<Relation>, all': seq<Relation>, facts: seq<Fact>,
                        facts': seq<Fact>, e: Edge, users: map<string, nat>)
    requires Entered(relations, all, facts, e, users) && all <= all' && facts <= facts'
    ensures Entered(relations, all', facts', e, users)
  {
    if !HasLiveEdge(relations, users[e.from], users[e.to]) { RecordedMonotone(facts, facts', e, users); }
  }

  /** A live edge among the rows so far is an old one or that of an entry; entries do not share a pair. */
  lemma CoveredIsEntered(relations: seq<Relation>, all: seq<Relation>, edges: seq<Edge>, e: Edge,
                         users: map<string, nat>)
    requires relations <= all && FromList(all[|relations|..], relations, edges, users) && Injective(users)
    requires DistinctPairs(edges + [e]) && e.from in users && e.to in users
    requires HasLiveEdge(all, users[e.from], users[e.to])
    ensures HasLiveEdge(relations, users[e.from], users[e.to])
  {
    if !HasLiveEdge(relations, users[e.from], users[e.to]) {
      var added := all[|relations|..];
      assert (edges + [e])[..|edges|] == edges && relations + added == all;
      EdgeIsNew(relations, added, relations, edges + [e], |edges|, users);
    }
  }

  lemma EdgeCovered(relations: seq<Relation>, all: seq<Relation>, facts0: seq<Fact>, facts: seq<Fact>,
                    edges: seq<Edge>, users: map<string, nat>, e: Edge)
    requires Progress(relations, all, facts0, facts, edges, users) && Injective(users) && DistinctPairs(edges + [e])
    requires e.from in users && e.to in users && HasLiveEdge(all, users[e.from], users[e.to])
    ensures Progress(relations, all, facts0, facts, edges + [e], users)
  {
    ListLonger(all[|relations|..], relations, edges, e, users);
    FactsLonger(facts0, facts, edges, e, users);
    CoveredIsEntered(relations, all, edges, e, users);
    if EdgesIn(relations, edges + [e], users) { EdgesBefore(relations, edges, e, users); }
  }

  lemma EdgesBefore(relations: seq<Relation>, edges: seq<Edge>, e: Edge, users: map<string, nat>)
    requires EdgesIn(relations, edges + [e], users)
    ensures EdgesIn(relations, edges, users) && e.from in users && e.to in users
    ensures HasLiveEdge(relations, users[e.from], users[e.to])
  {
    assert (edges + [e])[|edges|] == e;
    assert forall i | 0 <= i < |edges| :: (edges + [e])[i] == edges[i];
  }

  lemma NewEdge(relations: seq<Relation>, flushed: seq<Relation>, added: seq<Relation>, before: seq<Edge>, e: Edge,
          users: map<string, nat>)
    requires DistinctPairs(before + [e]) && Injective(users) && relations <= flushed
    requires FromList((flushed + added)[|relations|..], relations, before, users)
    requires e.from in users && e.to in users && !HasLiveEdge(flushed, users[e.from], users[e.to])
    ensures !HasLiveEdge(flushed + added, users[e.from], users[e.to])
  {
    var recent := (flushed + added)[|relations|..];
    assert recent == flushed[|relations|..] + added;
    assert forall x <- added :: x in recent;
    assert (before + [e])[..|before|] == before;
    EdgeIsNew(flushed, added, relations, before + [e], |before|, users);
  }

  lemma EdgesInNext(a: seq<Relation>, b: seq<Relation>, edges: seq<Edge>, e: Edge, users: map<string, nat>)
    requires a <= b && EdgesIn(a, edges, users)
    requires e.from in users && e.to in users && HasLiveEdge(b, users[e.from], users[e.to])
    ensures EdgesIn(b, edges + [e], users)
  {
    EdgeMonotone(a, b);
  }

  lemma AllEntered(relations: seq<Relation>, all: seq<Relation>, r: Relation, facts: seq<Fact>, facts': seq<Fact>,
                   edges: seq<Edge>, e: Edge, users: map<string, nat>)
    requires forall i | 0 <= i < |edges| :: Entered(relations, all, facts, edges[i], users)
    requires facts <= facts' && EdgeRow(r, e, users) && Recorded(facts', e, users)
    ensures forall i | 0 <= i < |edges + [e]| :: Entered(relations, all + [r], facts', (edges + [e])[i], users)
  {
    forall i | 0 <= i < |edges + [e]| ensures Entered(relations, all + [r], facts', (edges + [e])[i], users) {
      if i < |edges| {
        EnteredMonotone(relations, all, all + [r], facts, facts', edges[i], users);
      } else {
        assert r in all + [r];
      }
    }
  }

  /** A list whose entries all have edges already is not extended by one that has none. */
  lemma NotAllThere(relations: seq<Relation>, all: seq<Relation>, edges: seq<Edge>, e: Edge, users: map<string, nat>)
    requires relations <= all && e.from in users && e.to in users && !HasLiveEdge(all, users[e.from], users[e.to])
    ensures !EdgesIn(relations, edges + [e], users)
  {
    if EdgesIn(relations, edges + [e], users) {
      EdgesBefore(relations, edges, e, users);
      EdgeMonotone(relations, all);
    }
  }

  lemma UniqueAfterEdge(relations: seq<Relation>, all: seq<Relation>, r: Relation)
    requires (UniqueEdges(relations) ==> UniqueEdges(all)) && !HasLiveEdge(all, r.from, r.to)
    ensures UniqueEdges(relations) ==> UniqueEdges(all + [r])
  {
    if UniqueEdges(all) { UniqueEdgeNext(all, r); }
  }

  lemma EdgeAdded(relations: seq<Relation>, all: seq<Relation>, facts0: seq<Fact>, facts: seq<Fact>, facts': seq<Fact>,
                  edges: seq<Edge>, users: map<string, nat>, e: Edge, r: Relation)
    requires Progress(relations, all, facts0, facts, edges, users)
    requires EdgeRow(r, e, users) && !HasLiveEdge(all, r.from, r.to) && Recorded(facts', e, users)
    requires facts' == facts || (exists f :: EdgeFact(f, e, users) && facts' == facts + [f])
    ensures Progress(relations, all + [r], facts0, facts', edges + [e], users)
  {
    assert r in all + [r];
    EdgeMonotone(relations, all);
    EdgesInNext(all, all + [r], edges, e, users);
    AllEntered(relations, all, r, facts, facts', edges, e, users);
    ListGrows(all[|relations|..], relations, r, edges, e, users);
    FactsLonger(facts0, facts, edges, e, users);
    assert (edges + [e])[|edges|] == e;
    assert (all + [r])[|relations|..] == all[|relations|..] + [r];
    UniqueAfterEdge(relations, all, r);
    NotAllThere(relations, all, edges, e, users);
  }

  /** One entry of the list; `flushed` is what queries see, `added` waits for the next flush. */
  method EnsureEdge(ghost relations: seq<Relation>, flushed: seq<Relation>, added: seq<Relation>,
          ghost facts0: seq<Fact>, facts: seq<Fact>, ghost before: seq<Edge>, e: Edge,
          users: map<string, nat>, refuses: Refusals)
    returns (ok: bool, flushed': seq<Relation>, added': seq<Relation>, facts': seq<Fact>)
    requires Injective(users) && e.from in users && e.to in users && DistinctPairs(before + [e])
    requires relations <= flushed && Progress(relations, flushed + added, facts0, facts, before, users)
    ensures ok ==> relations <= flushed' && Progress(relations, flushed' + added', facts0, facts', before + [e], users)
    ensures HasLiveEdge(flushed, users[e.from], users[e.to]) || (Lenient(refuses) && e.from != e.to) ==> ok
  {
    var a, b := users[e.from], users[e.to];
    if HasLiveEdge(flushed, a, b) {
      EdgeMonotone(flushed, flushed + added);
      EdgeCovered(relations, flushed + added, facts0, facts, before, users, e);
      return true, flushed, added, facts;
    }
    var r := Relation(a, b, e.dir, true);
    var f := FactOf(r);
    NewEdge(relations, flushed, added, before, e, users);
    var stored, more := EnsureFact(facts, f, refuses);
    if !stored {
      return false, flushed, added, facts;
    }
    assert EdgeFact(f, e, users);
    EdgeAdded(relations, flushed + added, facts0, facts, more, before, users, e, r);
    AppendLast(flushed, added, r);
    if HasGlobalFact(facts, f.kind, f.subject, f.target) {
      return true, flushed, added + [r], more;
    }
    assert (flushed + (added + [r])) + [] == flushed + (added + [r]);
    return true, flushed + (added + [r]), [], more;
  }

  /**
   * Each listed pair without a live edge gets one, and with it its fact. Creating a fact
   * flushes; an edge whose fact was already there stays unflushed for a while.
   */
  method EnsureEdges(relations: seq<Relation>, facts: seq<Fact>, edges: seq<Edge>, users: map<string, nat>,
          refuses: Refusals)
    returns (ok: bool, allRelations: seq<Relation>, allFacts: seq<Fact>)
    requires DistinctPairs(edges) && Injective(users) && forall e <- edges :: e.from in users && e.to in users
    ensures ok ==> Progress(relations, allRelations, facts, allFacts, edges, users)
    ensures EdgesIn(relations, edges, users) || (Lenient(refuses) && forall e <- edges :: e.from != e.to) ==> ok
  {
    var flushed, added: seq<Relation> := relations, [];
    ok, allFacts := true, facts;
    assert relations + added == relations && relations[|relations|..] == [];
    for k := 0 to |edges|
      invariant relations <= flushed
      invariant Progress(relations, flushed + added, facts, allFacts, edges[..k], users)
    {
      assert edges[..k + 1] == edges[..k] + [edges[k]];
      EdgeMonotone(relations, flushed);
      ok, flushed, added, allFacts := EnsureEdge(relations, flushed, added, facts, allFacts, edges[..k], edges[k],
          users, refuses);
      if !ok {
        return false, relations, facts;
      }
    }
    assert edges[..|edges|] == edges;
    return true, flushed + added, allFacts;
  }

  ghost predicate SiblingsIn(facts: seq<Fact>, siblings: seq<(string, string)>, users: map<string, nat>) {
    forall i | 0 <= i < |siblings| ::
      siblings[i].0 in users && siblings[i].1 in users && SiblingFact(facts, users[siblings[i].0], users[siblings[i].1])
  }

  ghost predicate NewSiblingOf(f: Fact, siblings: seq<(string, string)>, users: map<string, nat>) {
    exists i | 0 <= i < |siblings| :: SiblingRow(f, siblings[i], users)
  }

  method EnsureSiblings(facts: seq<Fact>, siblings: seq<(string, string)>, users: map<string, nat>, refuses: Refusals)
    returns (ok: bool, all: seq<Fact>)
    requires Injective(users) && forall s <- siblings :: s.0 in users && s.1 in users
    ensures Lenient(refuses) && (forall s <- siblings :: s.0 != s.1) ==> ok
    ensures ok ==> facts <= all && SiblingsIn(all, siblings, users)
    ensures ok ==> forall i | |facts| <= i < |all| :: NewSiblingOf(all[i], siblings, users)
    ensures SiblingsIn(facts, siblings, users) ==> ok && all == facts
  {
    all := facts;
    for k := 0 to |siblings|
      invariant facts <= all && SiblingsIn(all, siblings[..k], users)
      invariant forall i | |facts| <= i < |all| :: NewSiblingOf(all[i], siblings, users)
      invariant SiblingsIn(facts, siblings, users) ==> all == facts
    {
      var a, b := users[siblings[k].0], users[siblings[k].1];
      assert siblings[..k + 1] == siblings[..k] + [siblings[k]];
      if !SiblingFact(all, a, b) {
        var stored, more := EnsureFact(all, Fact(DirectSibling, a, b, true, true), refuses);
        if !stored {
          return false, facts;
        }
        FactMonotone(all, more);
        assert SiblingRow(Fact(DirectSibling, a, b, true, true), siblings[k], users);
        all := more;
      }
    }
    assert siblings[..|siblings|] == siblings;
    return true, all;
  }

  // ------------------------------------------------------------------
  // The whole
  // ------------------------------------------------------------------

  datatype Outcome = Outcome(addedUsers: int, addedSpaces: int, addedMemberships: int, addedRelations: int)

  predicate WroteAnything(o: Outcome) {
    o.addedUsers != 0 || o.addedSpaces != 0 || o.addedMemberships != 0 || o.addedRelations != 0
  }

  /** The maps are what the queries of `db` answer for the manifest's names. */
  ghost predicate Resolves(db: Db, m: Manifest, users: map<string, nat>, spaces: map<string, nat>) {
    && Finds(db.users, users) && FindsSpaces(db.spaces, spaces)
    && (forall name :: name in users <==> Known(m, name))
    && (forall name :: name in spaces <==> name in SpaceNames(m.pairs))
  }

  ghost predicate RowsThere(db: Db, m: Manifest, users: map<string, nat>, spaces: map<string, nat>) {
    && AllEnrolled(db.members, m, SpaceNames(m.pairs), users, spaces)
    && EdgesIn(db.relations, m.edges, users) && SiblingsIn(db.facts, m.siblings, users)
  }

  lemma ResolvedRosters(db: Db, m: Manifest, users: map<string, nat>, spaces: map<string, nat>)
    requires WellFormed(m) && Resolves(db, m, users, spaces)
    ensures MembersThere(db, m) <==> AllEnrolled(db.members, m, SpaceNames(m.pairs), users, spaces)
  {
    forall name <- SpaceNames(m.pairs)
      ensures name in m.rosters && (Enrolled(db, m.rosters[name], name)
          <==> EnrolledIn(db.members, m.rosters[name], spaces[name], users))
    {
      forall i | 0 <= i < |m.rosters[name]| ensures m.rosters[name][i].name in users {
        assert Known(m, m.rosters[name][i].name);
      }
    }
  }

  /** With the names resolved, satisfying the manifest comes down to the rows. */
  lemma ResolvedMeansSatisfied(db: Db, m: Manifest, users: map<string, nat>, spaces: map<string, nat>)
    requires WellFormed(m) && Resolves(db, m, users, spaces)
    ensures Satisfied(db, m) <==> RowsThere(db, m, users, spaces)
  {
    forall name | Known(m, name) ensures FindUser(db.users, name).Some? {
      assert name in users;
    }
    ResolvedRosters(db, m, users, spaces);
    assert forall i | 0 <= i < |m.edges| :: m.edges[i] in m.edges;
    assert forall i | 0 <= i < |m.siblings| :: m.siblings[i] in m.siblings;
  }

  lemma NobodyMissing(m: Manifest, users: seq<User>, people: seq<Person>)
    requires UsersThere(users, m) && forall name :: Named(people, name) <==> Known(m, name)
    ensures forall p <- people :: FindUser(users, p.name).Some?
  {
    forall p <- people ensures FindUser(users, p.name).Some? {
      assert Named(people, p.name);
    }
  }

  /** Users and spaces of the manifest, found or added. */
  method EnsureNames(db: Db, m: Manifest) returns (db': Db, users: map<string, nat>, spaces: map<string, nat>)
    requires WellFormed(m) && NoRepeats(m)
    ensures db.users <= db'.users && db.spaces <= db'.spaces
    ensures db' == db.(users := db'.users, spaces := db'.spaces) && Resolves(db', m, users, spaces)
    ensures UsersThere(db.users, m) && SpacesThere(db.spaces, m) ==> db' == db
    ensures NamesJustified(db, db', m, users, spaces)
  {
    var people := AllPeople(m);
    var allUsers;
    allUsers, users := EnsureUsers(db.users, people);
    if UsersThere(db.users, m) { NobodyMissing(m, db.users, people); }
    var allSpaces;
    allSpaces, spaces := EnsureLinkedSpaces(db.spaces, m.pairs, users);
    db' := db.(users := allUsers, spaces := allSpaces);
  }

  /** Rows are only appended, and keep memberships and live edges unique. */
  ghost predicate Sound(db: Db, db': Db) {
    && Extends(db, db')
    && (UniqueMembers(db.members) ==> UniqueMembers(db'.members))
    && (UniqueEdges(db.relations) ==> UniqueEdges(db'.relations))
  }

  /** New memberships, edges and facts are those of the manifest, and every entry of it has had its due. */
  ghost predicate LinksJustified(db: Db, db': Db, m: Manifest, users: map<string, nat>, spaces: map<string, nat>)
    requires Extends(db, db')
  {
    && (forall i | |db.members| <= i < |db'.members| :: NewMemberOf(db'.members[i], m, users, spaces))
    && FromList(db'.relations[|db.relations|..], db.relations, m.edges, users)
    && (forall i | 0 <= i < |m.edges| :: Entered(db.relations, db'.relations, db'.facts, m.edges[i], users))
    && (forall i | |db.facts| <= i < |db'.facts| ::
          NewFactOf(db'.facts[i], m.edges, users) || NewSiblingOf(db'.facts[i], m.siblings, users))
  }

  /** New users and spaces are those of the manifest. */
  ghost predicate NamesJustified(db: Db, db': Db, m: Manifest, users: map<string, nat>, spaces: map<string, nat>) {
    && (forall i | |db.users| <= i < |db'.users| :: UserRow(db'.users[i], m))
    && (forall i | |db.spaces| <= i < |db'.spaces| :: NewSpaceOf(db'.spaces[i], m.pairs, users, spaces))
  }

  lemma NamesResolve(m: Manifest, users: map<string, nat>)
    requires WellFormed(m) && forall name :: name in users <==> Known(m, name)
    ensures forall name <- SpaceNames(m.pairs) :: name in m.rosters && forall p <- m.rosters[name] :: p.name in users
  {
    forall name <- SpaceNames(m.pairs), i | 0 <= i < |m.rosters[name]| ensures m.rosters[name][i].name in users {
      assert Known(m, m.rosters[name][i].name);
    }
  }

  /** Facts added later leave the edges entered. */
  lemma StayEntered(relations: seq<Relation>, all: seq<Relation>, facts: seq<Fact>, facts': seq<Fact>,
                   facts'': seq<Fact>, edges: seq<Edge>, users: map<string, nat>)
    requires Progress(relations, all, facts, facts', edges, users) && facts' <= facts''
    ensures forall i | 0 <= i < |edges| :: Entered(relations, all, facts'', edges[i], users)
  {
    forall i | 0 <= i < |edges| ensures Entered(relations, all, facts'', edges[i], users) {
      EnteredMonotone(relations, all, all, facts', facts'', edges[i], users);
    }
  }

  /** Edges and sibling facts. */
  method EnsureLinks(relations: seq<Relation>, facts: seq<Fact>, m: Manifest, users: map<string, nat>,
          refuses: Refusals)
    returns (ok: bool, relations': seq<Relation>, facts': seq<Fact>)
    requires WellFormed(m) && NoRepeats(m) && Injective(users) && forall name :: Known(m, name) ==> name in users
    ensures ok ==> relations <= relations' && facts <= facts'
    ensures ok ==> EdgesIn(relations', m.edges, users) && SiblingsIn(facts', m.siblings, users)
    ensures ok && UniqueEdges(relations) ==> UniqueEdges(relations')
    ensures ok ==> FromList(relations'[|relations|..], relations, m.edges, users)
    ensures ok ==> forall i | 0 <= i < |m.edges| :: Entered(relations, relations', facts', m.edges[i], users)
    ensures ok ==> forall i | |facts| <= i < |facts'| ::
              NewFactOf(facts'[i], m.edges, users) || NewSiblingOf(facts'[i], m.siblings, users)
    ensures EdgesIn(relations, m.edges, users) && SiblingsIn(facts, m.siblings, users) ==>
              ok && relations' == relations && facts' == facts
    ensures Lenient(refuses) && NoSelfPairs(m) ==> ok
  {
    var stored, all, recorded := EnsureEdges(relations, facts, m.edges, users, refuses);
    if !stored {
      return false, relations, facts;
    }
    var settled, allFacts := EnsureSiblings(recorded, m.siblings, users, refuses);
    if !settled {
      return false, relations, facts;
    }
    StayEntered(relations, all, facts, recorded, allFacts, m.edges, users);
    return true, all, allFacts;
  }

  /** Memberships, edges and sibling facts, once users and spaces are there. */
  method EnsureRows(db: Db, m: Manifest, users: map<string, nat>, spaces: map<string, nat>, refuses: Refusals)
    returns (ok: bool, db': Db)
    requires WellFormed(m) && NoRepeats(m) && Resolves(db, m, users, spaces)
    ensures ok ==> Sound(db, db') && db'.users == db.users && db'.spaces == db.spaces
    ensures ok ==> LinksJustified(db, db', m, users, spaces)
    ensures ok ==> RowsThere(db', m, users, spaces)
    ensures RowsThere(db, m, users, spaces) ==> ok && db' == db
    ensures Lenient(refuses) && NoSelfPairs(m) ==> ok
  {
    FoundUsersDiffer(db.users, users);
    FoundSpacesDiffer(db.spaces, spaces);
    NamesResolve(m, users);
    var members := EnsureMembers(db.members, m, users, spaces);
    var linked, relations, facts := EnsureLinks(db.relations, db.facts, m, users, refuses);
    if !linked {
      return false, db;
    }
    return true, Db(db.users, db.spaces, members, relations, facts);
  }

  lemma SoundFromNames(db: Db, named: Db, db': Db, m: Manifest, users: map<string, nat>, spaces: map<string, nat>)
    requires db.users <= named.users && db.spaces <= named.spaces
        && named == db.(users := named.users, spaces := named.spaces)
    requires Sound(named, db') && db'.users == named.users && db'.spaces == named.spaces
    requires NamesJustified(db, named, m, users, spaces) && LinksJustified(named, db', m, users, spaces)
    ensures Sound(db, db') && NamesJustified(db, db', m, users, spaces) && LinksJustified(db, db', m, users, spaces)
  {
  }

  /**
   * Seeding. If the fact service refuses nothing, no existing row is changed, every user,
   * space, membership, pair and sibling of the manifest is there, and memberships and live
   * edges stay unique; every new row is the one that an entry of the manifest calls for, and
   * every new edge has its fact. A refusal undoes everything. A database that satisfies the
   * manifest is left exactly as it is.
   */
  method SeedFamily(db: Db, m: Manifest, refuses: Refusals)
    returns (ok: bool, db': Db, outcome: Outcome, ghost users: map<string, nat>, ghost spaces: map<string, nat>)
    requires WellFormed(m) && NoRepeats(m)
    ensures ok ==> Sound(db, db') && Satisfied(db', m)
    ensures ok ==> Resolves(db', m, users, spaces)
    ensures ok ==> NamesJustified(db, db', m, users, spaces) && LinksJustified(db, db', m, users, spaces)
    ensures !ok ==> db' == db
    ensures Lenient(refuses) && NoSelfPairs(m) ==> ok
    ensures Satisfied(db, m) ==> ok && db' == db
    ensures outcome == Outcome(|db'.users| - |db.users|, |db'.spaces| - |db.spaces|,
                               |db'.members| - |db.members|, |db'.relations| - |db.relations|)
  {
    var named, userIds, spaceIds := EnsureNames(db, m);
    users, spaces := userIds, spaceIds;
    ResolvedMeansSatisfied(named, m, userIds, spaceIds);
    ok, db' := EnsureRows(named, m, userIds, spaceIds, refuses);
    if !ok {
      return false, db, Outcome(0, 0, 0, 0), users, spaces;
    }
    SoundFromNames(db, named, db', m, userIds, spaceIds);
    ResolvedMeansSatisfied(db', m, userIds, spaceIds);
    outcome := Outcome(|db'.users| - |db.users|, |db'.spaces| - |db.spaces|,
                       |db'.members| - |db.members|, |db'.relations| - |db.relations|);
  }

  /** A second run, whatever the fact service refuses by then, inserts nothing. */
  method SeedTwice(db: Db, m: Manifest, refuses: Refusals, later: Refusals)
    returns (ok: bool, once: Db, twice: Db, second: Outcome)
    requires WellFormed(m) && NoRepeats(m)
    ensures ok ==> twice == once && !WroteAnything(second)
  {
    var first, again;
    ghost var users, spaces;
    ok, once, first, users, spaces := SeedFamily(db, m, refuses);
    again, twice, second, users, spaces := SeedFamily(once, m, later);
  }
}
