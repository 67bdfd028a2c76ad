/** The seed manifest, the tables it is seeded into, and what it means for it to be satisfied. */
module SeedManifest {
  import opened Common

  // ------------------------------------------------------------------
  // Tables. A row's id is its position; soft-deleted and terminal rows stay.
  // ------------------------------------------------------------------

  datatype User = User(name: string, gender: string, deleted: bool)

  datatype Space = Space(name: string, household: bool, owner: nat, lineage: Option<nat>)

  datatype Member = Member(space: nat, user: nat, admin: bool)

  datatype Direction = Elder | Younger | Spouse

  /** `live` means pending or active. */
  datatype Relation = Relation(from: nat, to: nat, dir: Direction, live: bool)

  datatype FactType = BiologicalParent | SpouseFact | DirectSibling | OtherFact

  /** `live` means not revoked; a fact of no particular space is global. */
  datatype Fact = Fact(kind: FactType, subject: nat, target: nat, global: bool, live: bool)

  datatype Db = Db(users: seq<User>, spaces: seq<Space>, members: seq<Member>, relations: seq<Relation>,
      facts: seq<Fact>)

  /** Rows are only ever appended. */
  ghost predicate Extends(db: Db, db': Db) {
    && db.users <= db'.users && db.spaces <= db'.spaces && db.members <= db'.members
    && db.relations <= db'.relations && db.facts <= db'.facts
  }

  // ------------------------------------------------------------------
  // Manifest
  // ------------------------------------------------------------------

  datatype Person = Person(name: string, gender: string)

  datatype SpacePair = SpacePair(household: string, lineage: string, admin: string)

  datatype Edge = Edge(from: string, to: string, dir: Direction)

  datatype Manifest = Manifest(rosterOrder: seq<string>, rosters: map<string, seq<Person>>, pairs: seq<SpacePair>,
                               edges: seq<Edge>, siblings: seq<(string, string)>)

  predicate Named(people: seq<Person>, name: string) {
    exists p <- people :: p.name == name
  }

  predicate Known(m: Manifest, name: string) {
    exists s <- m.rosterOrder :: s in m.rosters && Named(m.rosters[s], name)
  }

  /** Every name that is looked up is there. */
  predicate WellFormed(m: Manifest) {
    && (forall s <- m.rosterOrder :: s in m.rosters)
    && (forall p <- m.pairs :: Known(m, p.admin))
    && (forall name <- SpaceNames(m.pairs) :: name in m.rosters)
    && (forall s <- m.rosters, i | 0 <= i < |m.rosters[s]| :: Known(m, m.rosters[s][i].name))
    && (forall e <- m.edges :: Known(m, e.from) && Known(m, e.to))
    && (forall s <- m.siblings :: Known(m, s.0) && Known(m, s.1))
  }

  predicate SamePair<T(==)>(a: T, b: T, c: T, d: T) {
    (a == c && b == d) || (a == d && b == c)
  }

  function SpaceNames(pairs: seq<SpacePair>): seq<string> {
    if pairs == [] then []
    else SpaceNames(pairs[..|pairs| - 1]) + [pairs[|pairs| - 1].household] + [pairs[|pairs| - 1].lineage]
  }

  ghost predicate DistinctNames(people: seq<Person>) {
    forall i, j | 0 <= i < j < |people| :: people[i].name != people[j].name
  }

  ghost predicate DistinctPairs(edges: seq<Edge>) {
    forall i, j | 0 <= i < j < |edges| :: !SamePair(edges[i].from, edges[i].to, edges[j].from, edges[j].to)
  }

  /** Space names, names within a roster and unordered pairs do not repeat. */
  ghost predicate NoRepeats(m: Manifest) {
    Distinct(SpaceNames(m.pairs)) && (forall s | s in m.rosters :: DistinctNames(m.rosters[s]))
        && DistinctPairs(m.edges)
  }

  // ------------------------------------------------------------------
  // Queries
  // ------------------------------------------------------------------

  /** The oldest live user of that name. */
  function FindUser(users: seq<User>, name: string): (r: Option<nat>)
    ensures r.Some? ==> r.value < |users| && users[r.value].name == name && !users[r.value].deleted
    ensures r.None? ==> forall i | 0 <= i < |users| :: users[i].name != name || users[i].deleted
  {
    if users == [] then None
    else
      var r := FindUser(users[..|users| - 1], name);
      if r.Some? then r
      else if users[|users| - 1].name == name && !users[|users| - 1].deleted then Some(|users| - 1)
      else None
  }

  function FindSpace(spaces: seq<Space>, name: string): (r: Option<nat>)
    ensures r.Some? ==> r.value < |spaces| && spaces[r.value].name == name
    ensures r.None? ==> forall i | 0 <= i < |spaces| :: spaces[i].name != name
  {
    if spaces == [] then None
    else
      var r := FindSpace(spaces[..|spaces| - 1], name);
      if r.Some? then r
      else if spaces[|spaces| - 1].name == name then Some(|spaces| - 1)
      else None
  }

  predicate HasMember(members: seq<Member>, space: nat, user: nat) {
    exists x <- members :: x.space == space && x.user == user
  }

  predicate HasLiveEdge(relations: seq<Relation>, a: nat, b: nat) {
    exists r <- relations :: r.live && SamePair(r.from, r.to, a, b)
  }

  predicate HasGlobalFact(facts: seq<Fact>, kind: FactType, subject: nat, target: nat) {
    exists f <- facts :: f.kind == kind && f.subject == subject && f.target == target && f.global && f.live
  }

  /** The fact that a structural edge stands for: an elder is the parent, a younger one the child. */
  function FactOf(r: Relation): Fact {
    match r.dir
    case Elder => Fact(BiologicalParent, r.to, r.from, true, true)
    case Younger => Fact(BiologicalParent, r.from, r.to, true, true)
    case Spouse => Fact(SpouseFact, r.from, r.to, true, true)
  }

  ghost predicate UniqueMembers(members: seq<Member>) {
    forall i, j | 0 <= i < j < |members| :: members[i].space != members[j].space || members[i].user != members[j].user
  }

  /** At most one live edge between two people. */
  ghost predicate UniqueEdges(relations: seq<Relation>) {
    forall i, j | 0 <= i < j < |relations| && relations[i].live && relations[j].live ::
      !SamePair(relations[i].from, relations[i].to, relations[j].from, relations[j].to)
  }

  // ------------------------------------------------------------------
  // What a new row may be
  // ------------------------------------------------------------------

  /** The rosters one after the other, in the order of the manifest. */
  function Rosters(m: Manifest, order: seq<string>): seq<Person> {
    if order == [] then []
    else
      var last := order[|order| - 1];
      Rosters(m, order[..|order| - 1]) + if last in m.rosters then m.rosters[last] else []
  }

  /** The first entry of that name. */
  function FirstNamed(people: seq<Person>, name: string): Option<Person> {
    if people == [] then None
    else
      var p := FirstNamed(people[..|people| - 1], name);
      if p.None? && people[|people| - 1].name == name then Some(people[|people| - 1]) else p
  }

  /** A new user has the name and gender of the first roster entry of that name. */
  ghost predicate UserRow(x: User, m: Manifest) {
    exists p <- Rosters(m, m.rosterOrder) ::
      FirstNamed(Rosters(m, m.rosterOrder), p.name) == Some(p) && x == User(p.name, p.gender, false)
  }

  /** A new space is owned by the pair's administrator; a household hangs below its lineage. */
  ghost predicate SpaceRow(x: Space, p: SpacePair, users: map<string, nat>, spaces: map<string, nat>) {
    p.admin in users && p.lineage in spaces
    && (x == Space(p.household, true, users[p.admin], Some(spaces[p.lineage]))
        || x == Space(p.lineage, false, users[p.admin], None))
  }

  ghost predicate NewSpaceOf(x: Space, pairs: seq<SpacePair>, users: map<string, nat>, spaces: map<string, nat>) {
    exists j | 0 <= j < |pairs| :: SpaceRow(x, pairs[j], users, spaces)
  }

  /** A new member stands on the space's roster, and is its administrator if `admin` names him. */
  ghost predicate MemberOf(x: Member, roster: seq<Person>, space: nat, admin: string, users: map<string, nat>) {
    exists i | 0 <= i < |roster| ::
      roster[i].name in users && x == Member(space, users[roster[i].name], roster[i].name == admin)
  }

  ghost predicate MemberRow(x: Member, m: Manifest, p: SpacePair, users: map<string, nat>, spaces: map<string, nat>) {
    exists name <- [p.household, p.lineage] ::
      name in m.rosters && name in spaces && MemberOf(x, m.rosters[name], spaces[name], p.admin, users)
  }

  ghost predicate NewMemberOf(x: Member, m: Manifest, users: map<string, nat>, spaces: map<string, nat>) {
    exists j | 0 <= j < |m.pairs| :: MemberRow(x, m, m.pairs[j], users, spaces)
  }

  ghost predicate EdgeRow(x: Relation, e: Edge, users: map<string, nat>) {
    e.from in users && e.to in users && x == Relation(users[e.from], users[e.to], e.dir, true)
  }

  /** Along an elder edge the target is the parent, along a younger one the source. */
  ghost predicate EdgeFact(f: Fact, e: Edge, users: map<string, nat>) {
    e.from in users && e.to in users &&
    match e.dir
    case Elder => f == Fact(BiologicalParent, users[e.to], users[e.from], true, true)
    case Younger => f == Fact(BiologicalParent, users[e.from], users[e.to], true, true)
    case Spouse => f == Fact(SpouseFact, users[e.from], users[e.to], true, true)
  }

  /** The fact of the edge is on record, for everybody and not revoked. */
  ghost predicate Recorded(facts: seq<Fact>, e: Edge, users: map<string, nat>) {
    exists f <- facts :: EdgeFact(f, e, users)
  }

  ghost predicate SiblingRow(f: Fact, s: (string, string), users: map<string, nat>) {
    s.0 in users && s.1 in users && f == Fact(DirectSibling, users[s.0], users[s.1], true, true)
  }

  // ------------------------------------------------------------------
  // Satisfaction
  // ------------------------------------------------------------------

  ghost predicate UsersThere(users: seq<User>, m: Manifest) {
    forall name | Known(m, name) :: FindUser(users, name).Some?
  }

  ghost predicate SpacesThere(spaces: seq<Space>, m: Manifest) {
    forall name <- SpaceNames(m.pairs) :: FindSpace(spaces, name).Some?
  }

  /** The roster of one space is enrolled. */
  ghost predicate Enrolled(db: Db, roster: seq<Person>, space: string) {
    forall i | 0 <= i < |roster| ::
      && FindSpace(db.spaces, space).Some? && FindUser(db.users, roster[i].name).Some?
      && HasMember(db.members, FindSpace(db.spaces, space).value, FindUser(db.users, roster[i].name).value)
  }

  ghost predicate MembersThere(db: Db, m: Manifest) {
    forall name <- SpaceNames(m.pairs) :: name in m.rosters && Enrolled(db, m.rosters[name], name)
  }

  ghost predicate EdgesThere(db: Db, m: Manifest) {
    forall e <- m.edges ::
      && FindUser(db.users, e.from).Some? && FindUser(db.users, e.to).Some?
      && HasLiveEdge(db.relations, FindUser(db.users, e.from).value, FindUser(db.users, e.to).value)
  }

  predicate SiblingFact(facts: seq<Fact>, a: nat, b: nat) {
    HasGlobalFact(facts, DirectSibling, a, b) || HasGlobalFact(facts, DirectSibling, b, a)
  }

  ghost predicate SiblingsThere(db: Db, m: Manifest) {
    forall s <- m.siblings ::
      && FindUser(db.users, s.0).Some? && FindUser(db.users, s.1).Some?
      && SiblingFact(db.facts, FindUser(db.users, s.0).value, FindUser(db.users, s.1).value)
  }

  ghost predicate Satisfied(db: Db, m: Manifest) {
    UsersThere(db.users, m) && SpacesThere(db.spaces, m) && MembersThere(db, m) && EdgesThere(db, m)
        && SiblingsThere(db, m)
  }
}
