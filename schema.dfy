/**
 * The database the route handlers work on, as plain values: one map or list per
 * Prisma model, the audit log, and the next free row id. Each Prisma call the
 * handlers make is a function here (`findFirst`, `count`, `create`, `update`,
 * `deleteMany` with its cascades); the class `Store.Db` applies them in place.
 *
 * Ids are natural numbers handed out from `nextId`, so rows created later have
 * larger ids; `createdAt` ordering is modelled by that order.
 */
module Schema {
  import opened Wrappers
  import opened Json
  import Lists

  type Id = nat

  /**
   * A stored password hash. bcrypt is not part of this model: `hashPassword(p)`
   * is `Hashed(p)` and `verifyPassword(p, h)` is `h == Hashed(p)`.
   */
  datatype Hash = Hashed(plain: string)

  const SuperAdmin: string := "SUPER_ADMIN"
  const EventAdmin: string := "EVENT_ADMIN"
  const Participant: string := "PARTICIPANT"

  /** `['SUPER_ADMIN', 'EVENT_ADMIN'].includes(role)`. */
  predicate IsAdmin(role: string) { role == SuperAdmin || role == EventAdmin }

  /**
   * A user row. `eventId` is the event an admin or participant belongs to;
   * `events` is the older many-to-many link to events, in link order.
   */
  datatype User = User(
    username: string,
    passwordHash: Hash,
    publicId: string,
    role: string,
    avatarIndex: int,
    eventId: Option<Id>,
    hasSeenWelcome: bool,
    events: seq<Id>)

  datatype Event = Event(
    name: string,
    slug: string,
    status: string,
    startDate: Option<string>,
    endDate: Option<string>,
    createdByUserId: Option<Id>)

  /** `iconIndex` is `None` where the row was created without one. */
  datatype Team = Team(name: string, publicId: string, eventId: Id, iconIndex: Option<int>)

  datatype Membership = Membership(id: Id, userId: Id, teamId: Id)

  datatype Item = Item(id: Id, name: string, eventId: Id, defaultPoints: int)

  datatype Entry = Entry(id: Id, count: int, pointsAwarded: int, userId: Id, teamId: Id, itemId: Id)

  /** An audit-log row; `details` is kept as the JSON value that `logAction` stringifies. */
  datatype LogRecord = LogRecord(
    action: string,
    details: Json,
    actorId: Option<Id>,
    actorName: string,
    actorRole: string,
    eventId: Option<Id>)

  /**
   * All tables. Memberships, items, entries and log rows are lists in insertion
   * order, which is the order a `findFirst` without `orderBy` sees them in.
   * A participation row is keyed by (user id, event id) and holds `hasSeenWelcome`.
   */
  datatype Tables = Tables(
    users: map<Id, User>,
    events: map<Id, Event>,
    teams: map<Id, Team>,
    members: seq<Membership>,
    participations: map<(Id, Id), bool>,
    items: seq<Item>,
    entries: seq<Entry>,
    logs: seq<LogRecord>,
    nextId: Id)

  // ---------------------------------------------------------------------
  // Requests and responses
  // ---------------------------------------------------------------------

  /** The payload of a verified `session_token`. */
  datatype Claims = Claims(userId: Id, username: string, role: string)

  /** The cookie as a handler sees it: absent, present but rejected by `verifyToken`, or verified. */
  datatype Session = NoCookie | Invalid | Verified(claims: Claims)

  /** `NextResponse.json({ status: ok, message }, { status })`. */
  datatype Response = Response(status: nat, ok: bool, message: string)

  function Fail(message: string): Response { Response(200, false, message) }

  function Done(message: string): Response { Response(200, true, message) }

  /** What every handler's `catch` returns. */
  const ServerError: Response := Response(500, false, "Internal Server Error")

  /** The tables after a request and the response sent. */
  datatype Outcome = Outcome(tables: Tables, response: Response)

  // ---------------------------------------------------------------------
  // Queries
  // ---------------------------------------------------------------------

  /** `teamMember.findFirst({ where: { userId } })`: the position of the user's first membership. */
  function FirstMembership(ms: seq<Membership>, userId: Id): (r: Option<nat>)
    ensures r.Some? ==> r.value < |ms| && ms[r.value].userId == userId
    ensures r.Some? ==> forall j :: 0 <= j < r.value ==> ms[j].userId != userId
    ensures r.None? <==> forall j :: 0 <= j < |ms| ==> ms[j].userId != userId
  {
    if ms == [] then None
    else if ms[0].userId == userId then Some(0)
    else
      match FirstMembership(ms[1..], userId)
      case None => None
      case Some(k) => Some(k + 1)
  }

  /** `teamMember.findFirst({ where: { userId, teamId } })` finds a row. */
  predicate IsMember(ms: seq<Membership>, userId: Id, teamId: Id)
  {
    exists i :: 0 <= i < |ms| && ms[i].userId == userId && ms[i].teamId == teamId
  }

  /** The memberships of a team. */
  function TeamMembers(ms: seq<Membership>, teamId: Id): (r: seq<Membership>)
    ensures forall m :: m in r <==> m in ms && m.teamId == teamId
  {
    Lists.Filter(ms, (m: Membership) => m.teamId == teamId)
  }

  /** `teamMember.count({ where: { teamId } })`. */
  function CountMembers(ms: seq<Membership>, teamId: Id): (n: nat)
    ensures n == 0 <==> forall i :: 0 <= i < |ms| ==> ms[i].teamId != teamId
  {
    var r := TeamMembers(ms, teamId);
    assert forall i :: 0 <= i < |ms| && ms[i].teamId == teamId ==> ms[i] in r;
    assert |r| > 0 ==> r[0] in r;
    |r|
  }

  function TeamPublicIds(t: Tables): set<string>
  {
    set k | k in t.teams :: t.teams[k].publicId
  }

  function UserPublicIds(t: Tables): set<string>
  {
    set k | k in t.users :: t.users[k].publicId
  }

  /** Some user already has exactly this username (`findUnique` on the unique column). */
  predicate UsernameTaken(t: Tables, username: string)
  {
    exists k :: k in t.users && t.users[k].username == username
  }

  /** No two users share a username: the unique constraint on the column. */
  predicate UsernamesUnique(t: Tables)
  {
    forall a, b :: a in t.users && b in t.users && t.users[a].username == t.users[b].username ==> a == b
  }

  // ---------------------------------------------------------------------
  // Writes
  // ---------------------------------------------------------------------

  function AddUser(t: Tables, u: User): (Tables, Id)
  {
    (t.(users := t.users[t.nextId := u], nextId := t.nextId + 1), t.nextId)
  }

  function AddEvent(t: Tables, e: Event): (Tables, Id)
  {
    (t.(events := t.events[t.nextId := e], nextId := t.nextId + 1), t.nextId)
  }

  function AddTeam(t: Tables, team: Team): (Tables, Id)
  {
    (t.(teams := t.teams[t.nextId := team], nextId := t.nextId + 1), t.nextId)
  }

  function AddMembership(t: Tables, userId: Id, teamId: Id): (Tables, Id)
  {
    (t.(members := t.members + [Membership(t.nextId, userId, teamId)], nextId := t.nextId + 1), t.nextId)
  }

  function AddItem(t: Tables, name: string, eventId: Id, defaultPoints: int): (Tables, Id)
  {
    (t.(items := t.items + [Item(t.nextId, name, eventId, defaultPoints)], nextId := t.nextId + 1), t.nextId)
  }

  function AddEntry(t: Tables, count: int, points: int, userId: Id, teamId: Id, itemId: Id): (Tables, Id)
  {
    (t.(entries := t.entries + [Entry(t.nextId, count, points, userId, teamId, itemId)], nextId := t.nextId + 1), t.nextId)
  }

  function AddLog(t: Tables, r: LogRecord): Tables
  {
    t.(logs := t.logs + [r])
  }

  /** `teamMember.update` of the row at position `i` to point at another team. */
  function MoveMembership(t: Tables, i: nat, teamId: Id): Tables
    requires i < |t.members|
  {
    t.(members := t.members[i := t.members[i].(teamId := teamId)])
  }

  /** `team.deleteMany({ where: { id: { in: ids } } })`, cascading to memberships and entries. */
  function DeleteTeams(t: Tables, ids: set<Id>): (r: Tables)
    ensures forall k :: k in r.teams <==> k in t.teams && k !in ids
    ensures forall k :: k in r.teams ==> r.teams[k] == t.teams[k]
    ensures forall m :: m in r.members <==> m in t.members && m.teamId !in ids
    ensures forall e :: e in r.entries <==> e in t.entries && e.teamId !in ids
    ensures r.users == t.users && r.events == t.events && r.participations == t.participations && r.items == t.items
    ensures r.logs == t.logs && r.nextId == t.nextId
  {
    t.(teams := map k | k in t.teams && k !in ids :: t.teams[k],
       members := Lists.Filter(t.members, (m: Membership) => m.teamId !in ids),
       entries := Lists.Filter(t.entries, (e: Entry) => e.teamId !in ids))
  }

  /** `user.deleteMany`, cascading to the users' memberships, participations and entries. */
  function DeleteUsers(t: Tables, ids: set<Id>): (r: Tables)
    ensures forall k :: k in r.users <==> k in t.users && k !in ids
    ensures forall k :: k in r.users ==> r.users[k] == t.users[k]
    ensures forall m :: m in r.members <==> m in t.members && m.userId !in ids
    ensures forall p :: p in r.participations <==> p in t.participations && p.0 !in ids
    ensures forall p :: p in r.participations ==> r.participations[p] == t.participations[p]
    ensures forall e :: e in r.entries <==> e in t.entries && e.userId !in ids
    ensures r.teams == t.teams && r.events == t.events && r.items == t.items && r.logs == t.logs && r.nextId == t.nextId
  {
    t.(users := map k | k in t.users && k !in ids :: t.users[k],
       members := Lists.Filter(t.members, (m: Membership) => m.userId !in ids),
       participations := map p | p in t.participations && p.0 !in ids :: t.participations[p],
       entries := Lists.Filter(t.entries, (e: Entry) => e.userId !in ids))
  }

  /** `user.updateMany({ where: { id: { in: ids } }, data: { hasSeenWelcome: value } })`. */
  function SetWelcome(t: Tables, ids: set<Id>, value: bool): (r: Tables)
    ensures r.users.Keys == t.users.Keys
    ensures r == t.(users := r.users)
  {
    t.(users := map k | k in t.users :: if k in ids then t.users[k].(hasSeenWelcome := value) else t.users[k])
  }

  // ---------------------------------------------------------------------
  // Referential integrity
  // ---------------------------------------------------------------------

  /** Every membership row refers to an existing user and an existing team. */
  predicate MembersValid(t: Tables)
  {
    forall i :: 0 <= i < |t.members| ==> t.members[i].userId in t.users && t.members[i].teamId in t.teams
  }

  /** Every row id is below `nextId`, so a freshly allocated id is unused. */
  predicate IdsFresh(t: Tables)
  {
    && (forall k :: k in t.users ==> k < t.nextId)
    && (forall k :: k in t.events ==> k < t.nextId)
    && (forall k :: k in t.teams ==> k < t.nextId)
    && (forall i :: 0 <= i < |t.members| ==> t.members[i].id < t.nextId)
  }

  /** The integrity the schema's foreign keys and id allocation maintain. */
  predicate Valid(t: Tables)
  {
    MembersValid(t) && IdsFresh(t)
  }
}
