/**
 * app/api/users/route.ts: creating one user (POST) and the user list (GET).
 *
 * POST is open to SUPER_ADMIN and EVENT_ADMIN callers; an EVENT_ADMIN can only
 * create participants of their own event. A participant created with an event
 * gets a one-member team named after them. The random password, public IDs and
 * avatar come from the `Generators.Oracle` streams.
 */
module UsersRoute {
  import opened Wrappers
  import opened Json
  import opened Schema
  import Generators
  import Store
  import Sorting
  import Lists

  /** The POST body; a falsy string is "" and a falsy id `None`. */
  datatype CreateBody = CreateBody(username: string, role: string, password: string, eventId: Option<Id>)

  /** The credentials the response shows once. */
  datatype Credentials = Credentials(username: string, password: string, publicId: string)

  /** A creation request's outcome, the credentials returned, and how far each random stream was read. */
  datatype Created = Created(outcome: Outcome, credentials: Option<Credentials>, used: Generators.Cursor)

  /**
   * The role and event the new user gets. An EVENT_ADMIN caller's request is
   * rewritten to a participant of the caller's own event; `None` when the
   * caller's row or its event is missing.
   */
  function Scoped(t: Tables, c: Claims, body: CreateBody): Option<(string, Option<Id>)>
  {
    if c.role == EventAdmin then
      if c.userId !in t.users || t.users[c.userId].eventId.None? then None
      else Some((Participant, t.users[c.userId].eventId))
    else Some((body.role, body.eventId))
  }

  /** The role-selection check: EVENT_ADMIN and PARTICIPANT for anyone, any role for a SUPER_ADMIN. */
  predicate RoleAllowed(role: string, callerRole: string)
  {
    role == EventAdmin || role == Participant || callerRole == SuperAdmin
  }

  /** A request that passed every check, with its scoped role and event, or the response that refused it. */
  datatype Admission = Admitted(claims: Claims, role: string, eventId: Option<Id>) | Refused(response: Response)

  /** The checks made before anything is drawn or written, in the handler's order. */
  function Admit(t: Tables, s: Session, body: CreateBody): (a: Admission)
    ensures a.Refused? ==> !a.response.ok
    ensures a.Admitted? ==> && s == Verified(a.claims) && IsAdmin(a.claims.role)
                            && body.username != "" && a.role != ""
                            && RoleAllowed(a.role, a.claims.role) && !UsernameTaken(t, body.username)
  {
    match s
    case NoCookie => Refused(Fail("Unauthorized"))
    case Invalid => Refused(Fail("Forbidden"))
    case Verified(claims) =>
      if !IsAdmin(claims.role) then Refused(Fail("Forbidden"))
      else
        match Scoped(t, claims, body)
        case None => Refused(Fail("Admin event context missing"))
        case Some((role, eventId)) =>
          if body.username == "" || role == "" then Refused(Fail("Username and Role are required"))
          else if !RoleAllowed(role, claims.role) then Refused(Fail("Invalid role selection"))
          else if UsernameTaken(t, body.username) then Refused(Fail("Username already exists"))
          else Admitted(claims, role, eventId)
  }

  /** `customPassword || generatePassword(12)`: random bytes are read only when no password is given. */
  function ChoosePassword(custom: string, o: Generators.Oracle, c: Generators.Cursor): (string, Generators.Cursor)
  {
    if custom != "" then (custom, c)
    else (Generators.PasswordOf(Generators.Bytes(o, c, 12)), c.(bytesUsed := c.bytesUsed + 12))
  }

  /**
   * The participant's team: named after the user, with the user's avatar as its
   * icon and the user as its one member. `None` when no free public ID is found.
   */
  function ParticipantTeam(t: Tables, userId: Id, username: string, avatar: nat, eventId: Id,
                           draw: nat -> Generators.Unit, drawn: nat): (Option<Tables>, nat)
  {
    var (teamPublicId, next) := Generators.PickPublicId(TeamPublicIds(t), draw, drawn, 0);
    if teamPublicId.None? then (None, next)
    else
      var (t1, teamId) := AddTeam(t, Team(username, teamPublicId.value, eventId, Some(avatar)));
      (Some(AddMembership(t1, userId, teamId).0), next)
  }

  /**
   * The transaction: the user row with a random avatar, then, for a participant
   * with an event, the participant's team. `None` when a write throws: the event
   * does not exist, or no free team public ID was found. Returns the draws used.
   */
  function CreateTx(t: Tables, username: string, hash: Hash, publicId: string, role: string, eventId: Option<Id>,
                    draw: nat -> Generators.Unit, drawn: nat): (Option<(Tables, Id)>, nat)
  {
    var avatar := Generators.AvatarIndex(draw(drawn));
    if eventId.Some? && eventId.value !in t.events then (None, drawn + 1)
    else
      var (t1, userId) := AddUser(t, User(username, hash, publicId, role, avatar, eventId, false, []));
      if role == Participant && eventId.Some? then
        var (t2, next) := ParticipantTeam(t1, userId, username, avatar, eventId.value, draw, drawn + 1);
        if t2.None? then (None, next) else (Some((t2.value, userId)), next)
      else (Some((t1, userId)), drawn + 1)
  }

  function IdJson(id: Option<Id>): Json
  {
    if id.Some? then JNum(id.value) else JNull
  }

  /** The USER_CREATE audit record. */
  function CreateLog(c: Claims, userId: Id, username: string, role: string, eventId: Option<Id>): LogRecord
  {
    LogRecord("USER_CREATE",
              JObj([("createdUserId", JNum(userId)), ("createdUsername", JStr(username)),
                    ("targetUsername", JStr(username)), ("role", JStr(role)), ("eventId", IdJson(eventId))]),
              Some(c.userId), c.username, c.role, None)
  }

  /**
   * An admitted request: the password, the user's public ID (drawn outside the
   * transaction), the transaction, then the audit record.
   */
  function Provision(t: Tables, a: Admission, username: string, customPassword: string,
                     o: Generators.Oracle, c: Generators.Cursor): (r: Created)
    requires a.Admitted?
    ensures !r.outcome.response.ok ==> r.outcome.tables == t && r.credentials.None?
  {
    var (password, c1) := ChoosePassword(customPassword, o, c);
    var (publicId, drawn) := Generators.PickPublicId(UserPublicIds(t), o.draw, c1.drawn, 0);
    if publicId.None? then Created(Outcome(t, ServerError), None, c1.(drawn := drawn))
    else
      var (tx, drawn2) := CreateTx(t, username, Hashed(password), publicId.value, a.role, a.eventId, o.draw, drawn);
      if tx.None? then Created(Outcome(t, ServerError), None, c1.(drawn := drawn2))
      else
        var (t1, userId) := tx.value;
        Created(Outcome(AddLog(t1, CreateLog(a.claims, userId, username, a.role, a.eventId)), Done("User created successfully")),
                Some(Credentials(username, password, publicId.value)),
                c1.(drawn := drawn2))
  }

  /** `POST /api/users`. A rejected request changes no table and shows no credentials. */
  function Create(t: Tables, s: Session, body: CreateBody, o: Generators.Oracle, c: Generators.Cursor): (r: Created)
    ensures !r.outcome.response.ok ==> r.outcome.tables == t && r.credentials.None?
  {
    var a := Admit(t, s, body);
    if a.Refused? then Created(Outcome(t, a.response), None, c)
    else Provision(t, a, body.username, body.password, o, c)
  }

  // ---------------------------------------------------------------------
  // GET
  // ---------------------------------------------------------------------

  /** A row of the list: the user's fields and the name and slug of their event, if any. */
  datatype UserListRow = UserListRow(id: Id, username: string, publicId: string, role: string, event: Option<(string, string)>)

  function ListRow(t: Tables, id: Id): UserListRow
    requires id in t.users
  {
    var u := t.users[id];
    var event := if u.eventId.Some? && u.eventId.value in t.events
      then Some((t.events[u.eventId.value].name, t.events[u.eventId.value].slug)) else None;
    UserListRow(id, u.username, u.publicId, u.role, event)
  }

  /** The ids `findMany` returns: every user who is not a SUPER_ADMIN, newest first. */
  function ListedIds(t: Tables): (ids: seq<Id>)
    ensures forall i :: 0 <= i < |ids| ==> ids[i] in t.users
  {
    var keys := set k | k in t.users && t.users[k].role != SuperAdmin;
    var ids := Sorting.Descending(keys, t.nextId);
    assert forall i :: 0 <= i < |ids| ==> ids[i] in ids;
    ids
  }

  /** `GET /api/users`: any verified caller gets the list. */
  function List(t: Tables, s: Session): (r: (Response, seq<UserListRow>))
  {
    match s
    case NoCookie => (Fail("Unauthorized"), [])
    case Invalid => (Fail("Invalid token"), [])
    case Verified(_) =>
      var ids := ListedIds(t);
      (Done("Users fetched successfully"), seq(|ids|, i requires 0 <= i < |ids| => ListRow(t, ids[i])))
  }

  // ---------------------------------------------------------------------
  // Properties
  // ---------------------------------------------------------------------

  /** Callers other than SUPER_ADMIN and EVENT_ADMIN are turned away and nothing changes. */
  lemma CreateNeedsAdmin(t: Tables, c: Claims, body: CreateBody, o: Generators.Oracle, cur: Generators.Cursor)
    requires !IsAdmin(c.role)
    ensures Create(t, Verified(c), body, o, cur) == Created(Outcome(t, Fail("Forbidden")), None, cur)
  {
  }

  /** An EVENT_ADMIN whose own row has no event cannot create anyone. */
  lemma EventAdminNeedsEvent(t: Tables, c: Claims, body: CreateBody, o: Generators.Oracle, cur: Generators.Cursor)
    requires c.role == EventAdmin
    requires c.userId !in t.users || t.users[c.userId].eventId.None?
    ensures Create(t, Verified(c), body, o, cur) == Created(Outcome(t, Fail("Admin event context missing")), None, cur)
  {
  }

  /** A missing username is refused before anything is written or drawn. */
  lemma CreateNeedsUsername(t: Tables, c: Claims, body: CreateBody, o: Generators.Oracle, cur: Generators.Cursor)
    requires IsAdmin(c.role) && Scoped(t, c, body).Some?
    requires body.username == ""
    ensures Create(t, Verified(c), body, o, cur) == Created(Outcome(t, Fail("Username and Role are required")), None, cur)
  {
  }

  /** The role-selection check never turns a SUPER_ADMIN away, whatever role is asked for. */
  lemma SuperAdminAnyRole(t: Tables, c: Claims, body: CreateBody, o: Generators.Oracle, cur: Generators.Cursor)
    requires c.role == SuperAdmin
    ensures Create(t, Verified(c), body, o, cur).outcome.response.message != "Invalid role selection"
  {
    var a := Admit(t, Verified(c), body);
    assert a.Refused? ==> a.response.message != "Invalid role selection";
  }

  /** A username some user already has is refused and nothing is created. */
  lemma CreateDuplicate(t: Tables, c: Claims, body: CreateBody, o: Generators.Oracle, cur: Generators.Cursor)
    requires IsAdmin(c.role) && Scoped(t, c, body).Some? && body.username != ""
    requires RoleAllowed(Scoped(t, c, body).value.0, c.role) && Scoped(t, c, body).value.0 != ""
    requires UsernameTaken(t, body.username)
    ensures Create(t, Verified(c), body, o, cur) == Created(Outcome(t, Fail("Username already exists")), None, cur)
  {
  }

  /** An admitted EVENT_ADMIN request is scoped to a participant of the admin's own event. */
  lemma AdmitEventAdmin(t: Tables, s: Session, body: CreateBody)
    requires s.Verified? && s.claims.role == EventAdmin
    ensures var a := Admit(t, s, body);
      a.Admitted? ==>
        && s.claims.userId in t.users && t.users[s.claims.userId].eventId.Some?
        && a.role == Participant && a.eventId == t.users[s.claims.userId].eventId
  {
  }

  /** The participant's team is the next row, named after the user, and the user is its one member. */
  lemma ParticipantTeamShape(t: Tables, userId: Id, username: string, avatar: nat, eventId: Id,
                             draw: nat -> Generators.Unit, drawn: nat)
    ensures var (t1, _) := ParticipantTeam(t, userId, username, avatar, eventId, draw, drawn);
      t1.Some? ==>
        && t1.value.users == t.users && t1.value.logs == t.logs && t1.value.nextId == t.nextId + 2
        && t1.value.events == t.events
        && t1.value.teams.Keys == t.teams.Keys + {t.nextId}
        && (forall k :: k in t.teams && k != t.nextId ==> t1.value.teams[k] == t.teams[k])
        && t1.value.teams[t.nextId].name == username
        && t1.value.teams[t.nextId].eventId == eventId
        && t1.value.teams[t.nextId].iconIndex == Some(avatar)
        && t1.value.teams[t.nextId].publicId !in TeamPublicIds(t)
        && t1.value.members == t.members + [Membership(t.nextId + 1, userId, t.nextId)]
  {
    Generators.PickIsFree(TeamPublicIds(t), draw, drawn, 0);
  }

  /**
   * What the creation transaction writes: a user row at the next id, and a team
   * exactly when the user is a participant with an event.
   */
  lemma CreateTxShape(t: Tables, username: string, hash: Hash, publicId: string, role: string, eventId: Option<Id>,
                      draw: nat -> Generators.Unit, drawn: nat)
    ensures var (tx, _) := CreateTx(t, username, hash, publicId, role, eventId, draw, drawn);
      tx.Some? ==>
        var (t1, userId) := tx.value;
        && userId == t.nextId
        && t1.users == t.users[userId := User(username, hash, publicId, role, Generators.AvatarIndex(draw(drawn)), eventId, false, [])]
        && t1.logs == t.logs
        && (eventId.Some? ==> eventId.value in t.events)
        && (!(role == Participant && eventId.Some?) ==> t1.teams == t.teams && t1.members == t.members)
        && (role == Participant && eventId.Some? ==>
              && t1.teams.Keys == t.teams.Keys + {t.nextId + 1}
              && t1.teams[t.nextId + 1].name == username
              && t1.teams[t.nextId + 1].eventId == eventId.value
              && t1.teams[t.nextId + 1].iconIndex == Some(t1.users[userId].avatarIndex)
              && t1.members == t.members + [Membership(t.nextId + 2, userId, t.nextId + 1)])
  {
    if eventId.Some? && eventId.value in t.events && role == Participant {
      var avatar := Generators.AvatarIndex(draw(drawn));
      var (t1, userId) := AddUser(t, User(username, hash, publicId, role, avatar, eventId, false, []));
      ParticipantTeamShape(t1, userId, username, avatar, eventId.value, draw, drawn + 1);
    }
  }

  /**
   * A successful creation adds one user at the next id, with the requested name,
   * the scoped role and event, a fresh public ID and the hash of the password it
   * returns; the password is the custom one when given, otherwise 12 characters
   * spelled by the next 12 random bytes.
   */
  lemma ProvisionCreates(t: Tables, a: Admission, username: string, customPassword: string,
                         o: Generators.Oracle, cur: Generators.Cursor)
    requires a.Admitted?
    ensures var r := Provision(t, a, username, customPassword, o, cur);
      r.outcome.response.ok ==>
        && r.credentials.Some?
        && var cred := r.credentials.value;
           && cred.username == username
           && cred.password == (if customPassword != "" then customPassword
                                else Generators.PasswordOf(Generators.Bytes(o, cur, 12)))
           && (customPassword == "" ==> |cred.password| == 12 && r.used.bytesUsed == cur.bytesUsed + 12)
           && (customPassword != "" ==> r.used.bytesUsed == cur.bytesUsed)
           && cred.publicId !in UserPublicIds(t)
           && t.nextId in r.outcome.tables.users
           && r.outcome.tables.users[t.nextId].username == username
           && r.outcome.tables.users[t.nextId].role == a.role
           && r.outcome.tables.users[t.nextId].eventId == a.eventId
           && r.outcome.tables.users[t.nextId].publicId == cred.publicId
           && r.outcome.tables.users[t.nextId].passwordHash == Hashed(cred.password)
           && r.outcome.tables.logs == t.logs + [CreateLog(a.claims, t.nextId, username, a.role, a.eventId)]
  {
    var (password, c1) := ChoosePassword(customPassword, o, cur);
    var (publicId, drawn) := Generators.PickPublicId(UserPublicIds(t), o.draw, c1.drawn, 0);
    Generators.PickIsFree(UserPublicIds(t), o.draw, c1.drawn, 0);
    if publicId.Some? {
      CreateTxShape(t, username, Hashed(password), publicId.value, a.role, a.eventId, o.draw, drawn);
    }
  }

  /**
   * A team comes with the new user exactly when the user is a participant with
   * an event; it is named after the user, shares the user's avatar, and the user
   * is its only member.
   */
  lemma ProvisionTeamIffParticipant(t: Tables, a: Admission, username: string, customPassword: string,
                                    o: Generators.Oracle, cur: Generators.Cursor)
    requires a.Admitted?
    ensures var r := Provision(t, a, username, customPassword, o, cur);
      var t1 := r.outcome.tables;
      r.outcome.response.ok ==>
        && t.nextId in t1.users
        && var u := t1.users[t.nextId];
           && (!(u.role == Participant && u.eventId.Some?) ==> t1.teams == t.teams && t1.members == t.members)
           && (u.role == Participant && u.eventId.Some? ==>
                 && t1.teams.Keys == t.teams.Keys + {t.nextId + 1}
                 && t1.teams[t.nextId + 1].name == u.username
                 && t1.teams[t.nextId + 1].iconIndex == Some(u.avatarIndex)
                 && t1.teams[t.nextId + 1].eventId == u.eventId.value
                 && t1.members == t.members + [Membership(t.nextId + 2, t.nextId, t.nextId + 1)])
  {
    var (password, c1) := ChoosePassword(customPassword, o, cur);
    var (publicId, drawn) := Generators.PickPublicId(UserPublicIds(t), o.draw, c1.drawn, 0);
    if publicId.Some? {
      CreateTxShape(t, username, Hashed(password), publicId.value, a.role, a.eventId, o.draw, drawn);
    }
  }

  /** A successful request by an EVENT_ADMIN creates a participant of the admin's own event. */
  lemma EventAdminCreatesParticipant(t: Tables, c: Claims, body: CreateBody, o: Generators.Oracle, cur: Generators.Cursor)
    requires c.role == EventAdmin
    ensures var r := Create(t, Verified(c), body, o, cur);
      r.outcome.response.ok ==>
        && c.userId in t.users && t.users[c.userId].eventId.Some?
        && t.nextId in r.outcome.tables.users
        && r.outcome.tables.users[t.nextId].role == Participant
        && r.outcome.tables.users[t.nextId].eventId == t.users[c.userId].eventId
  {
    var a := Admit(t, Verified(c), body);
    AdmitEventAdmin(t, Verified(c), body);
    if a.Admitted? {
      ProvisionCreates(t, a, body.username, body.password, o, cur);
    }
  }

  /** A successful request adds a user whose name nobody had before. */
  lemma CreateUnique(t: Tables, s: Session, body: CreateBody, o: Generators.Oracle, cur: Generators.Cursor)
    ensures var r := Create(t, s, body, o, cur);
      r.outcome.response.ok ==>
        && !UsernameTaken(t, body.username)
        && t.nextId in r.outcome.tables.users
        && r.outcome.tables.users[t.nextId].username == body.username
  {
    var a := Admit(t, s, body);
    if a.Admitted? {
      ProvisionCreates(t, a, body.username, body.password, o, cur);
    }
  }

  /** The list never shows a SUPER_ADMIN and is ordered newest first. */
  lemma ListSpec(t: Tables, s: Session)
    requires s.Verified?
    ensures var (resp, rows) := List(t, s);
      && resp.ok
      && (forall i :: 0 <= i < |rows| ==> rows[i].role != SuperAdmin)
      && (forall i, j :: 0 <= i < j < |rows| ==> rows[i].id > rows[j].id)
  {
    var ids := ListedIds(t);
    assert forall i :: 0 <= i < |ids| ==> ids[i] in ids;
  }

  /** With ids below the counter, every user who is not a SUPER_ADMIN is listed. */
  lemma ListComplete(t: Tables, s: Session, k: Id)
    requires s.Verified? && IdsFresh(t)
    requires k in t.users && t.users[k].role != SuperAdmin
    ensures exists i :: 0 <= i < |List(t, s).1| && List(t, s).1[i] == ListRow(t, k)
  {
    var ids := ListedIds(t);
    assert k in ids;
    var i :| 0 <= i < |ids| && ids[i] == k;
    assert List(t, s).1[i] == ListRow(t, k);
  }

  // ---------------------------------------------------------------------
  // Handler
  // ---------------------------------------------------------------------

  /** The checks of `POST /api/users`; `role` and `eventId` are reassigned for an EVENT_ADMIN caller. */
  method CheckRequest(db: Store.Db, s: Session, body: CreateBody) returns (a: Admission)
    ensures a == Admit(db.Tables(), s, body)
  {
    if s.NoCookie? {
      return Refused(Fail("Unauthorized"));
    }
    if s.Invalid? || !IsAdmin(s.claims.role) {
      return Refused(Fail("Forbidden"));
    }
    var role, eventId := body.role, body.eventId;
    if s.claims.role == EventAdmin {
      if s.claims.userId !in db.users || db.users[s.claims.userId].eventId.None? {
        return Refused(Fail("Admin event context missing"));
      }
      role := Participant;
      eventId := db.users[s.claims.userId].eventId;
    }
    if body.username == "" || role == "" {
      return Refused(Fail("Username and Role are required"));
    }
    if !RoleAllowed(role, s.claims.role) {
      return Refused(Fail("Invalid role selection"));
    }
    if UsernameTaken(db.Tables(), body.username) {
      return Refused(Fail("Username already exists"));
    }
    a := Admitted(s.claims, role, eventId);
  }

  /** The transaction, rolled back when a write inside it throws. */
  method CreateTxMethod(db: Store.Db, rng: Generators.Entropy, username: string, hash: Hash, publicId: string,
                        role: string, eventId: Option<Id>) returns (userId: Option<Id>)
    modifies db, rng
    ensures var (tx, drawn) := CreateTx(old(db.Tables()), username, hash, publicId, role, eventId, rng.oracle.draw, old(rng.drawn));
      && rng.drawn == drawn && rng.bytesUsed == old(rng.bytesUsed)
      && (tx.None? ==> userId.None? && db.Tables() == old(db.Tables()))
      && (tx.Some? ==> userId == Some(tx.value.1) && db.Tables() == tx.value.0)
  {
    var start := db.Tables();
    var avatarIndex := rng.RandomAvatar();
    if eventId.Some? && eventId.value !in db.events {
      return None;
    }
    var id := db.CreateUser(User(username, hash, publicId, role, avatarIndex, eventId, false, []));
    if role == Participant && eventId.Some? {
      var teamPublicId := rng.NewPublicId(TeamPublicIds(db.Tables()));
      if teamPublicId.None? {
        db.Restore(start);
        return None;
      }
      var teamId := db.CreateTeam(Team(username, teamPublicId.value, eventId.value, Some(avatarIndex)));
      var membershipId := db.CreateMembership(id, teamId);
    }
    userId := Some(id);
  }

  /** `POST /api/users`. */
  method HandleCreate(db: Store.Db, rng: Generators.Entropy, s: Session, body: CreateBody)
    returns (resp: Response, credentials: Option<Credentials>)
    modifies db, rng
    ensures Created(Outcome(db.Tables(), resp), credentials, rng.At())
         == Create(old(db.Tables()), s, body, rng.oracle, old(rng.At()))
  {
    var a := CheckRequest(db, s, body);
    if a.Refused? {
      return a.response, None;
    }
    var password := body.password;
    if password == "" {
      password := rng.NewPassword(12);
    }
    var publicId := rng.NewPublicId(UserPublicIds(db.Tables()));
    if publicId.None? {
      return ServerError, None;
    }
    var userId := CreateTxMethod(db, rng, body.username, Hashed(password), publicId.value, a.role, a.eventId);
    if userId.None? {
      return ServerError, None;
    }
    db.Log(CreateLog(a.claims, userId.value, body.username, a.role, a.eventId));
    resp := Done("User created successfully");
    credentials := Some(Credentials(body.username, password, publicId.value));
  }
}
