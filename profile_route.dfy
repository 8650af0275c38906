/**
 * `PATCH /api/user/profile`: the caller changes their username, password or
 * avatar, and may mark an event's welcome screen as seen.
 *
 * The username must not match another user's name when case is ignored. The
 * user-row changes are collected in `updateData`. The welcome flag is written
 * to the caller's participation row in that event, never to the user row.
 * With no user-row changes the request reports "No changes provided", even
 * when the welcome flag was written. Otherwise the row is updated and the
 * names of the changed fields are logged.
 */
module ProfileRoute {
  import opened Wrappers
  import opened Json
  import opened Schema
  import Store
  import Text
  import AuditLogView

  const TakenMessage: string := "Username already taken"
  const NoChangesMessage: string := "No changes provided"
  const UpdatedMessage: string := "Profile updated successfully"

  /**
   * The body's fields; `None` is an absent field (`undefined`). A falsy
   * `eventId` counts as absent.
   */
  datatype ProfileBody = ProfileBody(
    username: Option<string>,
    password: Option<string>,
    avatarIndex: Option<int>,
    hasSeenWelcome: Option<bool>,
    eventId: Option<Id>)

  /** The `updateData` object: the user-row fields set, in the order the handler sets them. */
  datatype UpdateData = UpdateData(username: Option<string>, passwordHash: Option<Hash>, avatarIndex: Option<int>)

  const NoData: UpdateData := UpdateData(None, None, None)

  /** A truthy string field. */
  predicate Given(v: Option<string>)
  {
    v.Some? && v.value != ""
  }

  /** Another user has this username when case is ignored (`mode: 'insensitive'`, `NOT: { id }`). */
  predicate TakenByOther(t: Tables, name: string, self: Id)
  {
    exists k :: k in t.users && k != self && Text.Lower(t.users[k].username) == Text.Lower(name)
  }

  /** The fields the body asks to change on the user row. */
  function Collect(body: ProfileBody): (d: UpdateData)
    ensures d.username.Some? <==> Given(body.username)
    ensures d.passwordHash.Some? <==> Given(body.password)
    ensures d.avatarIndex == body.avatarIndex
  {
    UpdateData(if Given(body.username) then body.username else None,
               if Given(body.password) then Some(Hashed(body.password.value)) else None,
               body.avatarIndex)
  }

  /** `Object.keys(updateData)`. */
  function Keys(d: UpdateData): (r: seq<string>)
    ensures r == [] <==> d == NoData
    ensures "username" in r <==> d.username.Some?
    ensures "passwordHash" in r <==> d.passwordHash.Some?
    ensures "avatarIndex" in r <==> d.avatarIndex.Some?
    ensures forall i :: 0 <= i < |r| ==> r[i] in {"username", "passwordHash", "avatarIndex"}
    ensures forall i, j :: 0 <= i < j < |r| ==> r[i] != r[j]
  {
    (if d.username.Some? then ["username"] else [])
    + (if d.passwordHash.Some? then ["passwordHash"] else [])
    + (if d.avatarIndex.Some? then ["avatarIndex"] else [])
  }

  /** `user.update({ data: updateData })`. */
  function ApplyData(u: User, d: UpdateData): (r: User)
    ensures r == u.(username := r.username, passwordHash := r.passwordHash, avatarIndex := r.avatarIndex)
    ensures r.username == (if d.username.Some? then d.username.value else u.username)
    ensures r.passwordHash == (if d.passwordHash.Some? then d.passwordHash.value else u.passwordHash)
    ensures r.avatarIndex == (if d.avatarIndex.Some? then d.avatarIndex.value else u.avatarIndex)
  {
    u.(username := if d.username.Some? then d.username.value else u.username,
       passwordHash := if d.passwordHash.Some? then d.passwordHash.value else u.passwordHash,
       avatarIndex := if d.avatarIndex.Some? then d.avatarIndex.value else u.avatarIndex)
  }

  /** The USER_PROFILE_UPDATE record; the actor's name is the one the row has after the update. */
  function ProfileLog(c: Claims, newName: string, fields: seq<string>): LogRecord
  {
    LogRecord("USER_PROFILE_UPDATE", JObj([("updatedFields", StrArray(fields))]), Some(c.userId), newName, c.role, None)
  }

  /** The request asks to write the welcome flag of an event. */
  predicate Welcome(body: ProfileBody)
  {
    body.hasSeenWelcome.Some? && body.eventId.Some?
  }

  /**
   * The writes after the username check. The participation row is updated
   * first and on its own, so it stays updated when a later step fails. A
   * missing participation row or user row makes Prisma's `update` throw.
   */
  function Write(t: Tables, c: Claims, body: ProfileBody): (o: Outcome)
    ensures o.tables == t.(users := o.tables.users, participations := o.tables.participations, logs := o.tables.logs)
    ensures t.logs <= o.tables.logs
    ensures o.tables.participations.Keys == t.participations.Keys
  {
    var d := Collect(body);
    if Welcome(body) && (c.userId, body.eventId.value) !in t.participations then Outcome(t, ServerError)
    else
      var t1 := if Welcome(body) then t.(participations := t.participations[(c.userId, body.eventId.value) := body.hasSeenWelcome.value]) else t;
      if d == NoData then Outcome(t1, Fail(NoChangesMessage))
      else if c.userId !in t1.users then Outcome(t1, ServerError)
      else
        var u := ApplyData(t1.users[c.userId], d);
        Outcome(AddLog(t1.(users := t1.users[c.userId := u]), ProfileLog(c, u.username, Keys(d))), Done(UpdatedMessage))
  }

  /** The whole request. */
  function Profile(t: Tables, s: Session, body: ProfileBody): Outcome
  {
    if s.NoCookie? then Outcome(t, Fail("Unauthorized"))
    else if s.Invalid? then Outcome(t, Fail("Forbidden"))
    else if Given(body.username) && TakenByOther(t, body.username.value, s.claims.userId) then Outcome(t, Fail(TakenMessage))
    else Write(t, s.claims, body)
  }

  // ---------------------------------------------------------------------
  // Properties
  // ---------------------------------------------------------------------

  /**
   * A signed-in caller's new username is refused exactly when another user
   * holds it ignoring case. The caller's own name in another case is allowed.
   * A refusal writes nothing.
   */
  lemma TakenIff(t: Tables, c: Claims, body: ProfileBody)
    ensures var o := Profile(t, Verified(c), body);
            && (o.response == Fail(TakenMessage) <==> Given(body.username) && TakenByOther(t, body.username.value, c.userId))
            && (o.response == Fail(TakenMessage) ==> o.tables == t)
  {
  }

  /**
   * The welcome flag never reaches a user row: no user's `hasSeenWelcome`
   * changes, and no user row appears or disappears.
   */
  lemma WelcomeOnlyOnParticipation(t: Tables, s: Session, body: ProfileBody)
    ensures var o := Profile(t, s, body);
            o.tables.users.Keys == t.users.Keys
            && forall k :: k in t.users ==> o.tables.users[k].hasSeenWelcome == t.users[k].hasSeenWelcome
  {
  }

  /**
   * A request that sets the welcome flag of an event and nothing on the user
   * row writes the participation row and still reports "No changes provided".
   * A request with no user-row changes leaves the users as they were.
   */
  lemma WelcomeOnlyRequest(t: Tables, c: Claims, body: ProfileBody)
    requires !Given(body.username) && !Given(body.password) && body.avatarIndex.None?
    ensures var o := Profile(t, Verified(c), body);
            && o.tables.users == t.users
            && o.tables.logs == t.logs
            && (Welcome(body) && (c.userId, body.eventId.value) in t.participations ==>
                  o == Outcome(t.(participations := t.participations[(c.userId, body.eventId.value) := body.hasSeenWelcome.value]),
                               Fail(NoChangesMessage)))
            && (!Welcome(body) ==> o == Outcome(t, Fail(NoChangesMessage)))
  {
  }

  /**
   * A successful request changes the caller's row in exactly the requested
   * fields. The username is the requested one, the hash is that of the new
   * password, and any given avatar index is stored as it is, 0 included, with
   * no range check. One log row lists the changed fields in the order they
   * were set.
   */
  lemma ProfileSuccess(t: Tables, s: Session, body: ProfileBody)
    requires Profile(t, s, body).response.ok
    ensures var o := Profile(t, s, body);
            var c := s.claims;
            var d := Collect(body);
            && s.Verified? && c.userId in t.users && d != NoData
            && (Given(body.username) ==> !TakenByOther(t, body.username.value, c.userId))
            && o.tables.users == t.users[c.userId := ApplyData(t.users[c.userId], d)]
            && (body.avatarIndex.Some? ==> o.tables.users[c.userId].avatarIndex == body.avatarIndex.value)
            && (Given(body.password) ==> o.tables.users[c.userId].passwordHash == Hashed(body.password.value))
            && (Given(body.username) ==> o.tables.users[c.userId].username == body.username.value)
            && o.tables.logs == t.logs + [ProfileLog(c, o.tables.users[c.userId].username, Keys(d))]
  {
  }

  /**
   * The logged record renders on the audit-log page as "Updated " and the
   * changed fields, with avatarIndex shown as "profile avatar".
   */
  lemma ProfileLogRenders(c: Claims, newName: string, d: UpdateData, raw: string)
    requires d != NoData
    ensures var r := ProfileLog(c, newName, Keys(d));
            AuditLogView.RenderLogDetails(r.action, raw, Some(r.details))
              == "Updated " + AuditLogView.UserLabelsText(Keys(d)) + "."
  {
    var r := ProfileLog(c, newName, Keys(d));
    AuditLogView.RenderUpdates(raw, r.details);
    AuditLogView.ProfileUpdateSentence(raw, Keys(d));
  }

  /** No two users share a username ignoring case. */
  predicate NamesUniqueIgnoringCase(t: Tables)
  {
    forall a, b :: a in t.users && b in t.users && Text.Lower(t.users[a].username) == Text.Lower(t.users[b].username) ==> a == b
  }

  /** The profile update keeps usernames distinct when case is ignored. */
  lemma ProfileKeepsNamesUnique(t: Tables, s: Session, body: ProfileBody)
    requires NamesUniqueIgnoringCase(t)
    ensures NamesUniqueIgnoringCase(Profile(t, s, body).tables)
  {
    if Profile(t, s, body).response.ok {
      ProfileSuccess(t, s, body);
    } else {
      WelcomeOnlyOnParticipation(t, s, body);
    }
  }

  // ---------------------------------------------------------------------
  // Handler
  // ---------------------------------------------------------------------

  /** `PATCH` against the database, filling `updateData` field by field. */
  method HandleProfile(db: Store.Db, s: Session, body: ProfileBody) returns (resp: Response)
    modifies db
    ensures Outcome(db.Tables(), resp) == Profile(old(db.Tables()), s, body)
  {
    if s.NoCookie? {
      return Fail("Unauthorized");
    }
    if s.Invalid? {
      return Fail("Forbidden");
    }
    var c := s.claims;
    var data := NoData;
    if Given(body.username) {
      if TakenByOther(db.Tables(), body.username.value, c.userId) {
        return Fail(TakenMessage);
      }
      data := data.(username := body.username);
    }
    if Given(body.password) {
      data := data.(passwordHash := Some(Hashed(body.password.value)));
    }
    if body.avatarIndex.Some? {
      data := data.(avatarIndex := body.avatarIndex);
    }
    if Welcome(body) {
      if (c.userId, body.eventId.value) !in db.participations {
        return ServerError;
      }
      db.SetParticipation(c.userId, body.eventId.value, body.hasSeenWelcome.value);
    }
    if data == NoData {
      return Fail(NoChangesMessage);
    }
    if c.userId !in db.users {
      return ServerError;
    }
    var u := ApplyData(db.users[c.userId], data);
    db.UpdateUser(c.userId, u);
    db.Log(ProfileLog(c, u.username, Keys(data)));
    resp := Done(UpdatedMessage);
  }
}
