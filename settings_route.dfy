/**
 * `PATCH /api/user/settings`: the caller renames themselves and/or changes
 * their password. The handler fills an `updates` record one field at a time.
 * A rename is logged as soon as it is accepted. The password change needs the
 * current password. A request with nothing to change is refused, and the
 * updates are written in one update of the caller's own row.
 */
module SettingsRoute {
  import opened Wrappers
  import opened Json
  import opened Schema
  import Store

  const TakenMessage: string := "Username already taken"
  const CurrentRequiredMessage: string := "Current password required"
  const WrongPasswordMessage: string := "Incorrect current password"
  const NoChangesMessage: string := "No changes provided"
  const UpdatedMessage: string := "Settings updated successfully"

  /** The body's fields; `None` is an absent or null field. */
  datatype SettingsBody = SettingsBody(username: Option<string>, currentPassword: Option<string>, newPassword: Option<string>)

  /** The `updates` object: the keys set so far. */
  datatype Updates = Updates(username: Option<string>, passwordHash: Option<Hash>)

  const NoUpdates: Updates := Updates(None, None)

  /** A truthy string field. */
  predicate Given(v: Option<string>)
  {
    v.Some? && v.value != ""
  }

  /** `user.update({ data: updates })`: the keys present replace the row's fields. */
  function Apply(u: User, updates: Updates): (r: User)
    ensures r.username == (if updates.username.Some? then updates.username.value else u.username)
    ensures r.passwordHash == (if updates.passwordHash.Some? then updates.passwordHash.value else u.passwordHash)
    ensures r == u.(username := r.username, passwordHash := r.passwordHash)
  {
    u.(username := if updates.username.Some? then updates.username.value else u.username,
       passwordHash := if updates.passwordHash.Some? then updates.passwordHash.value else u.passwordHash)
  }

  /** `currentUser.events[0]?.id`: the event a log row of the caller is filed under. */
  function FirstEvent(u: User): Option<Id>
  {
    if u.events == [] then None else Some(u.events[0])
  }

  function RenameLog(id: Id, u: User, newName: string): LogRecord
  {
    LogRecord("USER_RENAME", JObj([("oldUsername", JStr(u.username)), ("newUsername", JStr(newName))]),
              Some(id), u.username, u.role, FirstEvent(u))
  }

  function PasswordLog(id: Id, u: User): LogRecord
  {
    LogRecord("USER_PASSWORD_CHANGE", JObj([("message", JStr("User changed their own password"))]),
              Some(id), u.username, u.role, FirstEvent(u))
  }

  /** The request asks for a new username different from the current one. */
  predicate Renaming(u: User, body: SettingsBody)
  {
    Given(body.username) && body.username.value != u.username
  }

  /**
   * The caller's own row after the checks. The log rows written on the way
   * stay even when a later check refuses the request.
   */
  function Change(t: Tables, id: Id, body: SettingsBody): (o: Outcome)
    requires id in t.users
    ensures o.tables == t.(users := o.tables.users, logs := o.tables.logs)
    ensures id in o.tables.users && o.tables.users == t.users[id := o.tables.users[id]]
    ensures t.logs <= o.tables.logs
  {
    var u := t.users[id];
    var renaming := Renaming(u, body);
    if renaming && UsernameTaken(t, body.username.value) then Outcome(t, Fail(TakenMessage))
    else
      var updates1 := if renaming then NoUpdates.(username := body.username) else NoUpdates;
      var t1 := if renaming then AddLog(t, RenameLog(id, u, body.username.value)) else t;
      if Given(body.newPassword) && !Given(body.currentPassword) then Outcome(t1, Fail(CurrentRequiredMessage))
      else if Given(body.newPassword) && u.passwordHash != Hashed(body.currentPassword.value) then
        Outcome(t1, Fail(WrongPasswordMessage))
      else
        var updates := if Given(body.newPassword) then updates1.(passwordHash := Some(Hashed(body.newPassword.value))) else updates1;
        var t2 := if Given(body.newPassword) then AddLog(t1, PasswordLog(id, u)) else t1;
        if updates == NoUpdates then Outcome(t2, Fail(NoChangesMessage))
        else Outcome(t2.(users := t2.users[id := Apply(u, updates)]), Done(UpdatedMessage))
  }

  /** The whole request. */
  function Settings(t: Tables, s: Session, body: SettingsBody): (o: Outcome)
    ensures o.response.ok ==> s.Verified? && s.claims.userId in t.users
  {
    if s.NoCookie? then Outcome(t, Fail("Unauthorized"))
    else if s.Invalid? then Outcome(t, Fail("Invalid session"))
    else if s.claims.userId !in t.users then Outcome(t, Fail("User not found"))
    else Change(t, s.claims.userId, body)
  }

  // ---------------------------------------------------------------------
  // Properties
  // ---------------------------------------------------------------------

  /** Only the caller's own row and the log can change, whatever the outcome. */
  lemma SettingsFrame(t: Tables, s: Session, body: SettingsBody)
    ensures var o := Settings(t, s, body);
            && o.tables == t.(users := o.tables.users, logs := o.tables.logs)
            && o.tables.users.Keys == t.users.Keys
            && (forall k :: k in t.users && (!s.Verified? || k != s.claims.userId) ==> o.tables.users[k] == t.users[k])
            && t.logs <= o.tables.logs
  {
  }

  /** Asking for the name one already has is no change: alone, it is refused as "No changes provided". */
  lemma SameUsernameIsNoChange(t: Tables, c: Claims, body: SettingsBody)
    requires c.userId in t.users && body.username == Some(t.users[c.userId].username)
    requires !Given(body.newPassword)
    ensures Settings(t, Verified(c), body) == Outcome(t, Fail(NoChangesMessage))
  {
  }

  /** A new username that another user holds is refused before anything is written. */
  lemma TakenUsernameRefused(t: Tables, c: Claims, body: SettingsBody)
    requires c.userId in t.users && Renaming(t.users[c.userId], body) && UsernameTaken(t, body.username.value)
    ensures Settings(t, Verified(c), body) == Outcome(t, Fail(TakenMessage))
  {
  }

  /**
   * A new password without the current one, or with a wrong one, is refused
   * and the user row stays as it was, including the username part of the
   * request. The rename log row is already written by then.
   */
  lemma PasswordChecksRefuse(t: Tables, c: Claims, body: SettingsBody)
    requires c.userId in t.users && Given(body.newPassword)
    requires !Given(body.currentPassword) || t.users[c.userId].passwordHash != Hashed(body.currentPassword.value)
    ensures var o := Settings(t, Verified(c), body);
            var u := t.users[c.userId];
            && !o.response.ok
            && o.response.message == (if Renaming(u, body) && UsernameTaken(t, body.username.value) then TakenMessage
                                      else if !Given(body.currentPassword) then CurrentRequiredMessage
                                      else WrongPasswordMessage)
            && o.tables.users == t.users
            && o.tables.logs == (if Renaming(u, body) && !UsernameTaken(t, body.username.value)
                                 then t.logs + [RenameLog(c.userId, u, body.username.value)]
                                 else t.logs)
  {
  }

  /**
   * A successful request changes the caller's row and nothing else in it: the
   * username becomes the requested one when it differs, and the stored hash
   * becomes that of the new password when one is given. At least one of the two
   * happens. One log row is written per change, rename first.
   */
  lemma SettingsSuccess(t: Tables, s: Session, body: SettingsBody)
    requires Settings(t, s, body).response.ok
    ensures var o := Settings(t, s, body);
            var id := s.claims.userId;
            var u := t.users[id];
            var renamed := Renaming(u, body);
            var changed := Given(body.newPassword);
            && (renamed || changed)
            && (renamed ==> !UsernameTaken(t, body.username.value))
            && (changed ==> Given(body.currentPassword) && u.passwordHash == Hashed(body.currentPassword.value))
            && o.tables.users == t.users[id := o.tables.users[id]]
            && o.tables.users[id] == u.(username := if renamed then body.username.value else u.username,
                                        passwordHash := if changed then Hashed(body.newPassword.value) else u.passwordHash)
            && o.tables.logs == t.logs + (if renamed then [RenameLog(id, u, body.username.value)] else [])
                                       + (if changed then [PasswordLog(id, u)] else [])
  {
  }

  /** No request can give two users the same username. */
  lemma SettingsKeepsUsernamesUnique(t: Tables, s: Session, body: SettingsBody)
    requires UsernamesUnique(t)
    ensures UsernamesUnique(Settings(t, s, body).tables)
  {
    if Settings(t, s, body).response.ok {
      SettingsSuccess(t, s, body);
    }
  }

  // ---------------------------------------------------------------------
  // Handler
  // ---------------------------------------------------------------------

  /** `PATCH` against the database, filling `updates` field by field. */
  method HandleSettings(db: Store.Db, s: Session, body: SettingsBody) returns (resp: Response)
    modifies db
    ensures Outcome(db.Tables(), resp) == Settings(old(db.Tables()), s, body)
  {
    if s.NoCookie? {
      return Fail("Unauthorized");
    }
    if s.Invalid? {
      return Fail("Invalid session");
    }
    var id := s.claims.userId;
    if id !in db.users {
      return Fail("User not found");
    }
    var u := db.users[id];
    var updates := NoUpdates;
    if Renaming(u, body) {
      if UsernameTaken(db.Tables(), body.username.value) {
        return Fail(TakenMessage);
      }
      updates := updates.(username := body.username);
      db.Log(RenameLog(id, u, body.username.value));
    }
    if Given(body.newPassword) {
      if !Given(body.currentPassword) {
        return Fail(CurrentRequiredMessage);
      }
      if u.passwordHash != Hashed(body.currentPassword.value) {
        return Fail(WrongPasswordMessage);
      }
      updates := updates.(passwordHash := Some(Hashed(body.newPassword.value)));
      db.Log(PasswordLog(id, u));
    }
    if updates == NoUpdates {
      return Fail(NoChangesMessage);
    }
    db.UpdateUser(id, Apply(u, updates));
    resp := Done(UpdatedMessage);
  }
}
