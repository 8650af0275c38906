/**
 * app/api/users/bulk/route.ts: the admin's bulk actions on users. `delete`
 * removes the listed users, `toggle_welcome` sets their welcome flag, and
 * `create` adds one participant per non-blank username, each with a team and
 * membership per target event, sorting every name into the created or the
 * failed list.
 */
module UsersBulkRoute {
  import opened Wrappers
  import opened Json
  import opened Schema
  import Generators
  import Store
  import Text
  import UsersRoute
  import Lists

  /**
   * The request body. A missing or non-array `userIds`, `users` or `eventIds`
   * is `None`; `users` holds each entry's `username`, "" where it is falsy;
   * `value` is `None` when absent, which leaves the flag unchanged.
   */
  datatype BulkBody = BulkBody(
    action: string,
    userIds: Option<seq<Id>>,
    users: Option<seq<string>>,
    value: Option<bool>,
    eventId: Option<Id>,
    eventIds: Option<seq<Id>>,
    password: string)

  datatype CreatedUser = CreatedUser(username: string, password: string)

  datatype FailedUser = FailedUser(username: string, reason: string)

  /** The create loop's state: the tables, both result lists, and the random streams' position. */
  datatype Batch = Batch(tables: Tables, created: seq<CreatedUser>, failed: seq<FailedUser>, used: Generators.Cursor)

  /** A bulk request's outcome, the two lists `create` returns, and the random streams' position. */
  datatype BulkResult = BulkResult(outcome: Outcome, created: seq<CreatedUser>, failed: seq<FailedUser>, used: Generators.Cursor)

  /** How a per-user transaction ended. */
  datatype TxResult = Committed(tables: Tables) | RolledBack(reason: string)

  const DuplicateReason: string := "Duplicate username"

  /** Stands in for the database's error text when a target event does not exist. */
  const MissingEventReason: string := "Event not found"

  // ---------------------------------------------------------------------
  // delete
  // ---------------------------------------------------------------------

  /** The ids a `{ in: ids }` filter matches. */
  function IdSet(ids: seq<Id>): set<Id>
  {
    set k | k in ids
  }

  /** Some listed id belongs to a SUPER_ADMIN. */
  predicate HitsSuperAdmin(t: Tables, ids: seq<Id>)
  {
    exists i :: 0 <= i < |ids| && ids[i] in t.users && t.users[ids[i]].role == SuperAdmin
  }

  function DeleteLog(c: Claims, ids: seq<Id>): LogRecord
  {
    LogRecord("USER_BULK_DELETE",
              JObj([("count", JNum(|ids|)), ("userIds", JArr(seq(|ids|, i requires 0 <= i < |ids| => JNum(ids[i]))))]),
              Some(c.userId), c.username, c.role, None)
  }

  /** The `delete` action: all listed users or none. */
  function Delete(t: Tables, c: Claims, userIds: Option<seq<Id>>): Outcome
  {
    if userIds.None? || userIds.value == [] then Outcome(t, Fail("No users selected"))
    else if c.role != SuperAdmin && HitsSuperAdmin(t, userIds.value) then Outcome(t, Fail("Cannot delete Super Admin"))
    else
      var ids := userIds.value;
      Outcome(AddLog(DeleteUsers(t, IdSet(ids)), DeleteLog(c, ids)),
              Done("Deleted " + Text.NatToString(|ids|) + " users"))
  }

  // ---------------------------------------------------------------------
  // toggle_welcome
  // ---------------------------------------------------------------------

  /** The `toggle_welcome` action; an empty list is accepted. */
  function ToggleWelcome(t: Tables, userIds: Option<seq<Id>>, value: Option<bool>): Outcome
  {
    if userIds.None? then Outcome(t, Fail("No users selected"))
    else
      var ids := userIds.value;
      Outcome(if value.Some? then SetWelcome(t, IdSet(ids), value.value) else t,
              Done("Updated " + Text.NatToString(|ids|) + " users"))
  }

  // ---------------------------------------------------------------------
  // create
  // ---------------------------------------------------------------------

  /**
   * The events every created user joins: an EVENT_ADMIN's first legacy event
   * (`None` when the admin has none), otherwise `eventIds`, then `eventId`.
   */
  function Targets(t: Tables, c: Claims, body: BulkBody): Option<seq<Id>>
  {
    if c.role == EventAdmin then
      if c.userId !in t.users || t.users[c.userId].events == [] then None
      else Some([t.users[c.userId].events[0]])
    else if body.eventIds.Some? then Some(body.eventIds.value)
    else if body.eventId.Some? then Some([body.eventId.value])
    else Some([])
  }

  /** The inner loop: one team and membership per target event, stopping at the first failure. */
  function TeamsFor(t: Tables, userId: Id, username: string, avatar: nat, targets: seq<Id>,
                    draw: nat -> Generators.Unit, drawn: nat): (Option<Tables>, nat)
    decreases |targets|
  {
    if targets == [] then (Some(t), drawn)
    else
      var (t1, next) := UsersRoute.ParticipantTeam(t, userId, username, avatar, targets[0], draw, drawn);
      if t1.None? then (None, next)
      else TeamsFor(t1.value, userId, username, avatar, targets[1..], draw, next)
  }

  /**
   * One user's transaction: the participant row linked to the target events
   * (which must all exist), then the teams.
   */
  function BulkTx(t: Tables, username: string, hash: Hash, publicId: string, avatar: nat, targets: seq<Id>,
                  draw: nat -> Generators.Unit, drawn: nat): (TxResult, nat)
  {
    if exists i :: 0 <= i < |targets| && targets[i] !in t.events then (RolledBack(MissingEventReason), drawn)
    else
      var (t1, userId) := AddUser(t, User(username, hash, publicId, Participant, avatar, None, false, targets));
      var (t2, next) := TeamsFor(t1, userId, username, avatar, targets, draw, drawn);
      if t2.None? then (RolledBack(Generators.ExhaustedMessage("team")), next)
      else (Committed(t2.value), next)
  }

  /** How the work after the duplicate check ended for one user. */
  datatype Attempt = Failed(reason: string, used: Generators.Cursor) | Succeeded(tables: Tables, used: Generators.Cursor)

  /**
   * The public ID and avatar draws and the transaction for a user whose name
   * is free; any throw is caught and becomes a failure reason.
   */
  function TryCreate(t: Tables, username: string, password: string, c: Generators.Cursor, targets: seq<Id>,
                     o: Generators.Oracle): Attempt
  {
    var (publicId, drawn) := Generators.PickPublicId(UserPublicIds(t), o.draw, c.drawn, 0);
    if publicId.None? then Failed(Generators.ExhaustedMessage("user"), c.(drawn := drawn))
    else
      var avatar := Generators.AvatarIndex(o.draw(drawn));
      var (tx, next) := BulkTx(t, username, Hashed(password), publicId.value, avatar, targets, o.draw, drawn + 1);
      match tx
      case RolledBack(reason) => Failed(reason, c.(drawn := next))
      case Committed(t1) => Succeeded(t1, c.(drawn := next))
  }

  /** One iteration of the loop over `users`. */
  function CreateOne(b: Batch, username: string, targets: seq<Id>, defaultPassword: string, o: Generators.Oracle): Batch
  {
    if username == "" then b
    else if UsernameTaken(b.tables, username) then b.(failed := b.failed + [FailedUser(username, DuplicateReason)])
    else
      var (password, c1) := UsersRoute.ChoosePassword(defaultPassword, o, b.used);
      match TryCreate(b.tables, username, password, c1, targets, o)
      case Failed(reason, used) => b.(failed := b.failed + [FailedUser(username, reason)], used := used)
      case Succeeded(t1, used) => b.(tables := t1, created := b.created + [CreatedUser(username, password)], used := used)
  }

  /** The loop over `users`, from batch `b` on. */
  function CreateAll(b: Batch, usernames: seq<string>, targets: seq<Id>, defaultPassword: string, o: Generators.Oracle): Batch
    decreases |usernames|
  {
    if usernames == [] then b
    else CreateAll(CreateOne(b, usernames[0], targets, defaultPassword, o), usernames[1..], targets, defaultPassword, o)
  }

  function CreateLog(c: Claims, created: nat, failed: nat): LogRecord
  {
    LogRecord("USER_BULK_CREATE", JObj([("success", JNum(created)), ("failed", JNum(failed))]),
              Some(c.userId), c.username, c.role, None)
  }

  /** The `create` action. */
  function BulkCreate(t: Tables, c: Claims, body: BulkBody, o: Generators.Oracle, cur: Generators.Cursor): BulkResult
  {
    if body.users.None? || body.users.value == [] then BulkResult(Outcome(t, Fail("No user data provided")), [], [], cur)
    else
      match Targets(t, c, body)
      case None => BulkResult(Outcome(t, Fail("Admin has no events")), [], [], cur)
      case Some(targets) =>
        var b := CreateAll(Batch(t, [], [], cur), body.users.value, targets, body.password, o);
        BulkResult(Outcome(AddLog(b.tables, CreateLog(c, |b.created|, |b.failed|)),
                           Done("Created " + Text.NatToString(|b.created|) + " users. Failed: " + Text.NatToString(|b.failed|))),
                   b.created, b.failed, b.used)
  }

  /** `POST /api/users/bulk`. A rejected request changes no table. */
  function Bulk(t: Tables, s: Session, body: BulkBody, o: Generators.Oracle, cur: Generators.Cursor): (r: BulkResult)
    ensures !r.outcome.response.ok ==> r.outcome.tables == t && r.created == [] && r.failed == []
  {
    match s
    case NoCookie => BulkResult(Outcome(t, Fail("Unauthorized")), [], [], cur)
    case Invalid => BulkResult(Outcome(t, Fail("Forbidden")), [], [], cur)
    case Verified(c) =>
      if !IsAdmin(c.role) then BulkResult(Outcome(t, Fail("Forbidden")), [], [], cur)
      else if body.action == "delete" then BulkResult(Delete(t, c, body.userIds), [], [], cur)
      else if body.action == "toggle_welcome" then BulkResult(ToggleWelcome(t, body.userIds, body.value), [], [], cur)
      else if body.action == "create" then BulkCreate(t, c, body, o, cur)
      else BulkResult(Outcome(t, Fail("Invalid action")), [], [], cur)
  }

  // ---------------------------------------------------------------------
  // Properties
  // ---------------------------------------------------------------------

  /** Callers other than SUPER_ADMIN and EVENT_ADMIN are turned away and nothing changes. */
  lemma BulkNeedsAdmin(t: Tables, c: Claims, body: BulkBody, o: Generators.Oracle, cur: Generators.Cursor)
    requires !IsAdmin(c.role)
    ensures Bulk(t, Verified(c), body, o, cur) == BulkResult(Outcome(t, Fail("Forbidden")), [], [], cur)
  {
  }

  /** A missing or empty id list deletes nothing. */
  lemma DeleteNeedsIds(t: Tables, c: Claims, userIds: Option<seq<Id>>)
    requires userIds.None? || userIds.value == []
    ensures Delete(t, c, userIds) == Outcome(t, Fail("No users selected"))
  {
  }

  /** If any listed user is a SUPER_ADMIN and the caller is not, nobody is deleted. */
  lemma DeleteProtectsSuperAdmin(t: Tables, c: Claims, ids: seq<Id>, k: nat)
    requires ids != [] && c.role != SuperAdmin
    requires k < |ids| && ids[k] in t.users && t.users[ids[k]].role == SuperAdmin
    ensures Delete(t, c, Some(ids)) == Outcome(t, Fail("Cannot delete Super Admin"))
  {
  }

  /**
   * An accepted delete removes exactly the listed users with their memberships
   * and participations, and logs the list.
   */
  lemma DeleteRemoves(t: Tables, c: Claims, ids: seq<Id>)
    ensures var o := Delete(t, c, Some(ids));
      o.response.ok ==>
        && ids != []
        && (c.role != SuperAdmin ==> forall i :: 0 <= i < |ids| && ids[i] in t.users ==> t.users[ids[i]].role != SuperAdmin)
        && (forall k :: k in o.tables.users <==> k in t.users && k !in ids)
        && (forall m :: m in o.tables.members <==> m in t.members && m.userId !in ids)
        && (forall p :: p in o.tables.participations <==> p in t.participations && p.0 !in ids)
        && o.tables.teams == t.teams
        && o.tables.logs == t.logs + [DeleteLog(c, ids)]
  {
  }

  /** `toggle_welcome` sets the flag of exactly the listed users and changes nothing else. */
  lemma ToggleSetsExactly(t: Tables, ids: seq<Id>, value: bool)
    ensures var o := ToggleWelcome(t, Some(ids), Some(value));
      && o.response.ok
      && o.tables.users.Keys == t.users.Keys
      && (forall k :: k in t.users ==>
            o.tables.users[k] == t.users[k].(hasSeenWelcome := if k in ids then value else t.users[k].hasSeenWelcome))
      && o.tables == t.(users := o.tables.users)
  {
  }

  /** Without a `value` the flag is left as it was. */
  lemma ToggleWithoutValue(t: Tables, ids: seq<Id>)
    ensures ToggleWelcome(t, Some(ids), None) == Outcome(t, Done("Updated " + Text.NatToString(|ids|) + " users"))
  {
  }

  /** An EVENT_ADMIN's users join only the admin's first event; an admin with none is refused. */
  lemma EventAdminTargets(t: Tables, c: Claims, body: BulkBody)
    requires c.role == EventAdmin
    ensures Targets(t, c, body).None? <==> c.userId !in t.users || t.users[c.userId].events == []
    ensures Targets(t, c, body).Some? ==> Targets(t, c, body).value == [t.users[c.userId].events[0]]
  {
  }

  /** A name already taken, by an earlier user or one created earlier in the batch, fails as a duplicate. */
  lemma DuplicateFails(b: Batch, username: string, targets: seq<Id>, pw: string, o: Generators.Oracle)
    requires username != "" && UsernameTaken(b.tables, username)
    ensures CreateOne(b, username, targets, pw, o) == b.(failed := b.failed + [FailedUser(username, DuplicateReason)])
  {
  }

  /** One step of the inner loop: the counter moves by two and the rest of the tables only grow. */
  lemma StepFrame(t: Tables, userId: Id, username: string, avatar: nat, eventId: Id, draw: nat -> Generators.Unit, drawn: nat)
    ensures var (t1, _) := UsersRoute.ParticipantTeam(t, userId, username, avatar, eventId, draw, drawn);
      t1.Some? ==>
        && t1.value.users == t.users && t1.value.logs == t.logs && t1.value.events == t.events
        && t1.value.nextId == t.nextId + 2
        && t1.value.members == t.members + [Membership(t.nextId + 1, userId, t.nextId)]
  {
    UsersRoute.ParticipantTeamShape(t, userId, username, avatar, eventId, draw, drawn);
  }

  /** One step of the inner loop: the new team at the old counter, and the teams before it kept. */
  lemma StepTeams(t: Tables, userId: Id, username: string, avatar: nat, eventId: Id, draw: nat -> Generators.Unit, drawn: nat)
    ensures var (t1, _) := UsersRoute.ParticipantTeam(t, userId, username, avatar, eventId, draw, drawn);
      t1.Some? ==>
        && t1.value.nextId == t.nextId + 2
        && t.nextId in t1.value.teams
        && t1.value.teams[t.nextId].name == username
        && t1.value.teams[t.nextId].eventId == eventId
        && t1.value.teams[t.nextId].iconIndex == Some(avatar)
        && (forall k :: k in t.teams ==> k in t1.value.teams)
        && (forall k :: k in t.teams && k < t.nextId ==> t1.value.teams[k] == t.teams[k])
  {
    UsersRoute.ParticipantTeamShape(t, userId, username, avatar, eventId, draw, drawn);
  }

  /** The inner loop adds rows only: users, events and logs stay, and earlier memberships are kept. */
  lemma {:induction false} TeamsForFrame(t: Tables, userId: Id, username: string, avatar: nat, targets: seq<Id>,
                                         draw: nat -> Generators.Unit, drawn: nat)
    ensures var (r, _) := TeamsFor(t, userId, username, avatar, targets, draw, drawn);
      r.Some? ==>
        && r.value.users == t.users && r.value.logs == t.logs && r.value.events == t.events
        && r.value.nextId == t.nextId + 2 * |targets|
        && |r.value.members| == |t.members| + |targets|
        && r.value.members[..|t.members|] == t.members
    decreases |targets|
  {
    if targets != [] {
      var (t1, next) := UsersRoute.ParticipantTeam(t, userId, username, avatar, targets[0], draw, drawn);
      StepFrame(t, userId, username, avatar, targets[0], draw, drawn);
      if t1.Some? {
        TeamsForFrame(t1.value, userId, username, avatar, targets[1..], draw, next);
        var r := TeamsFor(t1.value, userId, username, avatar, targets[1..], draw, next).0;
        if r.Some? {
          assert r.value.members[..|t.members|] == r.value.members[..|t1.value.members|][..|t.members|];
        }
      }
    }
  }

  /** The inner loop keeps every earlier team, and every team below the counter unchanged. */
  lemma {:induction false} TeamsForKeeps(t: Tables, userId: Id, username: string, avatar: nat, targets: seq<Id>,
                                         draw: nat -> Generators.Unit, drawn: nat)
    ensures var (r, _) := TeamsFor(t, userId, username, avatar, targets, draw, drawn);
      r.Some? ==>
        && (forall k :: k in t.teams ==> k in r.value.teams)
        && (forall k :: k in t.teams && k < t.nextId ==> r.value.teams[k] == t.teams[k])
    decreases |targets|
  {
    if targets != [] {
      var (t1, next) := UsersRoute.ParticipantTeam(t, userId, username, avatar, targets[0], draw, drawn);
      StepTeams(t, userId, username, avatar, targets[0], draw, drawn);
      if t1.Some? {
        TeamsForKeeps(t1.value, userId, username, avatar, targets[1..], draw, next);
      }
    }
  }

  /** The inner loop's k-th membership links the user to the team created just before it, at `nextId + 2k`. */
  lemma {:induction false} TeamsForMember(t: Tables, userId: Id, username: string, avatar: nat, targets: seq<Id>,
                                          draw: nat -> Generators.Unit, drawn: nat, k: nat)
    requires k < |targets|
    ensures var (r, _) := TeamsFor(t, userId, username, avatar, targets, draw, drawn);
      r.Some? ==>
        && |t.members| + k < |r.value.members|
        && r.value.members[|t.members| + k] == Membership(t.nextId + 2 * k + 1, userId, t.nextId + 2 * k)
    decreases |targets|
  {
    var (t1, next) := UsersRoute.ParticipantTeam(t, userId, username, avatar, targets[0], draw, drawn);
    StepFrame(t, userId, username, avatar, targets[0], draw, drawn);
    if t1.Some? {
      TeamsForFrame(t1.value, userId, username, avatar, targets[1..], draw, next);
      var r := TeamsFor(t1.value, userId, username, avatar, targets[1..], draw, next).0;
      if k == 0 {
        if r.Some? {
          assert r.value.members[..|t1.value.members|][|t.members|] == Membership(t.nextId + 1, userId, t.nextId);
        }
      } else {
        TeamsForMember(t1.value, userId, username, avatar, targets[1..], draw, next, k - 1);
      }
    }
  }

  /** The inner loop's k-th team sits at `nextId + 2k`, named after the user, in the k-th event, with the user's avatar. */
  lemma {:induction false} TeamsForTeam(t: Tables, userId: Id, username: string, avatar: nat, targets: seq<Id>,
                                        draw: nat -> Generators.Unit, drawn: nat, k: nat)
    requires k < |targets|
    ensures var (r, _) := TeamsFor(t, userId, username, avatar, targets, draw, drawn);
      r.Some? ==>
        && t.nextId + 2 * k in r.value.teams
        && r.value.teams[t.nextId + 2 * k].name == username
        && r.value.teams[t.nextId + 2 * k].eventId == targets[k]
        && r.value.teams[t.nextId + 2 * k].iconIndex == Some(avatar)
    decreases |targets|
  {
    var (t1, next) := UsersRoute.ParticipantTeam(t, userId, username, avatar, targets[0], draw, drawn);
    StepTeams(t, userId, username, avatar, targets[0], draw, drawn);
    if t1.Some? {
      if k == 0 {
        TeamsForKeeps(t1.value, userId, username, avatar, targets[1..], draw, next);
      } else {
        TeamsForTeam(t1.value, userId, username, avatar, targets[1..], draw, next, k - 1);
        assert targets[1..][k - 1] == targets[k];
      }
    }
  }

  /** Each created user is a participant at the next id, linked to the target events, with the inner loop's rows. */
  lemma BulkTxShape(t: Tables, username: string, hash: Hash, publicId: string, avatar: nat, targets: seq<Id>,
                    draw: nat -> Generators.Unit, drawn: nat)
    ensures var (tx, _) := BulkTx(t, username, hash, publicId, avatar, targets, draw, drawn);
      tx.Committed? ==>
        var r := tx.tables;
        && (forall i :: 0 <= i < |targets| ==> targets[i] in t.events)
        && r.users == t.users[t.nextId := User(username, hash, publicId, Participant, avatar, None, false, targets)]
        && r.nextId == t.nextId + 1 + 2 * |targets|
        && r.logs == t.logs
        && |r.members| == |t.members| + |targets|
        && r.members[..|t.members|] == t.members
  {
    var (t1, userId) := AddUser(t, User(username, hash, publicId, Participant, avatar, None, false, targets));
    TeamsForFrame(t1, userId, username, avatar, targets, draw, drawn);
    var (tx, _) := BulkTx(t, username, hash, publicId, avatar, targets, draw, drawn);
    if tx.Committed? {
      var (t2, _) := TeamsFor(t1, userId, username, avatar, targets, draw, drawn);
      assert t2 == Some(tx.tables);
      assert t2.value.users == t1.users;
    }
  }

  /** A created user's k-th target event gets a team named after them, with their avatar, and their membership in it. */
  lemma BulkTxTeam(t: Tables, username: string, hash: Hash, publicId: string, avatar: nat, targets: seq<Id>,
                   draw: nat -> Generators.Unit, drawn: nat, k: nat)
    requires k < |targets|
    ensures var (tx, _) := BulkTx(t, username, hash, publicId, avatar, targets, draw, drawn);
      tx.Committed? ==>
        var r := tx.tables;
        && |t.members| + k < |r.members|
        && r.members[|t.members| + k] == Membership(t.nextId + 2 * k + 2, t.nextId, t.nextId + 2 * k + 1)
        && t.nextId + 2 * k + 1 in r.teams
        && r.teams[t.nextId + 2 * k + 1].name == username
        && r.teams[t.nextId + 2 * k + 1].eventId == targets[k]
        && r.teams[t.nextId + 2 * k + 1].iconIndex == Some(avatar)
  {
    var (t1, userId) := AddUser(t, User(username, hash, publicId, Participant, avatar, None, false, targets));
    TeamsForMember(t1, userId, username, avatar, targets, draw, drawn, k);
    TeamsForTeam(t1, userId, username, avatar, targets, draw, drawn, k);
    var (tx, _) := BulkTx(t, username, hash, publicId, avatar, targets, draw, drawn);
    if tx.Committed? {
      var (t2, _) := TeamsFor(t1, userId, username, avatar, targets, draw, drawn);
      assert t2 == Some(tx.tables);
    }
  }

  /** The usernames of the non-blank entries, in order. */
  function NonBlank(usernames: seq<string>): seq<string>
    decreases |usernames|
  {
    if usernames == [] then []
    else (if usernames[0] != "" then [usernames[0]] else []) + NonBlank(usernames[1..])
  }

  function CreatedName(c: CreatedUser): string { c.username }

  function FailedName(f: FailedUser): string { f.username }

  /** The names in both result lists. */
  function Names(created: seq<CreatedUser>, failed: seq<FailedUser>): multiset<string>
  {
    multiset(Lists.Map(created, CreatedName)) + multiset(Lists.Map(failed, FailedName))
  }

  lemma NamesAppend(cs: seq<CreatedUser>, fs: seq<FailedUser>, c: CreatedUser, f: FailedUser)
    ensures Names(cs + [c], fs) == Names(cs, fs) + multiset{c.username}
    ensures Names(cs, fs + [f]) == Names(cs, fs) + multiset{f.username}
  {
    assert Lists.Map(cs + [c], CreatedName) == Lists.Map(cs, CreatedName) + [c.username];
    assert Lists.Map(fs + [f], FailedName) == Lists.Map(fs, FailedName) + [f.username];
  }

  lemma CreateOneNames(b: Batch, username: string, targets: seq<Id>, pw: string, o: Generators.Oracle)
    ensures var b1 := CreateOne(b, username, targets, pw, o);
      Names(b1.created, b1.failed) == Names(b.created, b.failed) + (if username != "" then multiset{username} else multiset{})
  {
    if username != "" {
      var b1 := CreateOne(b, username, targets, pw, o);
      if UsernameTaken(b.tables, username) {
        NamesAppend(b.created, b.failed, CreatedUser(username, ""), FailedUser(username, DuplicateReason));
      } else {
        var (password, c1) := UsersRoute.ChoosePassword(pw, o, b.used);
        var a := TryCreate(b.tables, username, password, c1, targets, o);
        if a.Failed? {
          assert b1.created == b.created && b1.failed == b.failed + [FailedUser(username, a.reason)];
          NamesAppend(b.created, b.failed, CreatedUser(username, ""), FailedUser(username, a.reason));
        } else {
          assert b1.created == b.created + [CreatedUser(username, password)] && b1.failed == b.failed;
          NamesAppend(b.created, b.failed, CreatedUser(username, password), FailedUser(username, ""));
        }
      }
    }
  }

  /** Every non-blank username lands in exactly one of the two lists; blank ones in neither. */
  lemma {:induction false} CreateAllPartition(b: Batch, usernames: seq<string>, targets: seq<Id>, pw: string, o: Generators.Oracle)
    ensures var r := CreateAll(b, usernames, targets, pw, o);
      Names(r.created, r.failed) == Names(b.created, b.failed) + multiset(NonBlank(usernames))
    decreases |usernames|
  {
    if usernames != [] {
      CreateOneNames(b, usernames[0], targets, pw, o);
      CreateAllPartition(CreateOne(b, usernames[0], targets, pw, o), usernames[1..], targets, pw, o);
    }
  }

  /** User ids are below the counter, so a new user row never replaces one. */
  predicate UserIdsFresh(t: Tables)
  {
    forall k :: k in t.users ==> k < t.nextId
  }

  /**
   * What the create loop keeps: user ids stay fresh, the users of `t0` stay,
   * and the created names are distinct, were free in `t0`, and are taken now.
   */
  predicate BatchInv(t0: Tables, b: Batch)
  {
    && UserIdsFresh(b.tables)
    && (forall k :: k in t0.users ==> k in b.tables.users && b.tables.users[k] == t0.users[k])
    && (forall i :: 0 <= i < |b.created| ==> UsernameTaken(b.tables, b.created[i].username))
    && (forall i :: 0 <= i < |b.created| ==> !UsernameTaken(t0, b.created[i].username))
    && (forall i, j :: 0 <= i < j < |b.created| ==> b.created[i].username != b.created[j].username)
  }

  lemma CommittedGrows(t: Tables, username: string, hash: Hash, publicId: string, avatar: nat, targets: seq<Id>,
                       draw: nat -> Generators.Unit, drawn: nat)
    requires UserIdsFresh(t)
    ensures var (tx, _) := BulkTx(t, username, hash, publicId, avatar, targets, draw, drawn);
      tx.Committed? ==>
        && UserIdsFresh(tx.tables)
        && (forall k :: k in t.users ==> k in tx.tables.users && tx.tables.users[k] == t.users[k])
        && UsernameTaken(tx.tables, username)
  {
    BulkTxShape(t, username, hash, publicId, avatar, targets, draw, drawn);
    var (tx, _) := BulkTx(t, username, hash, publicId, avatar, targets, draw, drawn);
    if tx.Committed? {
      assert tx.tables.users[t.nextId].username == username;
    }
  }

  /** A successful attempt keeps user ids fresh and every earlier user, and the name is now taken. */
  lemma TryCreateGrows(t: Tables, username: string, password: string, c: Generators.Cursor, targets: seq<Id>, o: Generators.Oracle)
    requires UserIdsFresh(t)
    ensures var a := TryCreate(t, username, password, c, targets, o);
      a.Succeeded? ==>
        && UserIdsFresh(a.tables)
        && (forall k :: k in t.users ==> k in a.tables.users && a.tables.users[k] == t.users[k])
        && UsernameTaken(a.tables, username)
  {
    var (publicId, drawn) := Generators.PickPublicId(UserPublicIds(t), o.draw, c.drawn, 0);
    if publicId.Some? {
      CommittedGrows(t, username, Hashed(password), publicId.value, Generators.AvatarIndex(o.draw(drawn)), targets, o.draw, drawn + 1);
    }
  }

  /** Adding a user whose name was free, to tables that keep every earlier user, keeps the invariant. */
  lemma CommitKeeps(t0: Tables, b: Batch, username: string, password: string, t1: Tables, used: Generators.Cursor)
    requires BatchInv(t0, b) && !UsernameTaken(b.tables, username)
    requires UserIdsFresh(t1) && UsernameTaken(t1, username)
    requires forall k :: k in b.tables.users ==> k in t1.users && t1.users[k] == b.tables.users[k]
    ensures BatchInv(t0, Batch(t1, b.created + [CreatedUser(username, password)], b.failed, used))
  {
    var created := b.created + [CreatedUser(username, password)];
    forall i | 0 <= i < |b.created| ensures UsernameTaken(t1, b.created[i].username) {
      assert UsernameTaken(b.tables, b.created[i].username);
      var k :| k in b.tables.users && b.tables.users[k].username == b.created[i].username;
      assert k in t1.users && t1.users[k].username == b.created[i].username;
    }
    forall k | k in t0.users ensures t0.users[k].username != username {
      assert b.tables.users[k] == t0.users[k];
    }
    forall i | 0 <= i < |b.created| ensures b.created[i].username != username {
      assert UsernameTaken(b.tables, b.created[i].username);
    }
    assert created[|b.created|].username == username;
  }

  lemma CreateOneKeeps(t0: Tables, b: Batch, username: string, targets: seq<Id>, pw: string, o: Generators.Oracle)
    requires BatchInv(t0, b)
    ensures BatchInv(t0, CreateOne(b, username, targets, pw, o))
  {
    if username != "" && !UsernameTaken(b.tables, username) {
      var (password, c1) := UsersRoute.ChoosePassword(pw, o, b.used);
      var a := TryCreate(b.tables, username, password, c1, targets, o);
      TryCreateGrows(b.tables, username, password, c1, targets, o);
      if a.Succeeded? {
        CommitKeeps(t0, b, username, password, a.tables, a.used);
      }
    }
  }

  lemma {:induction false} CreateAllKeeps(t0: Tables, b: Batch, usernames: seq<string>, targets: seq<Id>, pw: string, o: Generators.Oracle)
    requires BatchInv(t0, b)
    ensures BatchInv(t0, CreateAll(b, usernames, targets, pw, o))
    decreases |usernames|
  {
    if usernames != [] {
      CreateOneKeeps(t0, b, usernames[0], targets, pw, o);
      CreateAllKeeps(t0, CreateOne(b, usernames[0], targets, pw, o), usernames[1..], targets, pw, o);
    }
  }

  /** After a bulk create, the two lists hold each non-blank username once between them. */
  lemma BulkCreatePartition(t: Tables, c: Claims, body: BulkBody, o: Generators.Oracle, cur: Generators.Cursor)
    ensures var r := BulkCreate(t, c, body, o, cur);
      r.outcome.response.ok ==>
        body.users.Some? && Names(r.created, r.failed) == multiset(NonBlank(body.users.value))
  {
    if body.users.Some? && body.users.value != [] && Targets(t, c, body).Some? {
      var b0 := Batch(t, [], [], cur);
      CreateAllPartition(b0, body.users.value, Targets(t, c, body).value, body.password, o);
      assert Names([], []) == multiset{};
    }
  }

  /**
   * After a bulk create, the created names are distinct, were free before the
   * request, and belong to users now.
   */
  lemma BulkCreateUnique(t: Tables, c: Claims, body: BulkBody, o: Generators.Oracle, cur: Generators.Cursor)
    requires UserIdsFresh(t)
    ensures var r := BulkCreate(t, c, body, o, cur);
      r.outcome.response.ok ==>
        && (forall i, j :: 0 <= i < j < |r.created| ==> r.created[i].username != r.created[j].username)
        && (forall i :: 0 <= i < |r.created| ==> !UsernameTaken(t, r.created[i].username))
        && (forall i :: 0 <= i < |r.created| ==> UsernameTaken(r.outcome.tables, r.created[i].username))
  {
    if body.users.Some? && body.users.value != [] && Targets(t, c, body).Some? {
      var b0 := Batch(t, [], [], cur);
      var targets := Targets(t, c, body).value;
      CreateAllKeeps(t, b0, body.users.value, targets, body.password, o);
      var b := CreateAll(b0, body.users.value, targets, body.password, o);
      var r := BulkCreate(t, c, body, o, cur);
      assert r.created == b.created && r.outcome.tables.users == b.tables.users;
      forall i | 0 <= i < |r.created| ensures UsernameTaken(r.outcome.tables, r.created[i].username) {
        assert UsernameTaken(b.tables, b.created[i].username);
        var k :| k in b.tables.users && b.tables.users[k].username == r.created[i].username;
        assert k in r.outcome.tables.users;
      }
    }
  }

  // ---------------------------------------------------------------------
  // Handler
  // ---------------------------------------------------------------------

  /** One user's transaction, with the nested loop over the target events. */
  method BulkTxMethod(db: Store.Db, rng: Generators.Entropy, username: string, hash: Hash, publicId: string,
                      avatar: nat, targets: seq<Id>) returns (failure: Option<string>)
    modifies db, rng
    ensures var (tx, next) := BulkTx(old(db.Tables()), username, hash, publicId, avatar, targets, rng.oracle.draw, old(rng.drawn));
      && rng.drawn == next && rng.bytesUsed == old(rng.bytesUsed)
      && (tx.RolledBack? ==> failure == Some(tx.reason) && db.Tables() == old(db.Tables()))
      && (tx.Committed? ==> failure.None? && db.Tables() == tx.tables)
  {
    var start := db.Tables();
    if exists i :: 0 <= i < |targets| && targets[i] !in db.events {
      return Some(MissingEventReason);
    }
    var userId := db.CreateUser(User(username, hash, publicId, Participant, avatar, None, false, targets));
    ghost var t1 := db.Tables();
    ghost var d0 := rng.drawn;
    var i := 0;
    while i < |targets|
      invariant 0 <= i <= |targets|
      invariant TeamsFor(t1, userId, username, avatar, targets, rng.oracle.draw, d0)
             == TeamsFor(db.Tables(), userId, username, avatar, targets[i..], rng.oracle.draw, rng.drawn)
      invariant rng.bytesUsed == old(rng.bytesUsed)
      invariant start == old(db.Tables())
      decreases |targets| - i
    {
      var teamPublicId := rng.NewPublicId(TeamPublicIds(db.Tables()));
      if teamPublicId.None? {
        db.Restore(start);
        return Some(Generators.ExhaustedMessage("team"));
      }
      var teamId := db.CreateTeam(Team(username, teamPublicId.value, targets[i], Some(avatar)));
      var membershipId := db.CreateMembership(userId, teamId);
      assert targets[i..][1..] == targets[i + 1..];
      i := i + 1;
    }
    failure := None;
  }

  /** The public ID, the avatar and the transaction for one user whose name is free. */
  method TryCreateMethod(db: Store.Db, rng: Generators.Entropy, username: string, password: string, targets: seq<Id>)
    returns (failure: Option<string>)
    modifies db, rng
    ensures var a := TryCreate(old(db.Tables()), username, password, old(rng.At()), targets, rng.oracle);
      && rng.At() == a.used
      && (a.Failed? ==> failure == Some(a.reason) && db.Tables() == old(db.Tables()))
      && (a.Succeeded? ==> failure.None? && db.Tables() == a.tables)
  {
    var publicId := rng.NewPublicId(UserPublicIds(db.Tables()));
    if publicId.None? {
      return Some(Generators.ExhaustedMessage("user"));
    }
    var avatar := rng.RandomAvatar();
    failure := BulkTxMethod(db, rng, username, Hashed(password), publicId.value, avatar, targets);
  }

  /** One iteration of the loop over `users`. */
  method CreateOneStep(db: Store.Db, rng: Generators.Entropy, created: seq<CreatedUser>, failed: seq<FailedUser>,
                       username: string, targets: seq<Id>, defaultPassword: string)
    returns (created': seq<CreatedUser>, failed': seq<FailedUser>)
    modifies db, rng
    ensures Batch(db.Tables(), created', failed', rng.At())
         == CreateOne(Batch(old(db.Tables()), created, failed, old(rng.At())), username, targets, defaultPassword, rng.oracle)
  {
    created', failed' := created, failed;
    if username == "" {
      return;
    }
    if UsernameTaken(db.Tables(), username) {
      failed' := failed + [FailedUser(username, DuplicateReason)];
      return;
    }
    var password := defaultPassword;
    if password == "" {
      password := rng.NewPassword(12);
    }
    var failure := TryCreateMethod(db, rng, username, password, targets);
    if failure.Some? {
      failed' := failed + [FailedUser(username, failure.value)];
    } else {
      created' := created + [CreatedUser(username, password)];
    }
  }

  /** The `create` action's loop over `users`. */
  method CreateBatch(db: Store.Db, rng: Generators.Entropy, usernames: seq<string>, targets: seq<Id>, defaultPassword: string)
    returns (created: seq<CreatedUser>, failed: seq<FailedUser>)
    modifies db, rng
    ensures CreateAll(Batch(old(db.Tables()), [], [], old(rng.At())), usernames, targets, defaultPassword, rng.oracle)
         == Batch(db.Tables(), created, failed, rng.At())
  {
    created, failed := [], [];
    var i := 0;
    while i < |usernames|
      invariant 0 <= i <= |usernames|
      invariant CreateAll(Batch(old(db.Tables()), [], [], old(rng.At())), usernames, targets, defaultPassword, rng.oracle)
             == CreateAll(Batch(db.Tables(), created, failed, rng.At()), usernames[i..], targets, defaultPassword, rng.oracle)
      decreases |usernames| - i
    {
      assert usernames[i..][1..] == usernames[i + 1..];
      created, failed := CreateOneStep(db, rng, created, failed, usernames[i], targets, defaultPassword);
      i := i + 1;
    }
  }

  /** `POST /api/users/bulk`. */
  method HandleBulk(db: Store.Db, rng: Generators.Entropy, s: Session, body: BulkBody)
    returns (resp: Response, created: seq<CreatedUser>, failed: seq<FailedUser>)
    modifies db, rng
    ensures BulkResult(Outcome(db.Tables(), resp), created, failed, rng.At())
         == Bulk(old(db.Tables()), s, body, rng.oracle, old(rng.At()))
  {
    created, failed := [], [];
    if s.NoCookie? {
      return Fail("Unauthorized"), [], [];
    }
    if s.Invalid? || !IsAdmin(s.claims.role) {
      return Fail("Forbidden"), [], [];
    }
    var c := s.claims;
    if body.action == "delete" {
      if body.userIds.None? || body.userIds.value == [] {
        return Fail("No users selected"), [], [];
      }
      var ids := body.userIds.value;
      if c.role != SuperAdmin && HitsSuperAdmin(db.Tables(), ids) {
        return Fail("Cannot delete Super Admin"), [], [];
      }
      db.DeleteUsers(IdSet(ids));
      db.Log(DeleteLog(c, ids));
      return Done("Deleted " + Text.NatToString(|ids|) + " users"), [], [];
    }
    if body.action == "toggle_welcome" {
      if body.userIds.None? {
        return Fail("No users selected"), [], [];
      }
      if body.value.Some? {
        db.UpdateWelcome(IdSet(body.userIds.value), body.value.value);
      }
      return Done("Updated " + Text.NatToString(|body.userIds.value|) + " users"), [], [];
    }
    if body.action == "create" {
      if body.users.None? || body.users.value == [] {
        return Fail("No user data provided"), [], [];
      }
      var targets: seq<Id> := [];
      if c.role == EventAdmin {
        if c.userId !in db.users || db.users[c.userId].events == [] {
          return Fail("Admin has no events"), [], [];
        }
        targets := [db.users[c.userId].events[0]];
      } else if body.eventIds.Some? {
        targets := body.eventIds.value;
      } else if body.eventId.Some? {
        targets := [body.eventId.value];
      }
      created, failed := CreateBatch(db, rng, body.users.value, targets, body.password);
      db.Log(CreateLog(c, |created|, |failed|));
      resp := Done("Created " + Text.NatToString(|created|) + " users. Failed: " + Text.NatToString(|failed|));
      return;
    }
    resp := Fail("Invalid action");
  }
}
