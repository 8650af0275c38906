/**
 * app/api/teams/route.ts: joining or switching a team (JOIN), the default
 * one-member team for a participant who skips team selection (CREATE_DEFAULT),
 * and editing a team's name and icon (PATCH).
 *
 * Each request is a function from the tables before it to the tables after it
 * and the response (`Post`, `Patch`), and a handler method that performs the
 * same steps on a `Store.Db` (`HandlePost`, `HandlePatch`). A transaction that
 * throws leaves the tables as they were.
 */
module TeamsRoute {
  import opened Wrappers
  import opened Json
  import opened Schema
  import Generators
  import Store
  import AuditLogView

  /** The fields of the POST body the handler reads; a falsy id is `None`. */
  datatype PostBody = PostBody(action: string, teamId: Option<Id>, eventId: Option<Id>)

  /** The PATCH body: `name` is "" when falsy, `iconIndex` is `None` when undefined. */
  datatype PatchBody = PatchBody(teamId: Option<Id>, name: string, iconIndex: Option<int>)

  // ---------------------------------------------------------------------
  // JOIN
  // ---------------------------------------------------------------------

  /**
   * The cleanup after a move: the team left behind is deleted when it is not the
   * target and nobody remains in it. `None` when that delete throws (the team
   * row is missing), which rolls the transaction back.
   */
  function Cleanup(t: Tables, oldTeamId: Option<Id>, teamId: Id): Option<Tables>
  {
    if oldTeamId.Some? && oldTeamId.value != teamId && CountMembers(t.members, oldTeamId.value) == 0 then
      if oldTeamId.value in t.teams then Some(DeleteTeams(t, {oldTeamId.value})) else None
    else Some(t)
  }

  /** The membership the caller had before the move: the team id of the first one found. */
  function LeftTeam(t: Tables, userId: Id): Option<Id>
  {
    var current := FirstMembership(t.members, userId);
    if current.Some? then Some(t.members[current.value].teamId) else None
  }

  /**
   * The move: the first membership found now points at `teamId`, or a membership
   * is created when there is none. `None` when the write throws because the
   * team, or for a new row the user, does not exist.
   */
  function Moved(t: Tables, userId: Id, teamId: Id): Option<Tables>
  {
    var current := FirstMembership(t.members, userId);
    if current.Some? then
      if teamId in t.teams then Some(MoveMembership(t, current.value, teamId)) else None
    else if userId in t.users && teamId in t.teams then Some(AddMembership(t, userId, teamId).0)
    else None
  }

  /** The JOIN transaction for the caller `userId`: the move, then the cleanup. */
  function Join(t: Tables, userId: Id, teamId: Id): (o: Outcome)
    ensures !o.response.ok ==> o == Outcome(t, ServerError)
    ensures o.response.ok ==> o.response == Done("Joined team successfully")
  {
    match Moved(t, userId, teamId)
    case None => Outcome(t, ServerError)
    case Some(t1) =>
      match Cleanup(t1, LeftTeam(t, userId), teamId)
      case None => Outcome(t, ServerError)
      case Some(t2) => Outcome(t2, Done("Joined team successfully"))
  }

  // ---------------------------------------------------------------------
  // CREATE_DEFAULT
  // ---------------------------------------------------------------------

  /**
   * The CREATE_DEFAULT transaction: nothing to do when the caller already has
   * any membership; otherwise a team named after the caller, with the caller's
   * avatar as icon and a fresh public ID, and the caller's membership in it.
   * Returns the position reached in the stream of random draws.
   */
  function CreateDefault(t: Tables, userId: Id, eventId: Id, draw: nat -> Generators.Unit, start: nat): (r: (Outcome, nat))
    ensures !r.0.response.ok ==> r.0 == Outcome(t, ServerError)
  {
    if FirstMembership(t.members, userId).Some? then (Outcome(t, Done("User already has a team")), start)
    else
      var (publicId, next) := Generators.PickPublicId(TeamPublicIds(t), draw, start, 0);
      if publicId.None? || userId !in t.users || eventId !in t.events then (Outcome(t, ServerError), next)
      else
        var user := t.users[userId];
        var (t1, teamId) := AddTeam(t, Team(user.username, publicId.value, eventId, Some(user.avatarIndex)));
        var (t2, _) := AddMembership(t1, userId, teamId);
        (Outcome(t2, Done("Default team established")), next)
  }

  // ---------------------------------------------------------------------
  // POST
  // ---------------------------------------------------------------------

  /** `POST /api/teams`. A rejected request changes no table. */
  function Post(t: Tables, s: Session, body: PostBody, draw: nat -> Generators.Unit, start: nat): (r: (Outcome, nat))
    ensures !r.0.response.ok ==> r.0.tables == t
  {
    match s
    case NoCookie => (Outcome(t, Fail("Unauthorized")), start)
    case Invalid => (Outcome(t, Fail("Forbidden")), start)
    case Verified(c) =>
      if body.action == "JOIN" then
        if body.teamId.None? then (Outcome(t, Fail("Team ID required")), start)
        else (Join(t, c.userId, body.teamId.value), start)
      else if body.action == "CREATE_DEFAULT" then
        if body.eventId.None? then (Outcome(t, Fail("Event ID required")), start)
        else CreateDefault(t, c.userId, body.eventId.value, draw, start)
      else (Outcome(t, Fail("Invalid action")), start)
  }

  // ---------------------------------------------------------------------
  // PATCH
  // ---------------------------------------------------------------------

  /** `Object.keys(updateData)`: the keys set, in the order they are set. */
  function UpdatedFields(name: string, iconIndex: Option<int>): seq<string>
  {
    (if name != "" then ["name"] else []) + (if iconIndex.Some? then ["iconIndex"] else [])
  }

  /** The team row after `team.update({ data: updateData })`. */
  function Updated(team: Team, name: string, iconIndex: Option<int>): Team
  {
    team.(name := if name != "" then name else team.name,
          iconIndex := if iconIndex.Some? then iconIndex else team.iconIndex)
  }

  /** The TEAM_UPDATE audit record. */
  function UpdateLog(c: Claims, teamId: Id, fields: seq<string>): LogRecord
  {
    LogRecord("TEAM_UPDATE", JObj([("teamId", JNum(teamId)), ("updatedFields", StrArray(fields))]),
              Some(c.userId), c.username, c.role, None)
  }

  /** `PATCH /api/teams`. A rejected request changes no table. */
  function Patch(t: Tables, s: Session, body: PatchBody): (o: Outcome)
    ensures !o.response.ok ==> o.tables == t
  {
    match s
    case NoCookie => Outcome(t, Fail("Unauthorized"))
    case Invalid => Outcome(t, Fail("Forbidden"))
    case Verified(c) =>
      if body.teamId.None? then Outcome(t, Fail("Team ID required"))
      else
        var teamId := body.teamId.value;
        if !IsMember(t.members, c.userId, teamId) && c.role != SuperAdmin then
          Outcome(t, Fail("Forbidden: You are not a member of this team"))
        else if teamId !in t.teams then Outcome(t, ServerError)  // update of a missing row throws
        else
          var t1 := t.(teams := t.teams[teamId := Updated(t.teams[teamId], body.name, body.iconIndex)]);
          Outcome(AddLog(t1, UpdateLog(c, teamId, UpdatedFields(body.name, body.iconIndex))),
                  Done("Team updated successfully"))
  }

  // ---------------------------------------------------------------------
  // Properties
  // ---------------------------------------------------------------------

  /** JOIN without a team id is refused before anything is read or written. */
  lemma JoinNeedsTeamId(t: Tables, c: Claims, eventId: Option<Id>, draw: nat -> Generators.Unit, start: nat)
    ensures Post(t, Verified(c), PostBody("JOIN", None, eventId), draw, start)
         == (Outcome(t, Fail("Team ID required")), start)
  {
  }

  /** Any action other than JOIN and CREATE_DEFAULT is refused and changes nothing. */
  lemma OtherActionInvalid(t: Tables, c: Claims, body: PostBody, draw: nat -> Generators.Unit, start: nat)
    requires body.action != "JOIN" && body.action != "CREATE_DEFAULT"
    ensures Post(t, Verified(c), body, draw, start) == (Outcome(t, Fail("Invalid action")), start)
  {
  }

  /** The first membership of a user, once row `i` is known to be it. */
  lemma FirstMembershipIs(ms: seq<Membership>, userId: Id, i: nat)
    requires i < |ms| && ms[i].userId == userId
    requires forall j :: 0 <= j < i ==> ms[j].userId != userId
    ensures FirstMembership(ms, userId) == Some(i)
  {
  }

  /**
   * The cleanup touches the team table only: it removes the team left behind
   * exactly when that team is not the target and has no members, and keeps
   * the membership list, since nobody points at a team it removes.
   */
  lemma CleanupShape(t1: Tables, oldTeamId: Option<Id>, teamId: Id)
    ensures var r := Cleanup(t1, oldTeamId, teamId);
      var drops := oldTeamId.Some? && oldTeamId.value != teamId && CountMembers(t1.members, oldTeamId.value) == 0;
      r.Some? ==>
        && r.value.members == t1.members
        && r.value.users == t1.users
        && r.value.nextId == t1.nextId
        && (forall k :: k in r.value.teams <==> k in t1.teams && !(drops && k == oldTeamId.value))
    ensures Cleanup(t1, oldTeamId, teamId).None? ==> oldTeamId.Some? && oldTeamId.value !in t1.teams
  {
    if oldTeamId.Some? && oldTeamId.value != teamId && CountMembers(t1.members, oldTeamId.value) == 0 {
      assert forall i :: 0 <= i < |t1.members| ==> t1.members[i].teamId !in {oldTeamId.value};
    }
  }

  /** The move changes only the membership list and the id counter. */
  lemma MovedShape(t: Tables, userId: Id, teamId: Id)
    ensures var before := FirstMembership(t.members, userId);
      var m := Moved(t, userId, teamId);
      m.Some? ==>
        && m.value.users == t.users && m.value.teams == t.teams
        && teamId in t.teams
        && (before.Some? ==> m.value.members == t.members[before.value := t.members[before.value].(teamId := teamId)]
                             && m.value.nextId == t.nextId)
        && (before.None? ==> m.value.members == t.members + [Membership(t.nextId, userId, teamId)]
                             && userId in t.users && m.value.nextId == t.nextId + 1)
  {
  }

  /**
   * After a successful JOIN the user's first membership points at the target
   * team; a membership row is added only when the user had none, otherwise the
   * existing row is the one that changed.
   */
  lemma JoinMovesMembership(t: Tables, userId: Id, teamId: Id)
    ensures var o := Join(t, userId, teamId);
      var before := FirstMembership(t.members, userId);
      o.response.ok ==>
        && FirstMembership(o.tables.members, userId) == Some(if before.Some? then before.value else |t.members|)
        && o.tables.members[FirstMembership(o.tables.members, userId).value].teamId == teamId
        && |o.tables.members| == |t.members| + (if before.None? then 1 else 0)
        && (forall j :: 0 <= j < |t.members| && (before.None? || j != before.value) ==>
              o.tables.members[j] == t.members[j])
  {
    var o := Join(t, userId, teamId);
    var before := FirstMembership(t.members, userId);
    var m := Moved(t, userId, teamId);
    MovedShape(t, userId, teamId);
    if o.response.ok {
      CleanupShape(m.value, LeftTeam(t, userId), teamId);
      var ms := m.value.members;
      assert o.tables.members == ms;
      FirstMembershipIs(ms, userId, if before.Some? then before.value else |t.members|);
    }
  }

  /**
   * The team the user left is deleted exactly when it is not the target and no
   * membership points at it any more; the target team always survives and no
   * other team is touched.
   */
  lemma JoinCleansUp(t: Tables, userId: Id, teamId: Id)
    requires MembersValid(t)
    ensures var o := Join(t, userId, teamId);
      var before := FirstMembership(t.members, userId);
      o.response.ok ==>
        && teamId in o.tables.teams
        && (before.None? ==> o.tables.teams.Keys == t.teams.Keys)
        && (before.Some? ==>
              var oldTeamId := t.members[before.value].teamId;
              && (oldTeamId !in o.tables.teams <==> oldTeamId != teamId && CountMembers(o.tables.members, oldTeamId) == 0)
              && forall k :: k != oldTeamId ==> (k in o.tables.teams <==> k in t.teams))
  {
    var o := Join(t, userId, teamId);
    var m := Moved(t, userId, teamId);
    MovedShape(t, userId, teamId);
    if o.response.ok {
      CleanupShape(m.value, LeftTeam(t, userId), teamId);
      assert o.tables.members == m.value.members;
    }
  }

  /** JOIN keeps every membership pointing at an existing user and team, and ids fresh. */
  lemma JoinPreservesValid(t: Tables, userId: Id, teamId: Id)
    requires Valid(t)
    ensures Valid(Join(t, userId, teamId).tables)
  {
    var o := Join(t, userId, teamId);
    var m := Moved(t, userId, teamId);
    MovedShape(t, userId, teamId);
    if o.response.ok {
      var left := LeftTeam(t, userId);
      CleanupShape(m.value, left, teamId);
      var ms := m.value.members;
      assert MembersValid(m.value);
      if left.Some? && left.value != teamId && CountMembers(ms, left.value) == 0 {
        assert forall i :: 0 <= i < |ms| ==> ms[i].teamId != left.value;
      }
    }
  }

  /** CREATE_DEFAULT for a caller who has any membership, in any event, succeeds and does nothing. */
  lemma CreateDefaultWhenMember(t: Tables, userId: Id, eventId: Id, draw: nat -> Generators.Unit, start: nat)
    requires exists i :: 0 <= i < |t.members| && t.members[i].userId == userId
    ensures CreateDefault(t, userId, eventId, draw, start) == (Outcome(t, Done("User already has a team")), start)
  {
  }

  /**
   * Otherwise a successful CREATE_DEFAULT adds exactly one team, named after the
   * caller, with the caller's avatar as icon and a public ID no team had, and
   * exactly one membership: the caller's, in that team.
   */
  lemma CreateDefaultCreates(t: Tables, userId: Id, eventId: Id, draw: nat -> Generators.Unit, start: nat)
    requires IdsFresh(t)
    requires forall i :: 0 <= i < |t.members| ==> t.members[i].userId != userId
    ensures var (o, _) := CreateDefault(t, userId, eventId, draw, start);
      o.response.ok ==>
        && o.response == Done("Default team established")
        && userId in t.users
        && o.tables.teams.Keys == t.teams.Keys + {t.nextId}
        && t.nextId !in t.teams
        && (forall k :: k in t.teams ==> o.tables.teams[k] == t.teams[k])
        && (var team := o.tables.teams[t.nextId];
            && team.name == t.users[userId].username
            && team.iconIndex == Some(t.users[userId].avatarIndex)
            && team.eventId == eventId
            && team.publicId !in TeamPublicIds(t))
        && o.tables.members == t.members + [Membership(t.nextId + 1, userId, t.nextId)]
  {
    var (publicId, next) := Generators.PickPublicId(TeamPublicIds(t), draw, start, 0);
    Generators.PickIsFree(TeamPublicIds(t), draw, start, 0);
  }

  /** A second CREATE_DEFAULT after a successful one changes nothing. */
  lemma CreateDefaultIdempotent(t: Tables, userId: Id, eventId: Id, eventId2: Id, draw: nat -> Generators.Unit, start: nat)
    ensures var (o, next) := CreateDefault(t, userId, eventId, draw, start);
      o.response.ok ==>
        CreateDefault(o.tables, userId, eventId2, draw, next) == (Outcome(o.tables, Done("User already has a team")), next)
  {
    var (o, next) := CreateDefault(t, userId, eventId, draw, start);
    if o.response.ok && FirstMembership(t.members, userId).None? {
      assert o.tables.members[|t.members|].userId == userId;
    }
  }

  /** A caller who is neither a member of the team nor SUPER_ADMIN cannot change it. */
  lemma PatchForbidden(t: Tables, c: Claims, body: PatchBody)
    requires body.teamId.Some? && !IsMember(t.members, c.userId, body.teamId.value)
    requires c.role != SuperAdmin
    ensures Patch(t, Verified(c), body) == Outcome(t, Fail("Forbidden: You are not a member of this team"))
  {
  }

  /** `updateData` holds "name" exactly when a non-empty name is given and "iconIndex" whenever an index is given. */
  lemma UpdatedFieldsSpec(name: string, iconIndex: Option<int>)
    ensures var fs := UpdatedFields(name, iconIndex);
      && ("name" in fs <==> name != "")
      && ("iconIndex" in fs <==> iconIndex.Some?)
      && (forall f :: f in fs ==> f == "name" || f == "iconIndex")
      && (forall i, j :: 0 <= i < j < |fs| ==> fs[i] != fs[j])
  {
  }

  /**
   * A successful PATCH changes only the named team: its name when a non-empty
   * name is given, its icon whenever an icon index is given (0 included); it
   * appends one TEAM_UPDATE record naming the keys it set.
   */
  lemma PatchUpdatesFields(t: Tables, s: Session, body: PatchBody)
    ensures var o := Patch(t, s, body);
      o.response.ok ==>
        && s.Verified? && body.teamId.Some? && body.teamId.value in t.teams
        && var teamId := body.teamId.value;
           var before, after := t.teams[teamId], o.tables.teams[teamId];
           && o.tables.teams == t.teams[teamId := after]
           && after.name == (if body.name != "" then body.name else before.name)
           && after.iconIndex == (if body.iconIndex.Some? then body.iconIndex else before.iconIndex)
           && after.publicId == before.publicId && after.eventId == before.eventId
           && o.tables.users == t.users && o.tables.members == t.members
           && o.tables.logs == t.logs + [UpdateLog(s.claims, teamId, UpdatedFields(body.name, body.iconIndex))]
  {
  }

  /**
   * The log row a PATCH writes reads in the log view as "Updated <labels> for
   * team.", and as "Updated settings for team." exactly when nothing was set.
   */
  lemma PatchLogRendering(t: Tables, c: Claims, body: PatchBody, raw: string)
    requires Patch(t, Verified(c), body).response.ok
    ensures var o := Patch(t, Verified(c), body);
      var fields := UpdatedFields(body.name, body.iconIndex);
      && o.tables.logs[|t.logs|].action == "TEAM_UPDATE"
      && AuditLogView.TeamUpdateText(raw, o.tables.logs[|t.logs|].details)
         == "Updated " + (if fields == [] then "settings" else AuditLogView.TeamLabelsText(fields)) + " for team."
  {
    var fields := UpdatedFields(body.name, body.iconIndex);
    AuditLogView.TeamUpdateSentence(raw, JNum(body.teamId.value), fields);
  }

  // ---------------------------------------------------------------------
  // Handlers
  // ---------------------------------------------------------------------

  method JoinTx(db: Store.Db, userId: Id, teamId: Id) returns (resp: Response)
    modifies db
    ensures Outcome(db.Tables(), resp) == Join(old(db.Tables()), userId, teamId)
  {
    var start := db.Tables();
    var current := FirstMembership(db.members, userId);
    var oldTeamId: Option<Id> := None;  // `currentMember?.teamId`
    if current.Some? {
      oldTeamId := Some(db.members[current.value].teamId);
      if teamId !in db.teams {
        return ServerError;
      }
      db.UpdateMembershipTeam(current.value, teamId);
    } else {
      if userId !in db.users || teamId !in db.teams {
        return ServerError;
      }
      var membershipId := db.CreateMembership(userId, teamId);
    }
    if oldTeamId.Some? && oldTeamId.value != teamId {
      var remaining := CountMembers(db.members, oldTeamId.value);
      if remaining == 0 {
        if oldTeamId.value !in db.teams {
          db.Restore(start);
          return ServerError;
        }
        db.DeleteTeams({oldTeamId.value});
      }
    }
    resp := Done("Joined team successfully");
  }

  method CreateDefaultTx(db: Store.Db, rng: Generators.Entropy, userId: Id, eventId: Id) returns (resp: Response)
    modifies db, rng
    ensures (Outcome(db.Tables(), resp), rng.drawn) == CreateDefault(old(db.Tables()), userId, eventId, rng.oracle.draw, old(rng.drawn))
    ensures rng.bytesUsed == old(rng.bytesUsed)
  {
    if FirstMembership(db.members, userId).Some? {
      return Done("User already has a team");
    }
    var publicId := rng.NewPublicId(TeamPublicIds(db.Tables()));
    if publicId.None? || userId !in db.users || eventId !in db.events {
      return ServerError;
    }
    var user := db.users[userId];
    var teamId := db.CreateTeam(Team(user.username, publicId.value, eventId, Some(user.avatarIndex)));
    var membershipId := db.CreateMembership(userId, teamId);
    resp := Done("Default team established");
  }

  /** `POST /api/teams`. */
  method HandlePost(db: Store.Db, rng: Generators.Entropy, s: Session, body: PostBody) returns (resp: Response)
    modifies db, rng
    ensures (Outcome(db.Tables(), resp), rng.drawn) == Post(old(db.Tables()), s, body, rng.oracle.draw, old(rng.drawn))
    ensures rng.bytesUsed == old(rng.bytesUsed)
  {
    if s.NoCookie? {
      return Fail("Unauthorized");
    }
    if s.Invalid? {
      return Fail("Forbidden");
    }
    if body.action == "JOIN" {
      if body.teamId.None? {
        return Fail("Team ID required");
      }
      resp := JoinTx(db, s.claims.userId, body.teamId.value);
      return;
    }
    if body.action == "CREATE_DEFAULT" {
      if body.eventId.None? {
        return Fail("Event ID required");
      }
      resp := CreateDefaultTx(db, rng, s.claims.userId, body.eventId.value);
      return;
    }
    resp := Fail("Invalid action");
  }

  /** `PATCH /api/teams`: `updateData` is filled key by key, then one update and the log. */
  method HandlePatch(db: Store.Db, s: Session, body: PatchBody) returns (resp: Response)
    modifies db
    ensures Outcome(db.Tables(), resp) == Patch(old(db.Tables()), s, body)
  {
    if s.NoCookie? {
      return Fail("Unauthorized");
    }
    if s.Invalid? {
      return Fail("Forbidden");
    }
    if body.teamId.None? {
      return Fail("Team ID required");
    }
    var teamId := body.teamId.value;
    if !IsMember(db.members, s.claims.userId, teamId) && s.claims.role != SuperAdmin {
      return Fail("Forbidden: You are not a member of this team");
    }
    if teamId !in db.teams {
      return ServerError;
    }
    var team := db.teams[teamId];
    var fields: seq<string> := [];
    if body.name != "" {
      team := team.(name := body.name);
      fields := fields + ["name"];
    }
    if body.iconIndex.Some? {
      team := team.(iconIndex := body.iconIndex);
      fields := fields + ["iconIndex"];
    }
    assert fields == UpdatedFields(body.name, body.iconIndex);
    assert team == Updated(db.teams[teamId], body.name, body.iconIndex);
    db.UpdateTeam(teamId, team);
    db.Log(UpdateLog(s.claims, teamId, fields));
    resp := Done("Team updated successfully");
  }
}
