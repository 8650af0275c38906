/**
 * `/api/teams/list`, open to SUPER_ADMIN and EVENT_ADMIN. `GET` lists every
 * team with its event, its member and entry counts, and its members, ordered
 * by event name and then team name. `DELETE` removes the listed teams in any
 * event, together with their memberships and entries, and logs the names of
 * the teams it found.
 */
module TeamsListRoute {
  import opened Wrappers
  import opened Json
  import opened Schema
  import Store
  import Sorting
  import Lists
  import Text

  const AdminRequiredMessage: string := "Admin access required"
  const NoIdsMessage: string := "No team IDs provided"

  // ---------------------------------------------------------------------
  // GET
  // ---------------------------------------------------------------------

  /** One team as the page receives it. */
  datatype TeamListRow = TeamListRow(
    id: Id,
    name: string,
    publicId: string,
    iconIndex: Option<int>,
    eventId: Id,
    eventName: string,
    eventSlug: string,
    eventStatus: string,
    memberCount: nat,
    entryCount: nat,
    members: seq<(Id, string)>)

  /** The team's event and its members' users all exist; the relations the query follows are required ones. */
  predicate Linked(t: Tables)
  {
    && (forall k :: k in t.teams ==> t.teams[k].eventId in t.events)
    && (forall i :: 0 <= i < |t.members| && t.members[i].teamId in t.teams ==> t.members[i].userId in t.users)
  }

  /** `_count.entries`. */
  function EntryCount(t: Tables, id: Id): nat
  {
    |Lists.Filter(t.entries, (e: Entry) => e.teamId == id)|
  }

  /** `{ id: m.user.id, username: m.user.username }` of a membership. */
  function MemberRow(t: Tables, m: Membership): (Id, string)
  {
    (m.userId, if m.userId in t.users then t.users[m.userId].username else "")
  }

  /** The projection of one team. */
  function Row(t: Tables, id: Id): TeamListRow
    requires id in t.teams && t.teams[id].eventId in t.events
  {
    var team := t.teams[id];
    var e := t.events[team.eventId];
    TeamListRow(id, team.name, team.publicId, team.iconIndex, team.eventId, e.name, e.slug, e.status,
                CountMembers(t.members, id), EntryCount(t, id),
                Lists.Map(TeamMembers(t.members, id), m => MemberRow(t, m)))
  }

  /** `orderBy: [{ event: { name: 'asc' } }, { name: 'asc' }]`. */
  predicate RowLeq(a: TeamListRow, b: TeamListRow)
  {
    if a.eventName == b.eventName then Sorting.StrLeq(a.name, b.name) else Sorting.StrLeq(a.eventName, b.eventName)
  }

  /** The projections of all teams, newest first, before sorting. */
  function Rows(t: Tables): (rows: seq<TeamListRow>)
    requires Linked(t)
    ensures forall k :: k in t.teams && k < t.nextId ==> Row(t, k) in rows
  {
    var ids := Sorting.Descending(t.teams.Keys, t.nextId);
    assert forall i :: 0 <= i < |ids| ==> ids[i] in ids;
    var rows := seq(|ids|, i requires 0 <= i < |ids| => Row(t, ids[i]));
    assert forall k :: k in t.teams && k < t.nextId ==> Row(t, k) in rows by {
      forall k | k in t.teams && k < t.nextId ensures Row(t, k) in rows {
        var i :| 0 <= i < |ids| && ids[i] == k;
        assert rows[i] == Row(t, k);
      }
    }
    rows
  }

  /** `GET`: the projections of all teams in the requested order. */
  function List(t: Tables, s: Session): (Response, seq<TeamListRow>)
  {
    if s.NoCookie? then (Fail("Unauthorized"), [])
    else if s.Invalid? || !IsAdmin(s.claims.role) then (Fail(AdminRequiredMessage), [])
    else if !Linked(t) then (ServerError, [])
    else
      (Response(200, true, ""), Sorting.SortBy(Rows(t), RowLeq))
  }

  // ---------------------------------------------------------------------
  // DELETE
  // ---------------------------------------------------------------------

  /** The elements of `teamIds` as row ids, or `None` when one of them is not an id. */
  function IdList(items: seq<Json>): (r: Option<seq<Id>>)
    ensures r.Some? ==> |r.value| == |items| && forall i :: 0 <= i < |items| ==> items[i] == JNum(r.value[i])
    ensures r.None? ==> exists i :: 0 <= i < |items| && !(items[i].JNum? && items[i].n >= 0)
  {
    if items == [] then Some([])
    else if !(items[0].JNum? && items[0].n >= 0) then None
    else
      match IdList(items[1..])
      case None => None
      case Some(rest) => Some([items[0].n as Id] + rest)
  }

  function IdSet(ids: seq<Id>): set<Id>
  {
    set k | k in ids
  }

  /** `team.findMany({ where: { id: { in: ids } } })`, in the default id order. */
  function Found(t: Tables, ids: set<Id>): (r: seq<Id>)
    ensures forall k :: k in r <==> k in t.teams && k in ids && k < t.nextId
    ensures forall i, j :: 0 <= i < j < |r| ==> r[i] < r[j]
  {
    Sorting.Ascending(t.teams.Keys * ids, t.nextId)
  }

  function TeamNames(t: Tables, found: seq<Id>): seq<string>
  {
    seq(|found|, i requires 0 <= i < |found| => if found[i] in t.teams then t.teams[found[i]].name else "")
  }

  function BulkDeleteLog(c: Claims, count: nat, names: seq<string>): LogRecord
  {
    LogRecord("TEAM_BULK_DELETE", JObj([("count", JNum(count)), ("teamNames", StrArray(names))]),
              Some(c.userId), c.username, c.role, None)
  }

  /** The message reporting how many teams were removed. */
  function DeletedMessage(count: nat): string
  {
    "Deleted " + Text.NatToString(count) + " team(s) successfully"
  }

  /**
   * The writes of an accepted `DELETE`: the teams go with their memberships
   * and entries, and one log row names the teams found.
   */
  function Remove(t: Tables, c: Claims, ids: set<Id>): (o: Outcome)
    ensures o.response == Done(DeletedMessage(|t.teams.Keys * ids|))
    ensures forall k :: k in o.tables.teams <==> k in t.teams && k !in ids
    ensures forall m :: m in o.tables.members <==> m in t.members && m.teamId !in ids
    ensures forall e :: e in o.tables.entries <==> e in t.entries && e.teamId !in ids
    ensures o.tables.logs == t.logs + [BulkDeleteLog(c, |t.teams.Keys * ids|, TeamNames(t, Found(t, ids)))]
  {
    var count := |t.teams.Keys * ids|;
    Outcome(AddLog(DeleteTeams(t, ids), BulkDeleteLog(c, count, TeamNames(t, Found(t, ids)))), Done(DeletedMessage(count)))
  }

  /**
   * `DELETE`. A `teamIds` element that is not an id makes the query throw;
   * the count is the number of rows `deleteMany` removed.
   */
  function Delete(t: Tables, s: Session, teamIds: Option<Json>): Outcome
  {
    if s.NoCookie? then Outcome(t, Fail("Unauthorized"))
    else if s.Invalid? || !IsAdmin(s.claims.role) then Outcome(t, Fail(AdminRequiredMessage))
    else if teamIds.None? || !teamIds.value.JArr? || teamIds.value.items == [] then Outcome(t, Fail(NoIdsMessage))
    else
      match IdList(teamIds.value.items)
      case None => Outcome(t, ServerError)
      case Some(list) => Remove(t, s.claims, IdSet(list))
  }

  // ---------------------------------------------------------------------
  // Properties
  // ---------------------------------------------------------------------

  /** Both verbs turn away anyone who is not an admin, and nothing changes. */
  lemma NeedAdmin(t: Tables, s: Session, teamIds: Option<Json>)
    requires s.Verified? && !IsAdmin(s.claims.role)
    ensures List(t, s) == (Fail(AdminRequiredMessage), [])
    ensures Delete(t, s, teamIds) == Outcome(t, Fail(AdminRequiredMessage))
  {
  }

  /** The team order: lexicographic on (event name, team name), a total order. */
  lemma RowLeqTotalOrder()
    ensures Sorting.TotalOrder(RowLeq)
  {
    forall a: TeamListRow, b: TeamListRow ensures RowLeq(a, b) || RowLeq(b, a) {
      Sorting.StrLeqTotal(a.name, b.name);
      Sorting.StrLeqTotal(a.eventName, b.eventName);
    }
    forall a: TeamListRow, b: TeamListRow, c: TeamListRow | RowLeq(a, b) && RowLeq(b, c) ensures RowLeq(a, c) {
      if a.eventName == b.eventName && b.eventName == c.eventName {
        Sorting.StrLeqTrans(a.name, b.name, c.name);
      } else if a.eventName != b.eventName && b.eventName != c.eventName {
        if a.eventName == c.eventName {
          Sorting.StrLeqAntisym(a.eventName, b.eventName);
        } else {
          Sorting.StrLeqTrans(a.eventName, b.eventName, c.eventName);
        }
      }
    }
  }

  /** An admin's list is the team projections, each once, ordered by event name and then team name. */
  lemma ListSorted(t: Tables, s: Session)
    requires s.Verified? && IsAdmin(s.claims.role) && Linked(t)
    ensures List(t, s).1 == Sorting.SortBy(Rows(t), RowLeq)
    ensures Sorting.Sorted(List(t, s).1, RowLeq)
    ensures multiset(List(t, s).1) == multiset(Rows(t))
  {
    RowLeqTotalOrder();
    Sorting.SortBySorted(Rows(t), RowLeq);
  }

  /** With fresh ids, every team is listed. */
  lemma ListComplete(t: Tables, s: Session, k: Id)
    requires s.Verified? && IsAdmin(s.claims.role) && Linked(t) && IdsFresh(t) && k in t.teams
    ensures Row(t, k) in List(t, s).1
  {
    ListSorted(t, s);
    assert Row(t, k) in multiset(Rows(t));
  }

  /**
   * A row's member count is the number of the team's memberships, and its
   * member list has one (user id, username) pair per membership, in
   * membership order.
   */
  lemma RowMembers(t: Tables, id: Id)
    requires id in t.teams && Linked(t)
    ensures var r := Row(t, id);
            var ms := TeamMembers(t.members, id);
            && r.memberCount == |r.members| == |ms|
            && forall i :: 0 <= i < |ms| ==> ms[i].userId in t.users && r.members[i] == (ms[i].userId, t.users[ms[i].userId].username)
  {
    var ms := TeamMembers(t.members, id);
    forall i | 0 <= i < |ms| ensures ms[i].userId in t.users {
      assert ms[i] in t.members;
      var j :| 0 <= j < |t.members| && t.members[j] == ms[i];
    }
  }

  /** A `teamIds` that is missing, not an array or empty is refused. */
  lemma DeleteNeedsIds(t: Tables, c: Claims, teamIds: Option<Json>)
    requires IsAdmin(c.role)
    requires teamIds.None? || !teamIds.value.JArr? || teamIds.value.items == []
    ensures Delete(t, Verified(c), teamIds) == Outcome(t, Fail(NoIdsMessage))
  {
  }

  /** A `teamIds` element that is not an id fails the request, and nothing is deleted. */
  lemma DeleteBadId(t: Tables, c: Claims, items: seq<Json>)
    requires IsAdmin(c.role) && items != [] && exists i :: 0 <= i < |items| && !(items[i].JNum? && items[i].n >= 0)
    ensures Delete(t, Verified(c), Some(JArr(items))) == Outcome(t, ServerError)
  {
  }

  /**
   * An admin's delete removes exactly the listed teams, in whatever event
   * they are, with their memberships and entries. It reports how many of
   * them existed, and the log records that count and the names of the teams
   * found (see `FoundCount`).
   */
  lemma DeleteRemoves(t: Tables, c: Claims, items: seq<Json>)
    requires IsAdmin(c.role) && items != [] && IdList(items).Some?
    ensures var o := Delete(t, Verified(c), Some(JArr(items)));
            var ids := IdSet(IdList(items).value);
            var count := |t.teams.Keys * ids|;
            && o.response == Done(DeletedMessage(count))
            && (forall k :: k in o.tables.teams <==> k in t.teams && JNum(k) !in items)
            && (forall m :: m in o.tables.members <==> m in t.members && JNum(m.teamId) !in items)
            && (forall e :: e in o.tables.entries <==> e in t.entries && JNum(e.teamId) !in items)
            && o.tables.logs == t.logs + [BulkDeleteLog(c, count, TeamNames(t, Found(t, ids)))]
  {
    DeleteIsRemove(t, c, items);
    IdSetOfItems(items);
  }

  /** An accepted `DELETE` performs the removal of the ids it lists. */
  lemma DeleteIsRemove(t: Tables, c: Claims, items: seq<Json>)
    requires IsAdmin(c.role) && items != [] && IdList(items).Some?
    ensures Delete(t, Verified(c), Some(JArr(items))) == Remove(t, c, IdSet(IdList(items).value))
  {
    var s := Verified(c);
    var j := Some(JArr(items));
    var list := IdList(items).value;
    assert IdList(items) == Some(list);
    assert !(j.None? || !j.value.JArr? || j.value.items == []);
    assert Delete(t, s, j) == Remove(t, s.claims, IdSet(list));
  }

  /** The id set of a list of numbers holds exactly the ids listed. */
  lemma IdSetOfItems(items: seq<Json>)
    requires IdList(items).Some?
    ensures forall k: Id :: k in IdSet(IdList(items).value) <==> JNum(k) in items
  {
    var list := IdList(items).value;
    forall k: Id ensures k in IdSet(list) <==> JNum(k) in items {
      if JNum(k) in items {
        var i :| 0 <= i < |items| && items[i] == JNum(k);
        assert list[i] in IdSet(list);
      }
      if k in IdSet(list) {
        var i :| 0 <= i < |list| && list[i] == k;
        assert items[i] == JNum(k);
      }
    }
  }

  /** With fresh ids, the logged names are one per deleted team and the count is the number deleted. */
  lemma FoundCount(t: Tables, ids: set<Id>)
    requires IdsFresh(t)
    ensures |Found(t, ids)| == |t.teams.Keys * ids|
    ensures forall k :: k in Found(t, ids) <==> k in t.teams && k in ids
  {
    Sorting.AscendingCount(t.teams.Keys * ids, t.nextId);
    assert Sorting.Below(t.teams.Keys * ids, t.nextId) == t.teams.Keys * ids;
  }

  // ---------------------------------------------------------------------
  // Handler
  // ---------------------------------------------------------------------

  /** `DELETE` against the database: the names are read before the rows go. */
  method HandleDelete(db: Store.Db, s: Session, teamIds: Option<Json>) returns (resp: Response)
    modifies db
    ensures Outcome(db.Tables(), resp) == Delete(old(db.Tables()), s, teamIds)
  {
    if s.NoCookie? {
      return Fail("Unauthorized");
    }
    if s.Invalid? || !IsAdmin(s.claims.role) {
      return Fail(AdminRequiredMessage);
    }
    if teamIds.None? || !teamIds.value.JArr? || teamIds.value.items == [] {
      return Fail(NoIdsMessage);
    }
    var list := IdList(teamIds.value.items);
    if list.None? {
      return ServerError;
    }
    var ids := IdSet(list.value);
    var names := TeamNames(db.Tables(), Found(db.Tables(), ids));
    var count := |db.teams.Keys * ids|;
    db.DeleteTeams(ids);
    db.Log(BulkDeleteLog(s.claims, count, names));
    resp := Done(DeletedMessage(count));
  }
}
