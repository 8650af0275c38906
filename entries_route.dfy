/**
 * `POST /api/entries`: a signed-in user records a quantity of an item for
 * their team. The request passes through a series of checks, each of which
 * can refuse it. The item is found by exact name in the event, or created with
 * one point. The entry then stores the points earned, which is the count times
 * the item's points, and the request is logged.
 */
module EntriesRoute {
  import opened Wrappers
  import opened Json
  import opened Schema
  import Store
  import JsNumber

  const RequiredMessage: string := "Item Name, Quantity and Event ID are required"
  const QuantityMessage: string := "Quantity must be a positive number"
  const NotInEventMessage: string := "User not associated with this event"
  const NoTeamMessage: string := "User has no team association"
  const FinishedMessage: string := "This event has finished. No more entries allowed."
  const AddedMessage: string := "Entry added successfully"

  /** The fields read from the body; `None` is an absent field, and a falsy `eventId` is absent too. */
  datatype EntryBody = EntryBody(itemName: Option<Json>, quantity: Option<Json>, eventId: Option<Id>)

  /** What the checks decide: a refusal, or the request's claims, item name, count, event and team. */
  datatype Check =
    | Refused(response: Response)
    | Accepted(claims: Claims, itemName: Json, count: int, eventId: Id, teamId: Id)

  /** The item with this exact name in the event that was created first (`item.findFirst`). */
  function FindItem(items: seq<Item>, name: string, eventId: Id): (r: Option<nat>)
    ensures r.Some? ==> r.value < |items| && items[r.value].name == name && items[r.value].eventId == eventId
    ensures r.Some? ==> forall j :: 0 <= j < r.value ==> !(items[j].name == name && items[j].eventId == eventId)
    ensures r.None? <==> forall j :: 0 <= j < |items| ==> !(items[j].name == name && items[j].eventId == eventId)
  {
    if items == [] then None
    else if items[0].name == name && items[0].eventId == eventId then Some(0)
    else
      match FindItem(items[1..], name, eventId)
      case None => None
      case Some(k) => Some(k + 1)
  }

  /** The user's first membership, when it leads to an existing team. */
  function UserTeam(t: Tables, userId: Id): (r: Option<Id>)
    ensures r.Some? ==> r.value in t.teams
    ensures r.Some? <==> exists i :: FirstMembership(t.members, userId) == Some(i) && t.members[i].teamId in t.teams
  {
    match FirstMembership(t.members, userId)
    case None => None
    case Some(i) => if t.members[i].teamId in t.teams then Some(t.members[i].teamId) else None
  }

  /** The event is known and finished. A missing event lets the request through. */
  predicate Finished(t: Tables, eventId: Id)
  {
    eventId in t.events && t.events[eventId].status == "FINISHED"
  }

  /** `parseInt(quantity)`; an absent quantity never reaches it. */
  function Quantity(body: EntryBody): Option<int>
  {
    if body.quantity.Some? then JsNumber.ParseIntValue(body.quantity.value) else None
  }

  /**
   * The checks, in the order the handler makes them, before anything is
   * written; `count` is `parseInt(quantity)`.
   */
  function Validate(t: Tables, s: Session, body: EntryBody, count: Option<int>): (a: Check)
    ensures a.Accepted? ==> s == Verified(a.claims)
    ensures a.Accepted? ==> Truthy(body.itemName) && body.itemName == Some(a.itemName)
    ensures a.Accepted? ==> body.eventId == Some(a.eventId)
    ensures a.Accepted? ==> Truthy(body.quantity) && count == Some(a.count) && a.count > 0
    ensures a.Accepted? ==> a.claims.userId in t.users && t.users[a.claims.userId].eventId == Some(a.eventId)
    ensures a.Accepted? ==> UserTeam(t, a.claims.userId) == Some(a.teamId)
    ensures a.Accepted? ==> !Finished(t, a.eventId) || IsAdmin(a.claims.role)
  {
    if s.NoCookie? then Refused(Fail("Unauthorized"))
    else if s.Invalid? then Refused(Fail("Forbidden"))
    else if !Truthy(body.itemName) || !Truthy(body.quantity) || body.eventId.None? then Refused(Fail(RequiredMessage))
    else if count.None? || count.value <= 0 then Refused(Fail(QuantityMessage))
    else
      var c := s.claims;
      var eventId := body.eventId.value;
      if c.userId !in t.users || t.users[c.userId].eventId != Some(eventId) then Refused(Fail(NotInEventMessage))
      else
        match UserTeam(t, c.userId)
        case None => Refused(Fail(NoTeamMessage))
        case Some(teamId) =>
          if Finished(t, eventId) && !IsAdmin(c.role) then Refused(Fail(FinishedMessage))
          else Accepted(c, body.itemName.value, count.value, eventId, teamId)
  }

  /** The ENTRY_CREATE audit record. */
  function EntryLog(c: Claims, entryId: Id, itemName: string, count: int, teamId: Id, eventId: Id): LogRecord
  {
    LogRecord("ENTRY_CREATE",
              JObj([("entryId", JNum(entryId)), ("itemName", JStr(itemName)), ("count", JNum(count)),
                    ("teamId", JNum(teamId)), ("eventId", JNum(eventId))]),
              Some(c.userId), c.username, c.role, None)
  }

  /** The entry for an item worth `points` each, then the audit record. */
  function Insert(t: Tables, a: Check, name: string, itemId: Id, points: int): Outcome
    requires a.Accepted?
  {
    var (t1, entryId) := AddEntry(t, a.count, a.count * points, a.claims.userId, a.teamId, itemId);
    Outcome(AddLog(t1, EntryLog(a.claims, entryId, name, a.count, a.teamId, a.eventId)), Done(AddedMessage))
  }

  /**
   * The writes of an accepted request. Prisma rejects a name that is not a
   * string, and an item in an event that does not exist. Either error reaches
   * the handler's `catch`.
   */
  function Record(t: Tables, a: Check): Outcome
    requires a.Accepted?
  {
    if !a.itemName.JStr? then Outcome(t, ServerError)
    else
      var name := a.itemName.s;
      match FindItem(t.items, name, a.eventId)
      case Some(i) => Insert(t, a, name, t.items[i].id, t.items[i].defaultPoints)
      case None =>
        if a.eventId !in t.events then Outcome(t, ServerError)
        else
          var (t1, itemId) := AddItem(t, name, a.eventId, 1);
          Insert(t1, a, name, itemId, 1)
  }

  /** The request once its quantity has been read as `count`. */
  function Submit(t: Tables, s: Session, body: EntryBody, count: Option<int>): (o: Outcome)
    ensures !o.response.ok ==> o.tables == t
    ensures o.response.ok <==> o.response == Done(AddedMessage)
  {
    match Validate(t, s, body, count)
    case Refused(response) => Outcome(t, response)
    case Accepted(_, _, _, _, _) => Record(t, Validate(t, s, body, count))
  }

  /** The whole request. */
  function Add(t: Tables, s: Session, body: EntryBody): Outcome
  {
    Submit(t, s, body, Quantity(body))
  }

  // ---------------------------------------------------------------------
  // Properties
  // ---------------------------------------------------------------------

  /** A request whose item name, quantity or event is missing or falsy is refused. A quantity of 0 is one of these. */
  lemma AddNeedsFields(t: Tables, c: Claims, body: EntryBody, count: Option<int>)
    requires !Truthy(body.itemName) || !Truthy(body.quantity) || body.eventId.None?
    ensures Submit(t, Verified(c), body, count) == Outcome(t, Fail(RequiredMessage))
  {
  }

  /** A quantity that does not read as a positive integer is refused. */
  lemma AddNeedsPositiveCount(t: Tables, c: Claims, body: EntryBody, count: Option<int>)
    requires Truthy(body.itemName) && Truthy(body.quantity) && body.eventId.Some?
    requires count.None? || count.value <= 0
    ensures Submit(t, Verified(c), body, count) == Outcome(t, Fail(QuantityMessage))
  {
  }

  /** The caller must be a user whose event is the requested one. */
  lemma AddNeedsEventMember(t: Tables, c: Claims, body: EntryBody, count: Option<int>)
    requires Truthy(body.itemName) && Truthy(body.quantity) && body.eventId.Some?
    requires count.Some? && count.value > 0
    requires c.userId !in t.users || t.users[c.userId].eventId != body.eventId
    ensures Submit(t, Verified(c), body, count) == Outcome(t, Fail(NotInEventMessage))
  {
  }

  /**
   * Past the earlier checks, a user whose first membership leads to no team is
   * refused. Otherwise a finished event refuses the request exactly when the
   * caller is not an admin.
   */
  lemma AddTeamAndFinishedGates(t: Tables, c: Claims, body: EntryBody, count: Option<int>)
    requires Truthy(body.itemName) && Truthy(body.quantity) && body.eventId.Some?
    requires count.Some? && count.value > 0
    requires c.userId in t.users && t.users[c.userId].eventId == body.eventId
    ensures UserTeam(t, c.userId).None? ==> Submit(t, Verified(c), body, count) == Outcome(t, Fail(NoTeamMessage))
    ensures UserTeam(t, c.userId).Some? ==>
              (Submit(t, Verified(c), body, count) == Outcome(t, Fail(FinishedMessage))
               <==> Finished(t, body.eventId.value) && !IsAdmin(c.role))
  {
  }

  /** An existing item with the name is reused: no item is created and the points use its value. */
  lemma AddReusesItem(t: Tables, s: Session, body: EntryBody, count: Option<int>)
    requires Validate(t, s, body, count).Accepted?
    requires var a := Validate(t, s, body, count); a.itemName.JStr? && FindItem(t.items, a.itemName.s, a.eventId).Some?
    ensures var a := Validate(t, s, body, count);
            var i := FindItem(t.items, a.itemName.s, a.eventId).value;
            var o := Submit(t, s, body, count);
            && o.response == Done(AddedMessage)
            && o.tables.items == t.items
            && o.tables.entries == t.entries + [Entry(t.nextId, a.count, a.count * t.items[i].defaultPoints,
                                                      a.claims.userId, a.teamId, t.items[i].id)]
  {
  }

  /** Without such an item, one is created in the event worth one point, and the entry earns the count. */
  lemma AddCreatesItem(t: Tables, s: Session, body: EntryBody, count: Option<int>)
    requires Validate(t, s, body, count).Accepted?
    requires var a := Validate(t, s, body, count); a.itemName.JStr? && FindItem(t.items, a.itemName.s, a.eventId).None?
    ensures var a := Validate(t, s, body, count);
            var o := Submit(t, s, body, count);
            && (o.response.ok <==> a.eventId in t.events)
            && (o.response.ok ==>
                  && o.tables.items == t.items + [Item(t.nextId, a.itemName.s, a.eventId, 1)]
                  && o.tables.entries == t.entries + [Entry(t.nextId + 1, a.count, a.count, a.claims.userId, a.teamId, t.nextId)])
  {
  }

  /**
   * A successful request adds one entry and one log row and nothing else. The
   * entry has the parsed positive count and the caller's id. Its team is the
   * one the caller's first membership leads to. Its item carries the requested
   * name in the requested event, and its points are the count times that
   * item's points.
   */
  lemma AddRecordsEntry(t: Tables, s: Session, body: EntryBody, count: Option<int>)
    requires Submit(t, s, body, count).response.ok
    ensures var o := Submit(t, s, body, count);
            var a := Validate(t, s, body, count);
            && a.Accepted? && a.itemName.JStr?
            && |o.tables.entries| == |t.entries| + 1 && o.tables.entries[..|t.entries|] == t.entries
            && var e := o.tables.entries[|t.entries|];
               && e.count == a.count > 0
               && count == Some(e.count)
               && s == Verified(a.claims) && e.userId == a.claims.userId
               && UserTeam(t, e.userId) == Some(e.teamId)
               && (exists j :: 0 <= j < |o.tables.items| && o.tables.items[j].id == e.itemId
                                && o.tables.items[j].name == a.itemName.s
                                && o.tables.items[j].eventId == a.eventId
                                && e.pointsAwarded == e.count * o.tables.items[j].defaultPoints)
               && o.tables.logs == t.logs + [EntryLog(a.claims, e.id, a.itemName.s, e.count, e.teamId, a.eventId)]
               && o.tables.users == t.users && o.tables.teams == t.teams && o.tables.members == t.members
               && o.tables.events == t.events && o.tables.participations == t.participations
  {
    var o := Submit(t, s, body, count);
    var a := Validate(t, s, body, count);
    var name := a.itemName.s;
    match FindItem(t.items, name, a.eventId)
    case Some(i) =>
      assert o.tables.items[i].id == t.items[i].id;
    case None =>
      assert o.tables.items[|t.items|] == Item(t.nextId, name, a.eventId, 1);
  }

  // ---------------------------------------------------------------------
  // Handler
  // ---------------------------------------------------------------------

  /** `POST` against the database: the checks, then the item lookup or creation, the entry and the log. */
  method HandleAdd(db: Store.Db, s: Session, body: EntryBody) returns (resp: Response)
    modifies db
    ensures Outcome(db.Tables(), resp) == Add(old(db.Tables()), s, body)
  {
    var a := Validate(db.Tables(), s, body, Quantity(body));
    if a.Refused? {
      return a.response;
    }
    if !a.itemName.JStr? {
      return ServerError;
    }
    var name := a.itemName.s;
    var itemId: Id;
    var points: int;
    match FindItem(db.items, name, a.eventId) {
      case Some(i) =>
        itemId, points := db.items[i].id, db.items[i].defaultPoints;
      case None =>
        if a.eventId !in db.events {
          return ServerError;
        }
        itemId := db.CreateItem(name, a.eventId, 1);
        points := 1;
    }
    var entryId := db.CreateEntry(a.count, a.count * points, a.claims.userId, a.teamId, itemId);
    db.Log(EntryLog(a.claims, entryId, name, a.count, a.teamId, a.eventId));
    resp := Done(AddedMessage);
  }
}
