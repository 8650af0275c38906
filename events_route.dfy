/**
 * `/api/events`, open to SUPER_ADMIN only. `GET` lists every event newest
 * first with its team and user counts, adding a `participants` count equal to
 * the user count. `POST` creates an event with a unique slug and logs it.
 */
module EventsRoute {
  import opened Wrappers
  import opened Json
  import opened Schema
  import Store
  import Sorting

  const SlugTakenMessage: string := "Slug already taken"
  const RequiredMessage: string := "Name and Slug are required"
  const CreateForbiddenMessage: string := "Forbidden: Only Super Admins can create events"
  const CreatedMessage: string := "Event created successfully"
  const Upcoming: string := "UPCOMING"

  // ---------------------------------------------------------------------
  // GET
  // ---------------------------------------------------------------------

  /** One listed event with its `_count` and the creator's username. */
  datatype EventListRow = EventListRow(
    id: Id,
    event: Event,
    teams: nat,
    users: nat,
    participants: nat,
    createdBy: Option<string>)

  /** `_count.teams`: the teams of the event. */
  function TeamCount(t: Tables, id: Id): nat
  {
    |set k | k in t.teams && t.teams[k].eventId == id|
  }

  /** `_count.users`: the users linked to the event. */
  function UserCount(t: Tables, id: Id): nat
  {
    |set k | k in t.users && id in t.users[k].events|
  }

  /** The `createdByUser` relation, when the creator's row still exists. */
  function CreatorName(t: Tables, e: Event): Option<string>
  {
    if e.createdByUserId.Some? && e.createdByUserId.value in t.users then Some(t.users[e.createdByUserId.value].username)
    else None
  }

  /** A row of `findMany`, with `participants` added next to the counts it copies. */
  function EventRow(t: Tables, id: Id): (r: EventListRow)
    requires id in t.events
  {
    var users := UserCount(t, id);
    EventListRow(id, t.events[id], TeamCount(t, id), users, users, CreatorName(t, t.events[id]))
  }

  /** The listed event ids, newest (largest) first. */
  function ListedIds(t: Tables): (ids: seq<Id>)
    ensures forall i :: 0 <= i < |ids| ==> ids[i] in t.events
  {
    var ids := Sorting.Descending(t.events.Keys, t.nextId);
    assert forall i :: 0 <= i < |ids| ==> ids[i] in ids;
    ids
  }

  /** `GET`. */
  function List(t: Tables, s: Session): (Response, seq<EventListRow>)
  {
    if s.NoCookie? then (Fail("Unauthorized"), [])
    else if s.Invalid? || s.claims.role != SuperAdmin then (Fail("Forbidden"), [])
    else
      var ids := ListedIds(t);
      (Done("Events fetched successfully"), seq(|ids|, i requires 0 <= i < |ids| => EventRow(t, ids[i])))
  }

  // ---------------------------------------------------------------------
  // POST
  // ---------------------------------------------------------------------

  /** The body's fields; `None` is an absent or null field. */
  datatype EventBody = EventBody(
    name: Option<string>,
    slug: Option<string>,
    startDate: Option<string>,
    endDate: Option<string>,
    status: Option<string>)

  /** A truthy string field. */
  predicate Given(v: Option<string>)
  {
    v.Some? && v.value != ""
  }

  /** `event.findUnique({ where: { slug } })` finds a row. */
  predicate SlugTaken(t: Tables, slug: string)
  {
    exists k :: k in t.events && t.events[k].slug == slug
  }

  /** `value || fallback` on an optional string field. */
  function OrElse(v: Option<string>, fallback: string): (r: string)
    ensures Given(v) ==> r == v.value
    ensures !Given(v) ==> r == fallback
  {
    if Given(v) then v.value else fallback
  }

  /** `date ? new Date(date) : null`; the date text is kept as given. */
  function DateOrNull(v: Option<string>): (r: Option<string>)
    ensures Given(v) ==> r == v
    ensures !Given(v) ==> r == None
  {
    if Given(v) then v else None
  }

  /** The row `event.create` inserts. */
  function NewEvent(c: Claims, body: EventBody): Event
    requires Given(body.name) && Given(body.slug)
  {
    Event(body.name.value, body.slug.value, OrElse(body.status, Upcoming),
          DateOrNull(body.startDate), DateOrNull(body.endDate), Some(c.userId))
  }

  function CreateLog(c: Claims, id: Id, e: Event): LogRecord
  {
    LogRecord("EVENT_CREATE", JObj([("eventId", JNum(id)), ("eventName", JStr(e.name)), ("eventSlug", JStr(e.slug))]),
              Some(c.userId), c.username, c.role, None)
  }

  /**
   * `POST`. The creator column refers to a user row, so a caller whose row
   * is gone makes `event.create` throw.
   */
  function Create(t: Tables, s: Session, body: EventBody): Outcome
  {
    if s.NoCookie? then Outcome(t, Fail("Unauthorized"))
    else if s.Invalid? || s.claims.role != SuperAdmin then Outcome(t, Fail(CreateForbiddenMessage))
    else if !Given(body.name) || !Given(body.slug) then Outcome(t, Fail(RequiredMessage))
    else if SlugTaken(t, body.slug.value) then Outcome(t, Fail(SlugTakenMessage))
    else if s.claims.userId !in t.users then Outcome(t, ServerError)
    else
      var e := NewEvent(s.claims, body);
      var (t1, id) := AddEvent(t, e);
      Outcome(AddLog(t1, CreateLog(s.claims, id, e)), Done(CreatedMessage))
  }

  // ---------------------------------------------------------------------
  // Properties
  // ---------------------------------------------------------------------

  /** Only a SUPER_ADMIN gets the list. */
  lemma ListNeedsSuperAdmin(t: Tables, s: Session)
    requires !s.Verified? || s.claims.role != SuperAdmin
    ensures !List(t, s).0.ok && List(t, s).1 == []
  {
  }

  /**
   * Every listed row is an existing event. Each row carries that event's
   * team and user counts and a `participants` count equal to the user count.
   * The rows come newest first.
   */
  lemma ListSpec(t: Tables, s: Session)
    ensures var rows := List(t, s).1;
            && (forall i :: 0 <= i < |rows| ==>
                  && rows[i].id in t.events && rows[i].event == t.events[rows[i].id]
                  && rows[i].participants == rows[i].users == UserCount(t, rows[i].id)
                  && rows[i].teams == TeamCount(t, rows[i].id))
            && (forall i, j :: 0 <= i < j < |rows| ==> rows[i].id > rows[j].id)
  {
  }

  /** A SUPER_ADMIN sees every event. */
  lemma ListComplete(t: Tables, s: Session, k: Id)
    requires s.Verified? && s.claims.role == SuperAdmin && IdsFresh(t) && k in t.events
    ensures exists i :: 0 <= i < |List(t, s).1| && List(t, s).1[i] == EventRow(t, k)
  {
    var ids := ListedIds(t);
    assert k in ids;
    var i :| 0 <= i < |ids| && ids[i] == k;
    assert List(t, s).1[i] == EventRow(t, k);
  }

  /** Only a SUPER_ADMIN creates events, and a refusal writes nothing. */
  lemma CreateNeedsSuperAdmin(t: Tables, s: Session, body: EventBody)
    requires s.Verified? && s.claims.role != SuperAdmin
    ensures Create(t, s, body) == Outcome(t, Fail(CreateForbiddenMessage))
  {
  }

  /** A missing name or slug is refused. */
  lemma CreateNeedsNameAndSlug(t: Tables, c: Claims, body: EventBody)
    requires c.role == SuperAdmin && (!Given(body.name) || !Given(body.slug))
    ensures Create(t, Verified(c), body) == Outcome(t, Fail(RequiredMessage))
  {
  }

  /** A slug some event already has is refused and no event is created. */
  lemma CreateSlugTaken(t: Tables, c: Claims, body: EventBody)
    requires c.role == SuperAdmin && Given(body.name) && Given(body.slug) && SlugTaken(t, body.slug.value)
    ensures Create(t, Verified(c), body) == Outcome(t, Fail(SlugTakenMessage))
  {
  }

  /**
   * A successful request adds exactly one event under a fresh id. It has the
   * given name and slug and the given status, or UPCOMING when none is given.
   * Given dates are kept, absent dates are null, and the creator is the caller. One log row is
   * written.
   */
  lemma CreateDefaults(t: Tables, s: Session, body: EventBody)
    requires Create(t, s, body).response.ok
    ensures var o := Create(t, s, body);
            && s.Verified? && s.claims.role == SuperAdmin && Given(body.name) && Given(body.slug)
            && !SlugTaken(t, body.slug.value)
            && o.tables.events == t.events[t.nextId := o.tables.events[t.nextId]]
            && var e := o.tables.events[t.nextId];
               && e.name == body.name.value && e.slug == body.slug.value
               && e.status == (if Given(body.status) then body.status.value else Upcoming)
               && e.startDate == (if Given(body.startDate) then body.startDate else None)
               && e.endDate == (if Given(body.endDate) then body.endDate else None)
               && e.createdByUserId == Some(s.claims.userId)
               && o.tables.logs == t.logs + [CreateLog(s.claims, t.nextId, e)]
               && o.tables == t.(events := o.tables.events, logs := o.tables.logs, nextId := t.nextId + 1)
  {
  }

  /** No two events share a slug. */
  predicate SlugsUnique(t: Tables)
  {
    forall a, b :: a in t.events && b in t.events && t.events[a].slug == t.events[b].slug ==> a == b
  }

  /** Creating events keeps slugs unique, given that ids are fresh. */
  lemma CreateKeepsSlugsUnique(t: Tables, s: Session, body: EventBody)
    requires SlugsUnique(t) && IdsFresh(t)
    ensures SlugsUnique(Create(t, s, body).tables)
  {
    if Create(t, s, body).response.ok {
      CreateDefaults(t, s, body);
    }
  }

  // ---------------------------------------------------------------------
  // Handler
  // ---------------------------------------------------------------------

  /** `POST` against the database. */
  method HandleCreate(db: Store.Db, s: Session, body: EventBody) returns (resp: Response)
    modifies db
    ensures Outcome(db.Tables(), resp) == Create(old(db.Tables()), s, body)
  {
    if s.NoCookie? {
      return Fail("Unauthorized");
    }
    if s.Invalid? || s.claims.role != SuperAdmin {
      return Fail(CreateForbiddenMessage);
    }
    if !Given(body.name) || !Given(body.slug) {
      return Fail(RequiredMessage);
    }
    if SlugTaken(db.Tables(), body.slug.value) {
      return Fail(SlugTakenMessage);
    }
    if s.claims.userId !in db.users {
      return ServerError;
    }
    var e := NewEvent(s.claims, body);
    var id := db.CreateEvent(e);
    db.Log(CreateLog(s.claims, id, e));
    resp := Done(CreatedMessage);
  }
}
