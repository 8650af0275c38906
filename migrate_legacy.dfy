/**
 * `POST /api/admin/migrate/legacy-data`, open to SUPER_ADMIN only: a backfill
 * that gives every (user, linked event) pair a participation row. A pair
 * that already has one keeps it as it is. A new row starts with the welcome
 * screen not yet seen.
 *
 * Each pair is one upsert. An upsert the database refuses adds a line to
 * `errors` and the loop goes on. Every upsert that goes through is counted,
 * including those that found a row already there. `errors` is left out of the
 * response when it is empty.
 */
module MigrateLegacy {
  import opened Wrappers
  import opened Schema
  import Store
  import Sorting
  import Lists
  import Text

  /** `user.findMany({ include: { events: true } })`: every user, oldest first. */
  function AllUsers(t: Tables): (ids: seq<Id>)
    ensures forall k :: k in ids <==> k in t.users && k < t.nextId
  {
    Sorting.Ascending(t.users.Keys, t.nextId)
  }

  /** The user's `events` relation as `include` loads it: the linked events that exist, in link order. */
  function LegacyEvents(t: Tables, u: Id): (evs: seq<Id>)
    requires u in t.users
    ensures forall e :: e in evs <==> e in t.users[u].events && e in t.events
  {
    Lists.Filter(t.users[u].events, (e: Id) => e in t.events)
  }

  /**
   * What the database does with the upsert of a (user id, event id) pair:
   * `None` when it goes through, else the message of the error it throws.
   */
  type Failures = (Id, Id) -> Option<string>

  /** The `errors` line of a refused upsert. */
  function ErrorText(username: string, eventName: string, message: string): string
  {
    "Failed for user " + username + " event " + eventName + ": " + message
  }

  function CompleteMessage(count: nat): string
  {
    "Legacy migration complete. " + Text.NatToString(count) + " participation records created."
  }

  /** `eventParticipant.upsert` with `create: { hasSeenWelcome: false }` and `update: {}`. */
  function Upsert(t: Tables, u: Id, e: Id): (r: Tables)
    ensures r == t.(participations := r.participations)
    ensures (u, e) in r.participations
    ensures forall p :: p in t.participations ==> p in r.participations && r.participations[p] == t.participations[p]
    ensures forall p :: p in r.participations && p !in t.participations ==> p == (u, e) && !r.participations[p]
  {
    if (u, e) in t.participations then t else t.(participations := t.participations[(u, e) := false])
  }

  /** The loop state: the tables, `migratedCount` and `errors`. */
  datatype Tally = Tally(tables: Tables, count: nat, errors: seq<string>)

  /** One upsert: counted when it goes through, reported when the database refuses it. */
  function Attempt(snap: Tables, u: Id, e: Id, fail: Failures, acc: Tally): Tally
    requires u in snap.users && e in snap.events
  {
    match fail(u, e)
    case Some(msg) => acc.(errors := acc.errors + [ErrorText(snap.users[u].username, snap.events[e].name, msg)])
    case None => acc.(tables := Upsert(acc.tables, u, e), count := acc.count + 1)
  }

  /** The inner loop over one user's legacy events. */
  function UpsertEvents(snap: Tables, u: Id, events: seq<Id>, fail: Failures, acc: Tally): Tally
    requires u in snap.users && forall e :: e in events ==> e in snap.events
    decreases |events|
  {
    if events == [] then acc
    else
      assert forall e :: e in events[1..] ==> e in events;
      UpsertEvents(snap, u, events[1..], fail, Attempt(snap, u, events[0], fail, acc))
  }

  /** The outer loop over users, reading names and events from `snap`, the rows `findMany` returned. */
  function UpsertUsers(snap: Tables, users: seq<Id>, fail: Failures, acc: Tally): Tally
    requires forall k :: k in users ==> k in snap.users
    decreases |users|
  {
    if users == [] then acc
    else
      assert forall k :: k in users[1..] ==> k in users;
      UpsertUsers(snap, users[1..], fail, UpsertEvents(snap, users[0], LegacyEvents(snap, users[0]), fail, acc))
  }

  /** The response and the `errors` field, `None` where it is left out. */
  datatype Report = Report(outcome: Outcome, errors: Option<seq<string>>)

  /** The whole request. */
  function Legacy(t: Tables, s: Session, fail: Failures): Report
  {
    if s.NoCookie? then Report(Outcome(t, Fail("Unauthorized")), None)
    else if s.Invalid? || s.claims.role != SuperAdmin then Report(Outcome(t, Fail("Forbidden")), None)
    else
      var r := UpsertUsers(t, AllUsers(t), fail, Tally(t, 0, []));
      Report(Outcome(r.tables, Done(CompleteMessage(r.count))), if r.errors == [] then None else Some(r.errors))
  }

  // ---------------------------------------------------------------------
  // Reference: the pairs the loops visit
  // ---------------------------------------------------------------------

  /** The (user, event) pairs of one user, in event order. */
  function UserPairs(u: Id, events: seq<Id>): seq<(Id, Id)>
  {
    Lists.Map(events, (e: Id) => (u, e))
  }

  /** Every (user, legacy event) pair of `users`, in loop order. */
  function Pairs(snap: Tables, users: seq<Id>): seq<(Id, Id)>
    requires forall k :: k in users ==> k in snap.users
    decreases |users|
  {
    if users == [] then []
    else
      assert forall k :: k in users[1..] ==> k in users;
      UserPairs(users[0], LegacyEvents(snap, users[0])) + Pairs(snap, users[1..])
  }

  /** The upsert of a pair goes through. */
  function Ok(fail: Failures): ((Id, Id)) -> bool
  {
    (p: (Id, Id)) => fail(p.0, p.1).None?
  }

  /** The database refuses the upsert of a pair. */
  function Refused(fail: Failures): ((Id, Id)) -> bool
  {
    (p: (Id, Id)) => fail(p.0, p.1).Some?
  }

  /** The `errors` lines of the refused pairs of `ps`, in order. */
  function Messages(snap: Tables, fail: Failures, ps: seq<(Id, Id)>): seq<string>
    decreases |ps|
  {
    if ps == [] then []
    else
      var p := ps[0];
      var line := if p.0 in snap.users && p.1 in snap.events && fail(p.0, p.1).Some? then
                    [ErrorText(snap.users[p.0].username, snap.events[p.1].name, fail(p.0, p.1).value)]
                  else [];
      line + Messages(snap, fail, ps[1..])
  }

  // ---------------------------------------------------------------------
  // Properties
  // ---------------------------------------------------------------------

  /** Only a SUPER_ADMIN runs the backfill; anyone else changes nothing. */
  lemma LegacyNeedsSuperAdmin(t: Tables, c: Claims, fail: Failures)
    requires c.role != SuperAdmin
    ensures Legacy(t, Verified(c), fail) == Report(Outcome(t, Fail("Forbidden")), None)
  {
  }

  /** The invariant of the loops: only participation rows are added, existing ones stay, new ones are unseen. */
  predicate Keeps(t: Tables, r: Tables)
  {
    && r == t.(participations := r.participations)
    && (forall p :: p in t.participations ==> p in r.participations && r.participations[p] == t.participations[p])
    && (forall p :: p in r.participations && p !in t.participations ==> !r.participations[p])
  }

  lemma UserPairsCons(u: Id, events: seq<Id>)
    requires events != []
    ensures UserPairs(u, events) == [(u, events[0])] + UserPairs(u, events[1..])
  {
    assert UserPairs(u, events)[1..] == UserPairs(u, events[1..]);
  }

  /** The inner loop keeps the invariant and adds rows only for its own pairs. */
  lemma {:induction false} EventsKeeps(snap: Tables, u: Id, events: seq<Id>, fail: Failures, acc: Tally)
    requires u in snap.users && forall e :: e in events ==> e in snap.events
    ensures var r := UpsertEvents(snap, u, events, fail, acc);
            && Keeps(acc.tables, r.tables)
            && forall p :: p in r.tables.participations && p !in acc.tables.participations ==> p in UserPairs(u, events)
    decreases |events|
  {
    if events != [] {
      assert forall e :: e in events[1..] ==> e in events;
      var a1 := Attempt(snap, u, events[0], fail, acc);
      EventsKeeps(snap, u, events[1..], fail, a1);
      UserPairsCons(u, events);
    }
  }

  /** After the inner loop, every pair of it whose upsert went through has a row. */
  lemma {:induction false} EventsCover(snap: Tables, u: Id, events: seq<Id>, fail: Failures, acc: Tally)
    requires u in snap.users && forall e :: e in events ==> e in snap.events
    ensures var r := UpsertEvents(snap, u, events, fail, acc);
            forall p :: p in UserPairs(u, events) && Ok(fail)(p) ==> p in r.tables.participations
    decreases |events|
  {
    if events != [] {
      assert forall e :: e in events[1..] ==> e in events;
      var a1 := Attempt(snap, u, events[0], fail, acc);
      EventsCover(snap, u, events[1..], fail, a1);
      EventsKeeps(snap, u, events[1..], fail, a1);
      UserPairsCons(u, events);
    }
  }

  lemma {:induction false} EventsCount(snap: Tables, u: Id, events: seq<Id>, fail: Failures, acc: Tally)
    requires u in snap.users && forall e :: e in events ==> e in snap.events
    ensures UpsertEvents(snap, u, events, fail, acc).count == acc.count + |Lists.Filter(UserPairs(u, events), Ok(fail))|
    decreases |events|
  {
    if events != [] {
      assert forall e :: e in events[1..] ==> e in events;
      var a1 := Attempt(snap, u, events[0], fail, acc);
      EventsCount(snap, u, events[1..], fail, a1);
      UserPairsCons(u, events);
    }
  }

  lemma {:induction false} EventsErrors(snap: Tables, u: Id, events: seq<Id>, fail: Failures, acc: Tally)
    requires u in snap.users && forall e :: e in events ==> e in snap.events
    ensures UpsertEvents(snap, u, events, fail, acc).errors == acc.errors + Messages(snap, fail, UserPairs(u, events))
    decreases |events|
  {
    if events != [] {
      assert forall e :: e in events[1..] ==> e in events;
      var a1 := Attempt(snap, u, events[0], fail, acc);
      EventsErrors(snap, u, events[1..], fail, a1);
      UserPairsCons(u, events);
    }
  }


  /** The outer loop keeps the invariant and adds rows only for the pairs of `users`. */
  lemma {:induction false} UsersKeeps(snap: Tables, users: seq<Id>, fail: Failures, acc: Tally)
    requires forall k :: k in users ==> k in snap.users
    ensures var r := UpsertUsers(snap, users, fail, acc);
            && Keeps(acc.tables, r.tables)
            && forall p :: p in r.tables.participations && p !in acc.tables.participations ==> p in Pairs(snap, users)
    decreases |users|
  {
    if users != [] {
      assert forall k :: k in users[1..] ==> k in users;
      var a1 := UpsertEvents(snap, users[0], LegacyEvents(snap, users[0]), fail, acc);
      EventsKeeps(snap, users[0], LegacyEvents(snap, users[0]), fail, acc);
      UsersKeeps(snap, users[1..], fail, a1);
    }
  }

  /** After the outer loop, every pair whose upsert went through has a row. */
  lemma {:induction false} UsersCover(snap: Tables, users: seq<Id>, fail: Failures, acc: Tally)
    requires forall k :: k in users ==> k in snap.users
    ensures var r := UpsertUsers(snap, users, fail, acc);
            forall p :: p in Pairs(snap, users) && Ok(fail)(p) ==> p in r.tables.participations
    decreases |users|
  {
    if users != [] {
      assert forall k :: k in users[1..] ==> k in users;
      var a1 := UpsertEvents(snap, users[0], LegacyEvents(snap, users[0]), fail, acc);
      EventsCover(snap, users[0], LegacyEvents(snap, users[0]), fail, acc);
      UsersCover(snap, users[1..], fail, a1);
      UsersKeeps(snap, users[1..], fail, a1);
    }
  }

  lemma {:induction false} MessagesAppend(snap: Tables, fail: Failures, a: seq<(Id, Id)>, b: seq<(Id, Id)>)
    ensures Messages(snap, fail, a + b) == Messages(snap, fail, a) + Messages(snap, fail, b)
    decreases |a|
  {
    if a == [] {
      assert a + b == b;
    } else {
      assert (a + b)[0] == a[0];
      assert (a + b)[1..] == a[1..] + b;
      MessagesAppend(snap, fail, a[1..], b);
    }
  }

  /**
   * Over pairs of existing users and events, there is one line per refused
   * pair, so there are none exactly when every upsert goes through.
   */
  lemma {:induction false} MessagesRefused(snap: Tables, fail: Failures, ps: seq<(Id, Id)>)
    requires forall p :: p in ps ==> p.0 in snap.users && p.1 in snap.events
    ensures |Messages(snap, fail, ps)| == |Lists.Filter(ps, Refused(fail))|
    ensures Messages(snap, fail, ps) == [] <==> forall p :: p in ps ==> Ok(fail)(p)
    decreases |ps|
  {
    if ps != [] {
      assert forall p :: p in ps[1..] ==> p in ps;
      MessagesRefused(snap, fail, ps[1..]);
    }
  }

  /** The outer loop counts the pairs whose upsert goes through. */
  lemma {:induction false} UsersCount(snap: Tables, users: seq<Id>, fail: Failures, acc: Tally)
    requires forall k :: k in users ==> k in snap.users
    ensures UpsertUsers(snap, users, fail, acc).count == acc.count + |Lists.Filter(Pairs(snap, users), Ok(fail))|
    decreases |users|
  {
    if users != [] {
      assert forall k :: k in users[1..] ==> k in users;
      var u := users[0];
      var evs := LegacyEvents(snap, u);
      var a1 := UpsertEvents(snap, u, evs, fail, acc);
      EventsCount(snap, u, evs, fail, acc);
      UsersCount(snap, users[1..], fail, a1);
      Lists.FilterAppend(UserPairs(u, evs), Pairs(snap, users[1..]), Ok(fail));
    }
  }

  /** The outer loop reports the refused pairs, in loop order. */
  lemma {:induction false} UsersErrors(snap: Tables, users: seq<Id>, fail: Failures, acc: Tally)
    requires forall k :: k in users ==> k in snap.users
    ensures UpsertUsers(snap, users, fail, acc).errors == acc.errors + Messages(snap, fail, Pairs(snap, users))
    decreases |users|
  {
    if users != [] {
      assert forall k :: k in users[1..] ==> k in users;
      var u := users[0];
      var evs := LegacyEvents(snap, u);
      var a1 := UpsertEvents(snap, u, evs, fail, acc);
      var head := Messages(snap, fail, UserPairs(u, evs));
      var rest := Messages(snap, fail, Pairs(snap, users[1..]));
      assert a1.errors == acc.errors + head by {
        EventsErrors(snap, u, evs, fail, acc);
      }
      assert UpsertUsers(snap, users, fail, acc).errors == a1.errors + rest by {
        UsersErrors(snap, users[1..], fail, a1);
      }
      assert Messages(snap, fail, Pairs(snap, users)) == head + rest by {
        MessagesAppend(snap, fail, UserPairs(u, evs), Pairs(snap, users[1..]));
      }
    }
  }

  /** A pair of a table's users is a listed user and one of its linked events that exists. */
  lemma {:induction false} PairsOf(snap: Tables, users: seq<Id>, p: (Id, Id))
    requires forall k :: k in users ==> k in snap.users
    requires p in Pairs(snap, users)
    ensures p.0 in users && p.1 in snap.users[p.0].events && p.1 in snap.events
    decreases |users|
  {
    assert forall k :: k in users[1..] ==> k in users;
    var head := UserPairs(users[0], LegacyEvents(snap, users[0]));
    if p in head {
      var i :| 0 <= i < |head| && head[i] == p;
    } else {
      PairsOf(snap, users[1..], p);
    }
  }

  /** Every linked event that exists of a listed user is among the pairs. */
  lemma {:induction false} PairsCover(snap: Tables, users: seq<Id>, k: Id, e: Id)
    requires forall k :: k in users ==> k in snap.users
    requires k in users && e in snap.users[k].events && e in snap.events
    ensures (k, e) in Pairs(snap, users)
    decreases |users|
  {
    assert forall k :: k in users[1..] ==> k in users;
    if users[0] == k {
      var evs := LegacyEvents(snap, k);
      var i :| 0 <= i < |evs| && evs[i] == e;
      assert UserPairs(k, evs)[i] == (k, e);
    } else {
      PairsCover(snap, users[1..], k, e);
    }
  }

  /** The pairs depend only on the users and events. */
  lemma {:induction false} PairsSameLinks(a: Tables, b: Tables, users: seq<Id>)
    requires a.users == b.users && a.events == b.events
    requires forall k :: k in users ==> k in a.users
    ensures Pairs(a, users) == Pairs(b, users)
    decreases |users|
  {
    if users != [] {
      assert forall k :: k in users[1..] ==> k in users;
      PairsSameLinks(a, b, users[1..]);
    }
  }

  /**
   * A SUPER_ADMIN's run only adds participation rows, each for a user and a
   * linked event, with the welcome not yet seen; rows already there are left
   * as they were.
   */
  lemma LegacyKeeps(t: Tables, c: Claims, fail: Failures)
    requires c.role == SuperAdmin
    ensures var r := Legacy(t, Verified(c), fail).outcome.tables;
            && Keeps(t, r)
            && forall p :: p in r.participations && p !in t.participations ==>
                 p.0 in t.users && p.1 in t.users[p.0].events && p.1 in t.events
  {
    var users := AllUsers(t);
    UsersKeeps(t, users, fail, Tally(t, 0, []));
    var r := Legacy(t, Verified(c), fail).outcome.tables;
    forall p | p in r.participations && p !in t.participations
      ensures p.0 in t.users && p.1 in t.users[p.0].events && p.1 in t.events
    {
      PairsOf(t, users, p);
    }
  }

  /** After a SUPER_ADMIN's run, every user's linked event whose upsert went through has a row. */
  lemma LegacyCovers(t: Tables, c: Claims, fail: Failures, k: Id, e: Id)
    requires c.role == SuperAdmin
    requires k in t.users && k < t.nextId && e in t.users[k].events && e in t.events && fail(k, e).None?
    ensures (k, e) in Legacy(t, Verified(c), fail).outcome.tables.participations
  {
    var users := AllUsers(t);
    UsersCover(t, users, fail, Tally(t, 0, []));
    PairsCover(t, users, k, e);
  }

  /**
   * The count reported is that of the pairs whose upsert went through,
   * whether or not their row was new. `errors` has one line per refused pair,
   * in loop order, and is left out exactly when no upsert was refused.
   */
  lemma LegacyReport(t: Tables, c: Claims, fail: Failures)
    requires c.role == SuperAdmin
    ensures var o := Legacy(t, Verified(c), fail);
            var ps := Pairs(t, AllUsers(t));
            && o.outcome.response == Done(CompleteMessage(|Lists.Filter(ps, Ok(fail))|))
            && (o.errors.None? <==> forall p :: p in ps ==> Ok(fail)(p))
            && (o.errors.Some? ==> o.errors.value == Messages(t, fail, ps)
                                   && |o.errors.value| == |Lists.Filter(ps, Refused(fail))|)
  {
    var users := AllUsers(t);
    var ps := Pairs(t, users);
    UsersCount(t, users, fail, Tally(t, 0, []));
    UsersErrors(t, users, fail, Tally(t, 0, []));
    forall p | p in ps
      ensures p.0 in t.users && p.1 in t.events
    {
      PairsOf(t, users, p);
    }
    MessagesRefused(t, fail, ps);
  }

  /** When every pair already has a row, the loops change nothing. */
  lemma NothingToAdd(snap: Tables, users: seq<Id>, fail: Failures, acc: Tally)
    requires forall k :: k in users ==> k in snap.users
    requires forall p :: p in Pairs(snap, users) ==> p in acc.tables.participations
    ensures UpsertUsers(snap, users, fail, acc).tables == acc.tables
  {
    var r := UpsertUsers(snap, users, fail, acc).tables;
    UsersKeeps(snap, users, fail, acc);
    assert r.participations.Keys == acc.tables.participations.Keys;
    assert r.participations == acc.tables.participations;
  }

  /**
   * Running the backfill again after a run without errors adds no row and
   * changes none, whatever the database does this time. With the same
   * database behaviour it reports the same count again.
   */
  lemma LegacyIdempotent(t: Tables, c: Claims, fail: Failures, fail2: Failures)
    requires c.role == SuperAdmin && Legacy(t, Verified(c), fail).errors.None?
    ensures var o := Legacy(t, Verified(c), fail).outcome;
            && Legacy(o.tables, Verified(c), fail2).outcome.tables == o.tables
            && Legacy(o.tables, Verified(c), fail).outcome.response == o.response
  {
    var o := Legacy(t, Verified(c), fail).outcome;
    var users := AllUsers(t);
    var ps := Pairs(t, users);
    assert o.tables == UpsertUsers(t, users, fail, Tally(t, 0, [])).tables;
    assert forall p :: p in ps ==> Ok(fail)(p) by {
      LegacyReport(t, c, fail);
    }
    assert forall p :: p in ps ==> p in o.tables.participations by {
      UsersCover(t, users, fail, Tally(t, 0, []));
    }
    assert Keeps(t, o.tables) by {
      UsersKeeps(t, users, fail, Tally(t, 0, []));
    }
    assert AllUsers(o.tables) == users;
    assert Pairs(o.tables, users) == ps by {
      PairsSameLinks(t, o.tables, users);
    }
    assert UpsertUsers(o.tables, users, fail2, Tally(o.tables, 0, [])).tables == o.tables by {
      NothingToAdd(o.tables, users, fail2, Tally(o.tables, 0, []));
    }
    assert UpsertUsers(o.tables, users, fail, Tally(o.tables, 0, [])).count
        == UpsertUsers(t, users, fail, Tally(t, 0, [])).count by {
      UsersCount(o.tables, users, fail, Tally(o.tables, 0, []));
      UsersCount(t, users, fail, Tally(t, 0, []));
    }
  }

  // ---------------------------------------------------------------------
  // Handler
  // ---------------------------------------------------------------------

  /** The inner loop against the database: one upsert per legacy event. */
  method UpsertUser(db: Store.Db, snap: Tables, u: Id, events: seq<Id>, fail: Failures, count0: nat, errors0: seq<string>)
    returns (count: nat, errors: seq<string>)
    requires u in snap.users && forall e :: e in events ==> e in snap.events
    modifies db
    ensures Tally(db.Tables(), count, errors) == UpsertEvents(snap, u, events, fail, Tally(old(db.Tables()), count0, errors0))
  {
    count, errors := count0, errors0;
    ghost var final := UpsertEvents(snap, u, events, fail, Tally(db.Tables(), count, errors));
    var j := 0;
    while j < |events|
      invariant j <= |events|
      invariant final == UpsertEvents(snap, u, events[j..], fail, Tally(db.Tables(), count, errors))
    {
      assert events[j..][1..] == events[j + 1..];
      assert forall e :: e in events[j..] ==> e in events;
      var e := events[j];
      var failure := fail(u, e);
      if failure.Some? {
        errors := errors + [ErrorText(snap.users[u].username, snap.events[e].name, failure.value)];
      } else {
        if (u, e) !in db.participations {
          db.SetParticipation(u, e, false);
        }
        count := count + 1;
      }
      j := j + 1;
    }
  }

  /** `POST` against the database, with the two loops, `migratedCount` and `errors`. */
  method HandleLegacy(db: Store.Db, s: Session, fail: Failures) returns (resp: Response, errors: Option<seq<string>>)
    modifies db
    ensures Report(Outcome(db.Tables(), resp), errors) == Legacy(old(db.Tables()), s, fail)
  {
    if s.NoCookie? {
      return Fail("Unauthorized"), None;
    }
    if s.Invalid? || s.claims.role != SuperAdmin {
      return Fail("Forbidden"), None;
    }
    var snap := db.Tables();
    var users := AllUsers(snap);
    ghost var final := UpsertUsers(snap, users, fail, Tally(snap, 0, []));
    var migratedCount := 0;
    var errs: seq<string> := [];
    var i := 0;
    while i < |users|
      invariant i <= |users|
      invariant forall k :: k in users[i..] ==> k in snap.users
      invariant final == UpsertUsers(snap, users[i..], fail, Tally(db.Tables(), migratedCount, errs))
    {
      assert users[i..][1..] == users[i + 1..];
      assert forall k :: k in users[i + 1..] ==> k in users[i..];
      var u := users[i];
      var legacyEvents := LegacyEvents(snap, u);
      if legacyEvents == [] {
        i := i + 1;
        continue;
      }
      migratedCount, errs := UpsertUser(db, snap, u, legacyEvents, fail, migratedCount, errs);
      i := i + 1;
    }
    resp := Done(CompleteMessage(migratedCount));
    errors := if errs == [] then None else Some(errs);
  }
}
