/**
 * `POST /api/admin/migrate/teams`, open to SUPER_ADMIN only: a backfill that
 * gives every participant without a team one team per linked event. The team
 * is named after the participant, and the participant is its one member.
 * Participants that already have a membership, or have no linked events, are
 * skipped. The reported count is the number of participants backfilled, not
 * the number of teams.
 *
 * Each (participant, event) pair is its own transaction. A transaction that
 * throws (no free team public ID, or an event row that does not exist) is
 * rolled back. The throw ends the request with a server error, and the
 * transactions committed before it stay.
 */
module MigrateTeams {
  import opened Wrappers
  import opened Schema
  import Store
  import Sorting
  import Generators
  import Lists
  import Text

  /** `user.findMany({ where: { role: 'PARTICIPANT' } })`, oldest first. */
  function Participants(t: Tables): (ids: seq<Id>)
    ensures forall k :: k in ids <==> k in t.users && k < t.nextId && t.users[k].role == Participant
  {
    Sorting.Ascending((set k | k in t.users && t.users[k].role == Participant), t.nextId)
  }

  /** `user.memberships.length > 0`. */
  predicate HasTeam(t: Tables, userId: Id)
  {
    exists i :: 0 <= i < |t.members| && t.members[i].userId == userId
  }

  /** The loop body does not `continue` for this user: no membership, and at least one linked event. */
  predicate Eligible(snap: Tables, userId: Id)
  {
    userId in snap.users && !HasTeam(snap, userId) && snap.users[userId].events != []
  }

  /** The participants the backfill is for. */
  function EligibleUsers(t: Tables): seq<Id>
  {
    Lists.Filter(Participants(t), (k: Id) => Eligible(t, k))
  }

  function CompleteMessage(count: nat): string
  {
    "Migration complete. " + Text.NatToString(count) + " participants backfilled with teams."
  }

  /**
   * `generateUniquePublicId(tx, 'team')`: given the taken team public IDs and
   * the draws used so far, the ID or `None` where it throws, and the draws
   * used after it.
   */
  type Pick = (set<string>, nat) -> (Option<string>, nat)

  /** The generator on the process's `Math.random()` values. */
  function PickWith(draw: nat -> Generators.Unit): Pick
  {
    (taken: set<string>, drawn: nat) => Generators.PickPublicId(taken, draw, drawn, 0)
  }

  /** Where the loops are: the tables, the random draws used, and whether a transaction threw. */
  datatype Run = Run(tables: Tables, drawn: nat, failed: bool)

  /**
   * One transaction: a fresh team public ID, the team in the event named
   * after the user, and the user's membership in it. `None` when it throws.
   * Either way the draws stay used.
   */
  function TeamTx(t: Tables, userId: Id, name: string, eventId: Id, pick: Pick, drawn: nat)
    : (r: (Option<Tables>, nat))
  {
    var (publicId, next) := pick(TeamPublicIds(t), drawn);
    if publicId.None? || eventId !in t.events then (None, next)
    else
      var (t1, teamId) := AddTeam(t, Team(name, publicId.value, eventId, None));
      (Some(AddMembership(t1, userId, teamId).0), next)
  }

  /**
   * The inner loop over the user's events, from `events[0]` on. It stops at
   * the first transaction that throws. Only teams, memberships of this user
   * and the id counter change.
   */
  function Events(t: Tables, userId: Id, name: string, events: seq<Id>, pick: Pick, drawn: nat)
    : (r: Run)
    ensures r.tables.users == t.users && r.tables.events == t.events && r.tables.participations == t.participations
    ensures r.tables.items == t.items && r.tables.entries == t.entries && r.tables.logs == t.logs
    ensures t.members <= r.tables.members && t.nextId <= r.tables.nextId
    ensures forall i :: |t.members| <= i < |r.tables.members| ==> r.tables.members[i].userId == userId
    decreases |events|
  {
    if events == [] then Run(t, drawn, false)
    else
      var (t1, next) := TeamTx(t, userId, name, events[0], pick, drawn);
      if t1.None? then Run(t, next, true)
      else Events(t1.value, userId, name, events[1..], pick, next)
  }

  /** After one user: stop on a throw, else count the user and go on with `rest`. */
  function Next(snap: Tables, r: Run, rest: seq<Id>, pick: Pick, count: nat): (Run, nat)
    requires forall k :: k in rest ==> k in snap.users
    decreases |rest|, 1
  {
    if r.failed then (r, count) else Users(snap, r.tables, rest, pick, r.drawn, count + 1)
  }

  /**
   * The outer loop over `users`. Membership and events are read from `snap`,
   * the rows `findMany` returned before the loop.
   */
  function Users(snap: Tables, t: Tables, users: seq<Id>, pick: Pick, drawn: nat, count: nat)
    : (r: (Run, nat))
    requires forall k :: k in users ==> k in snap.users
    ensures r.0.tables == t.(teams := r.0.tables.teams, members := r.0.tables.members, nextId := r.0.tables.nextId)
    ensures t.members <= r.0.tables.members && t.nextId <= r.0.tables.nextId
    ensures forall i :: |t.members| <= i < |r.0.tables.members| ==>
              r.0.tables.members[i].userId in users && Eligible(snap, r.0.tables.members[i].userId)
    decreases |users|, 0
  {
    if users == [] then (Run(t, drawn, false), count)
    else
      var u := users[0];
      assert forall k :: k in users[1..] ==> k in users;
      if !Eligible(snap, u) then Users(snap, t, users[1..], pick, drawn, count)
      else Next(snap, Events(t, u, snap.users[u].username, snap.users[u].events, pick, drawn), users[1..], pick, count)
  }

  /** The whole request, with the draws used. */
  function Migrate(t: Tables, s: Session, draw: nat -> Generators.Unit, drawn: nat): (Outcome, nat)
  {
    if s.NoCookie? then (Outcome(t, Fail("Unauthorized")), drawn)
    else if s.Invalid? || s.claims.role != SuperAdmin then (Outcome(t, Fail("Forbidden")), drawn)
    else
      var (run, count) := Users(t, t, Participants(t), PickWith(draw), drawn, 0);
      (Outcome(run.tables, if run.failed then ServerError else Done(CompleteMessage(count))), run.drawn)
  }

  // ---------------------------------------------------------------------
  // Properties
  // ---------------------------------------------------------------------

  /** Only a SUPER_ADMIN runs the backfill; anyone else changes nothing and draws nothing. */
  lemma MigrateNeedsSuperAdmin(t: Tables, c: Claims, draw: nat -> Generators.Unit, drawn: nat)
    requires c.role != SuperAdmin
    ensures Migrate(t, Verified(c), draw, drawn) == (Outcome(t, Fail("Forbidden")), drawn)
  {
  }

  /** A transaction that goes through hands the rest of the events to the loop. */
  lemma EventsStep(t: Tables, userId: Id, name: string, events: seq<Id>, pick: Pick, drawn: nat)
    requires events != [] && TeamTx(t, userId, name, events[0], pick, drawn).0.Some?
    ensures var (t1, next) := TeamTx(t, userId, name, events[0], pick, drawn);
            Events(t, userId, name, events, pick, drawn) == Events(t1.value, userId, name, events[1..], pick, next)
  {
  }

  /** The memberships of `count` new teams for one user, when ids are handed out from `n` in pairs. */
  function NewMembers(n: Id, userId: Id, count: nat): (ms: seq<Membership>)
    ensures |ms| == count
    ensures forall i :: 0 <= i < count ==> ms[i] == Membership(n + 2 * i + 1, userId, n + 2 * i)
  {
    seq(count, i requires 0 <= i < count => Membership(n + 2 * i + 1, userId, n + 2 * i))
  }

  /** The first new membership followed by the rest. */
  lemma NewMembersCons(n: Id, userId: Id, count: nat)
    requires count > 0
    ensures NewMembers(n, userId, count) == [Membership(n + 1, userId, n)] + NewMembers(n + 2, userId, count - 1)
  {
    var a := NewMembers(n, userId, count);
    var b := [Membership(n + 1, userId, n)] + NewMembers(n + 2, userId, count - 1);
    forall i | 1 <= i < count ensures a[i] == b[i] {
      assert b[i] == NewMembers(n + 2, userId, count - 1)[i - 1];
    }
  }

  /**
   * A user that goes through without a throw gets one membership per linked
   * event, in event order, each in a team created for it. The teams and
   * memberships take consecutive fresh ids.
   */
  lemma {:induction false} EventsMembers(t: Tables, userId: Id, name: string, events: seq<Id>,
                                         pick: Pick, drawn: nat)
    requires !Events(t, userId, name, events, pick, drawn).failed
    ensures var r := Events(t, userId, name, events, pick, drawn).tables;
            && r.nextId == t.nextId + 2 * |events|
            && r.members == t.members + NewMembers(t.nextId, userId, |events|)
    decreases |events|
  {
    if events == [] {
      assert NewMembers(t.nextId, userId, 0) == [];
    } else {
      var (t1, next) := TeamTx(t, userId, name, events[0], pick, drawn);
      var e := Events(t1.value, userId, name, events[1..], pick, next);
      assert Events(t, userId, name, events, pick, drawn) == e by {
        EventsStep(t, userId, name, events, pick, drawn);
      }
      var m := Membership(t.nextId + 1, userId, t.nextId);
      var rest := NewMembers(t.nextId + 2, userId, |events| - 1);
      assert e.tables.nextId == t.nextId + 2 * |events| && e.tables.members == t1.value.members + rest by {
        EventsMembers(t1.value, userId, name, events[1..], pick, next);
      }
      assert e.tables.members == t.members + NewMembers(t.nextId, userId, |events|) by {
        assert t1.value.members == t.members + [m];
        NewMembersCons(t.nextId, userId, |events|);
        assert (t.members + [m]) + rest == t.members + ([m] + rest);
      }
    }
  }

  /** Teams that existed below the id counter are left as they were. */
  lemma {:induction false} EventsKeepTeams(t: Tables, userId: Id, name: string, events: seq<Id>, pick: Pick, drawn: nat)
    ensures var r := Events(t, userId, name, events, pick, drawn).tables;
            forall k :: k in t.teams && k < t.nextId ==> k in r.teams && r.teams[k] == t.teams[k]
    decreases |events|
  {
    if events != [] {
      var (t1, next) := TeamTx(t, userId, name, events[0], pick, drawn);
      if t1.Some? {
        EventsStep(t, userId, name, events, pick, drawn);
        EventsKeepTeams(t1.value, userId, name, events[1..], pick, next);
      }
    }
  }

  /**
   * The teams at ids `n`, `n + 2`, ... are named `name`, one per event of
   * `events` and in that event.
   */
  predicate TeamsFor(r: Tables, n: Id, name: string, events: seq<Id>)
  {
    forall i :: 0 <= i < |events| ==>
      n + 2 * i in r.teams && r.teams[n + 2 * i].name == name && r.teams[n + 2 * i].eventId == events[i]
  }

  /** The first team followed by the rest. */
  lemma TeamsForCons(r: Tables, n: Id, name: string, events: seq<Id>)
    requires events != [] && TeamsFor(r, n + 2, name, events[1..])
    requires n in r.teams && r.teams[n].name == name && r.teams[n].eventId == events[0]
    ensures TeamsFor(r, n, name, events)
  {
    forall i | 1 <= i < |events|
      ensures n + 2 * i in r.teams && r.teams[n + 2 * i].name == name && r.teams[n + 2 * i].eventId == events[i]
    {
      assert n + 2 + 2 * (i - 1) == n + 2 * i;
      assert events[1..][i - 1] == events[i];
    }
  }

  /** The team created for each linked event is named after the user and lies in that event. */
  lemma {:induction false} EventsTeams(t: Tables, userId: Id, name: string, events: seq<Id>,
                                       pick: Pick, drawn: nat)
    requires !Events(t, userId, name, events, pick, drawn).failed
    ensures TeamsFor(Events(t, userId, name, events, pick, drawn).tables, t.nextId, name, events)
    decreases |events|
  {
    if events != [] {
      var (t1, next) := TeamTx(t, userId, name, events[0], pick, drawn);
      EventsStep(t, userId, name, events, pick, drawn);
      EventsTeams(t1.value, userId, name, events[1..], pick, next);
      var e := Events(t1.value, userId, name, events[1..], pick, next).tables;
      EventsKeepTeams(t1.value, userId, name, events[1..], pick, next);
      assert t.nextId in t1.value.teams && t.nextId < t1.value.nextId;
      TeamsForCons(e, t.nextId, name, events);
    }
  }

  /** Once a user has a membership, adding rows after it keeps one. */
  lemma HasTeamGrows(t: Tables, r: Tables, userId: Id)
    requires HasTeam(t, userId) && t.members <= r.members
    ensures HasTeam(r, userId)
  {
    var i :| 0 <= i < |t.members| && t.members[i].userId == userId;
    assert r.members[i] == t.members[i];
  }

  /** A user whose events all go through has a membership afterwards. */
  lemma EventsCover(t: Tables, userId: Id, name: string, events: seq<Id>, pick: Pick, drawn: nat)
    requires events != [] && !Events(t, userId, name, events, pick, drawn).failed
    ensures HasTeam(Events(t, userId, name, events, pick, drawn).tables, userId)
  {
    EventsMembers(t, userId, name, events, pick, drawn);
    var r := Events(t, userId, name, events, pick, drawn).tables;
    assert r.members[|t.members|].userId == userId;
  }

  /** After a loop without a throw, every eligible user in it has a membership. */
  lemma {:induction false} UsersCover(snap: Tables, t: Tables, users: seq<Id>, pick: Pick,
                                      drawn: nat, count: nat)
    requires forall k :: k in users ==> k in snap.users
    requires !Users(snap, t, users, pick, drawn, count).0.failed
    ensures forall k :: k in users && Eligible(snap, k) ==> HasTeam(Users(snap, t, users, pick, drawn, count).0.tables, k)
    decreases |users|
  {
    if users != [] {
      var u := users[0];
      var final := Users(snap, t, users, pick, drawn, count).0.tables;
      assert forall k :: k in users[1..] ==> k in users;
      var t1 := t;
      var d1 := drawn;
      var c1 := count;
      if Eligible(snap, u) {
        var r := Events(t, u, snap.users[u].username, snap.users[u].events, pick, drawn);
        EventsCover(t, u, snap.users[u].username, snap.users[u].events, pick, drawn);
        t1, d1, c1 := r.tables, r.drawn, count + 1;
      }
      UsersCover(snap, t1, users[1..], pick, d1, c1);
      if Eligible(snap, u) {
        HasTeamGrows(t1, final, u);
      }
    }
  }

  /** The reported count is the number of eligible users in the loop. */
  lemma {:induction false} UsersCount(snap: Tables, t: Tables, users: seq<Id>, pick: Pick,
                                      drawn: nat, count: nat)
    requires forall k :: k in users ==> k in snap.users
    requires !Users(snap, t, users, pick, drawn, count).0.failed
    ensures Users(snap, t, users, pick, drawn, count).1 == count + |Lists.Filter(users, (k: Id) => Eligible(snap, k))|
    decreases |users|
  {
    if users != [] {
      var u := users[0];
      assert forall k :: k in users[1..] ==> k in users;
      if Eligible(snap, u) {
        var r := Events(t, u, snap.users[u].username, snap.users[u].events, pick, drawn);
        UsersCount(snap, r.tables, users[1..], pick, r.drawn, count + 1);
      } else {
        UsersCount(snap, t, users[1..], pick, drawn, count);
      }
    }
  }

  /** A loop over users none of whom is eligible changes nothing and counts nothing. */
  lemma {:induction false} UsersNoneEligible(snap: Tables, t: Tables, users: seq<Id>, pick: Pick,
                                             drawn: nat, count: nat)
    requires forall k :: k in users ==> k in snap.users && !Eligible(snap, k)
    ensures Users(snap, t, users, pick, drawn, count) == (Run(t, drawn, false), count)
    decreases |users|
  {
    if users != [] {
      assert forall k :: k in users[1..] ==> k in users;
      UsersNoneEligible(snap, t, users[1..], pick, drawn, count);
    }
  }

  /**
   * A backfill that completes reports the number of eligible participants.
   * Only teams and memberships are added. Each new membership belongs to a
   * participant that had none and has linked events, and with fresh ids every
   * such participant now has one.
   */
  lemma MigrateSuccess(t: Tables, s: Session, draw: nat -> Generators.Unit, drawn: nat)
    requires Migrate(t, s, draw, drawn).0.response.ok
    ensures var o := Migrate(t, s, draw, drawn).0;
            && s.Verified? && s.claims.role == SuperAdmin
            && o.response == Done(CompleteMessage(|EligibleUsers(t)|))
            && o.tables == t.(teams := o.tables.teams, members := o.tables.members, nextId := o.tables.nextId)
            && t.members <= o.tables.members
            && (forall i :: |t.members| <= i < |o.tables.members| ==>
                  var k := o.tables.members[i].userId;
                  k in t.users && t.users[k].role == Participant && !HasTeam(t, k) && t.users[k].events != [])
            && (IdsFresh(t) ==> forall k :: k in t.users && t.users[k].role == Participant && t.users[k].events != [] ==> HasTeam(o.tables, k))
  {
    var users := Participants(t);
    UsersCount(t, t, users, PickWith(draw), drawn, 0);
    UsersCover(t, t, users, PickWith(draw), drawn, 0);
    var o := Migrate(t, s, draw, drawn).0;
    forall k | IdsFresh(t) && k in t.users && t.users[k].role == Participant && t.users[k].events != []
      ensures HasTeam(o.tables, k)
    {
      if HasTeam(t, k) {
        HasTeamGrows(t, o.tables, k);
      }
    }
  }

  /**
   * With fresh ids, a second run after a completed one creates nothing and
   * reports zero participants.
   */
  lemma MigrateIdempotent(t: Tables, s: Session, draw: nat -> Generators.Unit, drawn: nat,
                          draw2: nat -> Generators.Unit, drawn2: nat)
    requires IdsFresh(t) && Migrate(t, s, draw, drawn).0.response.ok
    ensures var o := Migrate(t, s, draw, drawn).0;
            Migrate(o.tables, s, draw2, drawn2) == (Outcome(o.tables, Done(CompleteMessage(0))), drawn2)
  {
    MigrateSuccess(t, s, draw, drawn);
    var o := Migrate(t, s, draw, drawn).0.tables;
    var users := Participants(o);
    forall k | k in users ensures k in o.users && !Eligible(o, k) {
      assert k in t.users && t.users[k] == o.users[k];
    }
    UsersNoneEligible(o, o, users, PickWith(draw2), drawn2, 0);
  }

  // ---------------------------------------------------------------------
  // Handler
  // ---------------------------------------------------------------------

  /** The inner loop: one transaction per event, stopping at the first that throws. */
  method BackfillUser(db: Store.Db, rng: Generators.Entropy, u: Id, name: string, events: seq<Id>)
    returns (failed: bool)
    modifies db, rng
    ensures Run(db.Tables(), rng.drawn, failed) == Events(old(db.Tables()), u, name, events, PickWith(rng.oracle.draw), old(rng.drawn))
    ensures rng.bytesUsed == old(rng.bytesUsed)
  {
    var pick := PickWith(rng.oracle.draw);
    ghost var final := Events(db.Tables(), u, name, events, pick, rng.drawn);
    var j := 0;
    while j < |events|
      invariant j <= |events|
      invariant final == Events(db.Tables(), u, name, events[j..], pick, rng.drawn)
      invariant rng.bytesUsed == old(rng.bytesUsed)
    {
      assert events[j..][1..] == events[j + 1..];
      var publicId := rng.NewPublicId(TeamPublicIds(db.Tables()));
      if publicId.None? || events[j] !in db.events {
        return true;
      }
      var teamId := db.CreateTeam(Team(name, publicId.value, events[j], None));
      var membershipId := db.CreateMembership(u, teamId);
      j := j + 1;
    }
    return false;
  }

  /** `POST` against the database, with the two loops and `migratedCount`. */
  method HandleMigrate(db: Store.Db, rng: Generators.Entropy, s: Session) returns (resp: Response)
    modifies db, rng
    ensures (Outcome(db.Tables(), resp), rng.drawn) == Migrate(old(db.Tables()), s, rng.oracle.draw, old(rng.drawn))
    ensures rng.bytesUsed == old(rng.bytesUsed)
  {
    if s.NoCookie? {
      return Fail("Unauthorized");
    }
    if s.Invalid? || s.claims.role != SuperAdmin {
      return Fail("Forbidden");
    }
    var snap := db.Tables();
    var pick := PickWith(rng.oracle.draw);
    var users := Participants(snap);
    ghost var final := Users(snap, snap, users, pick, rng.drawn, 0);
    var migratedCount := 0;
    var i := 0;
    while i < |users|
      invariant i <= |users|
      invariant forall k :: k in users[i..] ==> k in snap.users
      invariant final == Users(snap, db.Tables(), users[i..], pick, rng.drawn, migratedCount)
      invariant rng.bytesUsed == old(rng.bytesUsed)
    {
      var u := users[i];
      assert users[i..][1..] == users[i + 1..];
      assert forall k :: k in users[i + 1..] ==> k in users[i..];
      if HasTeam(snap, u) {
        i := i + 1;
        continue;
      }
      var events := snap.users[u].events;
      if events == [] {
        i := i + 1;
        continue;
      }
      var name := snap.users[u].username;
      assert final == Next(snap, Events(db.Tables(), u, name, events, pick, rng.drawn), users[i + 1..], pick, migratedCount);
      var failed := BackfillUser(db, rng, u, name, events);
      if failed {
        return ServerError;
      }
      migratedCount := migratedCount + 1;
      i := i + 1;
    }
    resp := Done(CompleteMessage(migratedCount));
  }
}
