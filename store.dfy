/**
 * The Prisma client as the handlers use it: one field per table, changed in
 * place by one method per kind of write. Each method's new state is the
 * matching `Schema` function of the old state, so a handler that calls them
 * in sequence can be compared with the function that composes them.
 */
module Store {
  import opened Wrappers
  import opened Schema
  import Lists

  class Db {
    var users: map<Id, User>
    var events: map<Id, Event>
    var teams: map<Id, Team>
    var members: seq<Membership>
    var participations: map<(Id, Id), bool>
    var items: seq<Item>
    var entries: seq<Entry>
    var logs: seq<LogRecord>
    var nextId: Id

    /** The database as a value. */
    function Tables(): Tables
      reads this
    {
      Schema.Tables(users, events, teams, members, participations, items, entries, logs, nextId)
    }

    constructor (t: Schema.Tables)
      ensures Tables() == t
    {
      users, events, teams, members := t.users, t.events, t.teams, t.members;
      participations, items, entries, logs, nextId := t.participations, t.items, t.entries, t.logs, t.nextId;
    }

    /** Rolls a failed transaction back to the state it started from. */
    method Restore(t: Schema.Tables)
      modifies this
      ensures Tables() == t
    {
      users, events, teams, members := t.users, t.events, t.teams, t.members;
      participations, items, entries, logs, nextId := t.participations, t.items, t.entries, t.logs, t.nextId;
    }

    method CreateUser(u: User) returns (id: Id)
      modifies this
      ensures (Tables(), id) == AddUser(old(Tables()), u)
    {
      id := nextId;
      users := users[id := u];
      nextId := nextId + 1;
    }

    method CreateEvent(e: Event) returns (id: Id)
      modifies this
      ensures (Tables(), id) == AddEvent(old(Tables()), e)
    {
      id := nextId;
      events := events[id := e];
      nextId := nextId + 1;
    }

    method CreateTeam(team: Team) returns (id: Id)
      modifies this
      ensures (Tables(), id) == AddTeam(old(Tables()), team)
    {
      id := nextId;
      teams := teams[id := team];
      nextId := nextId + 1;
    }

    method CreateMembership(userId: Id, teamId: Id) returns (id: Id)
      modifies this
      ensures (Tables(), id) == AddMembership(old(Tables()), userId, teamId)
    {
      id := nextId;
      members := members + [Membership(id, userId, teamId)];
      nextId := nextId + 1;
    }

    method CreateItem(name: string, eventId: Id, defaultPoints: int) returns (id: Id)
      modifies this
      ensures (Tables(), id) == AddItem(old(Tables()), name, eventId, defaultPoints)
    {
      id := nextId;
      items := items + [Item(id, name, eventId, defaultPoints)];
      nextId := nextId + 1;
    }

    method CreateEntry(count: int, points: int, userId: Id, teamId: Id, itemId: Id) returns (id: Id)
      modifies this
      ensures (Tables(), id) == AddEntry(old(Tables()), count, points, userId, teamId, itemId)
    {
      id := nextId;
      entries := entries + [Entry(id, count, points, userId, teamId, itemId)];
      nextId := nextId + 1;
    }

    /** `logAction`: the row is appended; a failure to write it is swallowed and never reaches the caller. */
    method Log(r: LogRecord)
      modifies this
      ensures Tables() == AddLog(old(Tables()), r)
    {
      logs := logs + [r];
    }

    method UpdateMembershipTeam(i: nat, teamId: Id)
      requires i < |members|
      modifies this
      ensures Tables() == MoveMembership(old(Tables()), i, teamId)
    {
      members := members[i := members[i].(teamId := teamId)];
    }

    method UpdateTeam(id: Id, team: Team)
      modifies this
      ensures Tables() == old(Tables()).(teams := old(teams)[id := team])
    {
      teams := teams[id := team];
    }

    method UpdateUser(id: Id, u: User)
      modifies this
      ensures Tables() == old(Tables()).(users := old(users)[id := u])
    {
      users := users[id := u];
    }

    method SetParticipation(userId: Id, eventId: Id, hasSeenWelcome: bool)
      modifies this
      ensures Tables() == old(Tables()).(participations := old(participations)[(userId, eventId) := hasSeenWelcome])
    {
      participations := participations[(userId, eventId) := hasSeenWelcome];
    }

    method UpdateWelcome(ids: set<Id>, value: bool)
      modifies this
      ensures Tables() == SetWelcome(old(Tables()), ids, value)
    {
      users := map k | k in users :: if k in ids then users[k].(hasSeenWelcome := value) else users[k];
    }

    method DeleteTeams(ids: set<Id>)
      modifies this
      ensures Tables() == Schema.DeleteTeams(old(Tables()), ids)
    {
      teams := map k | k in teams && k !in ids :: teams[k];
      members := Lists.Filter(members, (m: Membership) => m.teamId !in ids);
      entries := Lists.Filter(entries, (e: Entry) => e.teamId !in ids);
    }

    method DeleteUsers(ids: set<Id>)
      modifies this
      ensures Tables() == Schema.DeleteUsers(old(Tables()), ids)
    {
      users := map k | k in users && k !in ids :: users[k];
      members := Lists.Filter(members, (m: Membership) => m.userId !in ids);
      participations := map p | p in participations && p.0 !in ids :: participations[p];
      entries := Lists.Filter(entries, (e: Entry) => e.userId !in ids);
    }
  }
}
