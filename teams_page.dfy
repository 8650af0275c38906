/**
 * The team-management page (app/admin/teams/page.tsx): the event list for the
 * filter drop-down, the three-way team filter, the count of empty teams, and the
 * set of selected teams.
 */
module TeamsPage {
  import opened Wrappers
  import Text
  import Lists

  /** A row of `/api/teams/list` as the page reads it. */
  datatype TeamRow = TeamRow(id: string, name: string, eventId: string, eventName: string, memberCount: int)

  datatype EventOption = EventOption(id: string, name: string)

  /**
   * `map.set(e.id, e)` on a JavaScript `Map` kept as its entry list: an existing
   * key keeps its position and takes the new value, a new key goes at the end.
   */
  function MapSet(entries: seq<EventOption>, e: EventOption): (r: seq<EventOption>)
    ensures HasKey(entries, e.id) ==>
      |r| == |entries| && forall i :: 0 <= i < |r| ==> r[i] == if entries[i].id == e.id then e else entries[i]
    ensures !HasKey(entries, e.id) ==> r == entries + [e]
  {
    if HasKey(entries, e.id) then seq(|entries|, i requires 0 <= i < |entries| => if entries[i].id == e.id then e else entries[i])
    else entries + [e]
  }

  /** Some entry has event id `k`. */
  predicate HasKey(entries: seq<EventOption>, k: string)
  {
    exists i :: 0 <= i < |entries| && entries[i].id == k
  }

  /** Some team belongs to event `k`. */
  predicate HasEvent(teams: seq<TeamRow>, k: string)
  {
    exists i :: 0 <= i < |teams| && teams[i].eventId == k
  }

  function OptionOf(t: TeamRow): EventOption { EventOption(t.eventId, t.eventName) }

  /** `new Map(teams.map(t => [t.eventId, {...}]))`, built one team at a time. */
  function EventMap(teams: seq<TeamRow>): seq<EventOption>
  {
    if teams == [] then []
    else MapSet(EventMap(teams[..|teams| - 1]), OptionOf(teams[|teams| - 1]))
  }

  /** `uniqueEvents`: none until the teams have loaded. */
  function UniqueEvents(teams: Option<seq<TeamRow>>): seq<EventOption>
  {
    if teams.Some? then EventMap(teams.value) else []
  }

  /** No event id appears twice. */
  predicate DistinctIds(entries: seq<EventOption>)
  {
    forall i, j :: 0 <= i < j < |entries| ==> entries[i].id != entries[j].id
  }

  /** The position of the first team of an event. */
  function FirstIndex(teams: seq<TeamRow>, eventId: string): (k: nat)
    requires HasEvent(teams, eventId)
    ensures k < |teams| && teams[k].eventId == eventId
    ensures forall i :: 0 <= i < k ==> teams[i].eventId != eventId
  {
    if teams[0].eventId == eventId then 0
    else
      assert HasEvent(teams[1..], eventId) by {
        var i :| 0 <= i < |teams| && teams[i].eventId == eventId;
        assert teams[1..][i - 1].eventId == eventId;
      }
      1 + FirstIndex(teams[1..], eventId)
  }

  /** Setting a key keeps the keys distinct. */
  lemma MapSetDistinct(entries: seq<EventOption>, e: EventOption)
    requires DistinctIds(entries)
    ensures DistinctIds(MapSet(entries, e))
  {
  }

  /** The drop-down offers no event twice. */
  lemma {:induction false} EventMapDistinct(teams: seq<TeamRow>)
    ensures DistinctIds(EventMap(teams))
  {
    if teams != [] {
      EventMapDistinct(teams[..|teams| - 1]);
      MapSetDistinct(EventMap(teams[..|teams| - 1]), OptionOf(teams[|teams| - 1]));
    }
  }

  /** The drop-down offers exactly the events that some loaded team belongs to. */
  lemma {:induction false} EventMapKeys(teams: seq<TeamRow>)
    ensures forall k :: HasKey(EventMap(teams), k) <==> HasEvent(teams, k)
  {
    if teams != [] {
      var init, last := teams[..|teams| - 1], teams[|teams| - 1];
      var prev := EventMap(init);
      EventMapKeys(init);
      EventMapDistinct(init);
      MapSetDistinct(prev, OptionOf(last));
      var r := EventMap(teams);
      forall k ensures HasKey(r, k) <==> HasEvent(teams, k) {
        if k == last.eventId {
          assert teams[|teams| - 1].eventId == k;
          if HasKey(prev, k) {
            var i :| 0 <= i < |prev| && prev[i].id == k;
            assert r[i].id == k;
          } else {
            assert r[|r| - 1].id == k;
          }
        } else {
          if HasKey(r, k) {
            var i :| 0 <= i < |r| && r[i].id == k;
            assert prev[i].id == k;
            assert HasKey(prev, k);
            var j :| 0 <= j < |init| && init[j].eventId == k;
            assert teams[j].eventId == k;
          }
          if HasEvent(teams, k) {
            var j :| 0 <= j < |teams| && teams[j].eventId == k;
            assert init[j].eventId == k;
            assert HasEvent(init, k);
            var i :| 0 <= i < |prev| && prev[i].id == k;
            assert r[i].id == k;
          }
        }
      }
    }
  }

  /** The position of the last team of an event. */
  function LastIndex(teams: seq<TeamRow>, eventId: string): (k: nat)
    requires HasEvent(teams, eventId)
    ensures k < |teams| && teams[k].eventId == eventId
    ensures forall i :: k < i < |teams| ==> teams[i].eventId != eventId
  {
    var n := |teams| - 1;
    if teams[n].eventId == eventId then n
    else
      assert HasEvent(teams[..n], eventId) by {
        var i :| 0 <= i < |teams| && teams[i].eventId == eventId;
        assert teams[..n][i].eventId == eventId;
      }
      LastIndex(teams[..n], eventId)
  }

  /** How one more team changes the offered events. */
  lemma EventMapStep(teams: seq<TeamRow>)
    requires teams != []
    ensures var prev, r, e := EventMap(teams[..|teams| - 1]), EventMap(teams), OptionOf(teams[|teams| - 1]);
      && (|r| == |prev| || (|r| == |prev| + 1 && r[|prev|] == e && !HasKey(prev, e.id)))
      && forall i :: 0 <= i < |prev| ==> r[i] == if prev[i].id == e.id then e else prev[i]
  {
  }

  /** Each offered event carries the event name of the last team of that event. */
  lemma {:induction false} EventMapNames(teams: seq<TeamRow>)
    ensures var r := EventMap(teams);
      forall i :: 0 <= i < |r| ==> HasEvent(teams, r[i].id) && r[i] == OptionOf(teams[LastIndex(teams, r[i].id)])
  {
    if teams != [] {
      var init, last := teams[..|teams| - 1], teams[|teams| - 1];
      var prev := EventMap(init);
      EventMapNames(init);
      var r := EventMap(teams);
      EventMapStep(teams);
      forall i | 0 <= i < |r| ensures HasEvent(teams, r[i].id) && r[i] == OptionOf(teams[LastIndex(teams, r[i].id)]) {
        if r[i].id == last.eventId {
          assert teams[|teams| - 1].eventId == r[i].id;
          assert r[i] == OptionOf(last);
        } else {
          assert i < |prev| && r[i] == prev[i];
          var j := LastIndex(init, r[i].id);
          assert teams[j] == init[j];
          assert HasEvent(teams, r[i].id);
        }
      }
    }
  }

  lemma FirstIndexInPrefix(teams: seq<TeamRow>, k: string)
    requires teams != [] && HasEvent(teams[..|teams| - 1], k)
    ensures HasEvent(teams, k) && FirstIndex(teams, k) == FirstIndex(teams[..|teams| - 1], k)
  {
    var init := teams[..|teams| - 1];
    var b := FirstIndex(init, k);
    assert teams[b].eventId == k;
    forall i | 0 <= i < b ensures teams[i].eventId != k {
      assert teams[i] == init[i];
    }
  }

  lemma FirstIndexOfNew(teams: seq<TeamRow>)
    requires teams != [] && !HasEvent(teams[..|teams| - 1], teams[|teams| - 1].eventId)
    ensures HasEvent(teams, teams[|teams| - 1].eventId)
    ensures FirstIndex(teams, teams[|teams| - 1].eventId) == |teams| - 1
  {
    var k := teams[|teams| - 1].eventId;
    assert HasEvent(teams, k);
    forall i | 0 <= i < |teams| - 1 ensures teams[i].eventId != k {
      assert teams[i] == teams[..|teams| - 1][i];
    }
  }

  /** The first team of event `a` comes before the first team of event `b`. */
  predicate FirstBefore(teams: seq<TeamRow>, a: string, b: string)
  {
    HasEvent(teams, a) && HasEvent(teams, b) && FirstIndex(teams, a) < FirstIndex(teams, b)
  }

  /** Events are offered in the order of their first team. */
  lemma {:induction false} EventMapOrder(teams: seq<TeamRow>)
    ensures var r := EventMap(teams);
      forall i, j :: 0 <= i < j < |r| ==> FirstBefore(teams, r[i].id, r[j].id)
  {
    if teams != [] {
      var init, last := teams[..|teams| - 1], teams[|teams| - 1];
      var prev := EventMap(init);
      EventMapOrder(init);
      EventMapKeys(init);
      var r := EventMap(teams);
      EventMapStep(teams);
      forall i | 0 <= i < |prev| ensures HasEvent(init, prev[i].id) && FirstIndex(teams, prev[i].id) == FirstIndex(init, prev[i].id) {
        assert HasKey(prev, prev[i].id);
        FirstIndexInPrefix(teams, prev[i].id);
      }
      forall i, j | 0 <= i < j < |r| ensures FirstBefore(teams, r[i].id, r[j].id) {
        if j < |prev| {
          assert r[i].id == prev[i].id && r[j].id == prev[j].id;
        } else {
          assert r[i].id == prev[i].id;
          FirstIndexOfNew(teams);
        }
      }
    }
  }

  // ---------------------------------------------------------------------
  // Filters
  // ---------------------------------------------------------------------

  /** The three tests of `filteredTeams`; an empty event filter means no event filter. */
  predicate Shown(t: TeamRow, searchTerm: string, filterZeroMembers: bool, filterEvent: string)
  {
    var search := Text.Lower(searchTerm);
    && (Text.Contains(Text.Lower(t.name), search) || Text.Contains(Text.Lower(t.eventName), search))
    && (!filterZeroMembers || t.memberCount == 0)
    && (filterEvent == "" || t.eventId == filterEvent)
  }

  /** `filteredTeams`: empty until the teams have loaded. */
  function FilteredTeams(teams: Option<seq<TeamRow>>, searchTerm: string, filterZeroMembers: bool, filterEvent: string): seq<TeamRow>
  {
    if teams.Some? then Lists.Filter(teams.value, t => Shown(t, searchTerm, filterZeroMembers, filterEvent)) else []
  }

  /** A team is shown iff it passes all three tests, and the shown teams keep the loaded order. */
  lemma FilterSpec(teams: seq<TeamRow>, searchTerm: string, filterZeroMembers: bool, filterEvent: string)
    ensures var r := FilteredTeams(Some(teams), searchTerm, filterZeroMembers, filterEvent);
      && (forall t :: t in r <==> t in teams && Shown(t, searchTerm, filterZeroMembers, filterEvent))
      && Lists.Sublist(r, teams)
  {
    Lists.FilterSublist(teams, t => Shown(t, searchTerm, filterZeroMembers, filterEvent));
  }

  /** `zeroMemberCount`: 0 until the teams have loaded. */
  function ZeroMemberCount(teams: Option<seq<TeamRow>>): nat
  {
    if teams.Some? then |Lists.Filter(teams.value, (t: TeamRow) => t.memberCount == 0)| else 0
  }

  /**
   * The count ignores the search and event filters: it is the length of the list
   * shown with only the empty-team filter on.
   */
  lemma ZeroMemberCountUnfiltered(teams: seq<TeamRow>)
    ensures ZeroMemberCount(Some(teams)) == |FilteredTeams(Some(teams), "", true, "")|
  {
    forall t: TeamRow ensures Shown(t, "", true, "") == (t.memberCount == 0) {
      Text.ContainsEmpty(Text.Lower(t.name));
    }
    SameFilter(teams, (t: TeamRow) => t.memberCount == 0, t => Shown(t, "", true, ""));
  }

  lemma {:induction false} SameFilter(s: seq<TeamRow>, p: TeamRow -> bool, q: TeamRow -> bool)
    requires forall t :: p(t) == q(t)
    ensures Lists.Filter(s, p) == Lists.Filter(s, q)
  {
    if s != [] {
      SameFilter(s[1..], p, q);
    }
  }

  function TeamIds(rows: seq<TeamRow>): (r: set<string>)
    ensures forall x :: x in r <==> exists i :: 0 <= i < |rows| && rows[i].id == x
  {
    set i | 0 <= i < |rows| :: rows[i].id
  }

  // ---------------------------------------------------------------------
  // Selection
  // ---------------------------------------------------------------------

  /** The selection state of the page: `selectedTeams`. */
  class TeamSelection {
    var selected: set<string>

    constructor ()
      ensures selected == {}
    {
      selected := {};
    }

    /** `handleSelectAll`: clears when the selection is as large as the shown list, else selects the shown teams. */
    method SelectAll(filtered: seq<TeamRow>)
      modifies this
      ensures |old(selected)| == |filtered| ==> selected == {}
      ensures |old(selected)| != |filtered| ==> selected == TeamIds(filtered)
    {
      if |selected| == |filtered| {
        selected := {};
      } else {
        selected := TeamIds(filtered);
      }
    }

    /** `handleSelectTeam`: flips that one id and no other. */
    method SelectTeam(teamId: string)
      modifies this
      ensures teamId in selected <==> teamId !in old(selected)
      ensures forall x :: x != teamId ==> (x in selected <==> x in old(selected))
    {
      var newSelected := selected;
      if teamId in newSelected {
        newSelected := newSelected - {teamId};
      } else {
        newSelected := newSelected + {teamId};
      }
      selected := newSelected;
    }

    /**
     * The start of `handleBulkDelete`: the team ids to send, or None when nothing
     * is selected or the user cancels the confirmation.
     */
    method BulkDeleteRequest(confirmed: bool) returns (teamIds: Option<set<string>>)
      ensures selected == {} ==> teamIds.None?
      ensures teamIds.Some? <==> selected != {} && confirmed
      ensures teamIds.Some? ==> teamIds.value == selected
    {
      if |selected| == 0 {
        return None;
      }
      if !confirmed {
        return None;
      }
      teamIds := Some(selected);
    }

    /** A successful bulk delete clears the selection. */
    method BulkDeleteSucceeded()
      modifies this
      ensures selected == {}
    {
      selected := {};
    }
  }
}
