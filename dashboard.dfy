/**
 * The participant dashboard (app/dashboard/DashboardContent.tsx): the search over
 * the user's events, the split by status, the tab shown, and what a click on an
 * event card does.
 */
module Dashboard {
  import opened Wrappers
  import Text
  import Lists

  /** An event as the dashboard reads it from `/api/user/me`. */
  datatype EventCard = EventCard(name: string, slug: string, status: string)

  datatype Tab = Ongoing | Upcoming

  /** `user.events || []`. */
  function Events(userEvents: Option<seq<EventCard>>): seq<EventCard>
  {
    userEvents.GetOr([])
  }

  predicate NameMatches(e: EventCard, searchQuery: string)
  {
    Text.Contains(Text.Lower(e.name), Text.Lower(searchQuery))
  }

  /** `filteredEvents`. */
  function FilteredEvents(userEvents: Option<seq<EventCard>>, searchQuery: string): seq<EventCard>
  {
    Lists.Filter(Events(userEvents), e => NameMatches(e, searchQuery))
  }

  /** The events of one status among the filtered ones. */
  function WithStatus(filtered: seq<EventCard>, status: string): seq<EventCard>
  {
    Lists.Filter(filtered, (e: EventCard) => e.status == status)
  }

  function OngoingEvents(filtered: seq<EventCard>): seq<EventCard> { WithStatus(filtered, "ONGOING") }
  function UpcomingEvents(filtered: seq<EventCard>): seq<EventCard> { WithStatus(filtered, "UPCOMING") }
  function FinishedEvents(filtered: seq<EventCard>): seq<EventCard> { WithStatus(filtered, "FINISHED") }

  /** `displayEvents`: the ongoing list on the ongoing tab, the upcoming list otherwise. */
  function DisplayEvents(activeTab: Tab, filtered: seq<EventCard>): (r: seq<EventCard>)
    ensures activeTab == Ongoing ==> forall e :: e in r <==> e in filtered && e.status == "ONGOING"
    ensures activeTab == Upcoming ==> forall e :: e in r <==> e in filtered && e.status == "UPCOMING"
  {
    if activeTab == Ongoing then OngoingEvents(filtered) else UpcomingEvents(filtered)
  }

  /** Without loaded events, nothing is listed; an empty query keeps every event in order. */
  lemma FilterSpec(userEvents: Option<seq<EventCard>>, searchQuery: string)
    ensures userEvents.None? ==> FilteredEvents(userEvents, searchQuery) == []
    ensures forall e :: e in FilteredEvents(userEvents, searchQuery) <==> e in Events(userEvents) && NameMatches(e, searchQuery)
    ensures Lists.Sublist(FilteredEvents(userEvents, searchQuery), Events(userEvents))
    ensures searchQuery == "" ==> FilteredEvents(userEvents, searchQuery) == Events(userEvents)
  {
    Lists.FilterSublist(Events(userEvents), e => NameMatches(e, searchQuery));
    if searchQuery == "" {
      forall e | e in Events(userEvents) ensures NameMatches(e, "") {
        Text.ContainsEmpty(Text.Lower(e.name));
      }
    }
  }

  /**
   * The three status lists keep the filtered order, share no event, and together
   * hold exactly the filtered events whose status is one of the three.
   */
  lemma StatusPartition(filtered: seq<EventCard>)
    ensures Lists.Sublist(OngoingEvents(filtered), filtered)
    ensures Lists.Sublist(UpcomingEvents(filtered), filtered)
    ensures Lists.Sublist(FinishedEvents(filtered), filtered)
    ensures forall e :: !(e in OngoingEvents(filtered) && e in UpcomingEvents(filtered))
    ensures forall e :: !(e in OngoingEvents(filtered) && e in FinishedEvents(filtered))
    ensures forall e :: !(e in UpcomingEvents(filtered) && e in FinishedEvents(filtered))
    ensures forall e :: e in filtered ==>
      ((e in OngoingEvents(filtered) || e in UpcomingEvents(filtered) || e in FinishedEvents(filtered))
       <==> e.status in {"ONGOING", "UPCOMING", "FINISHED"})
  {
    Lists.FilterSublist(filtered, (e: EventCard) => e.status == "ONGOING");
    Lists.FilterSublist(filtered, (e: EventCard) => e.status == "UPCOMING");
    Lists.FilterSublist(filtered, (e: EventCard) => e.status == "FINISHED");
  }

  /** Where a click leads: the page of the event, or nowhere (the modal opens). */
  class DashboardView {
    var activeTab: Tab
    var upcomingModalOpen: bool
    var selectedEvent: Option<EventCard>
    var location: Option<string>

    constructor ()
      ensures activeTab == Ongoing && !upcomingModalOpen && selectedEvent.None? && location.None?
    {
      activeTab := Ongoing;
      upcomingModalOpen := false;
      selectedEvent := None;
      location := None;
    }

    /** `handleEventClick`: an upcoming event opens the modal, any other navigates to its page. */
    method HandleEventClick(event: EventCard)
      modifies this
      ensures event.status == "UPCOMING" ==>
        upcomingModalOpen && selectedEvent == Some(event) && location == old(location)
      ensures event.status != "UPCOMING" ==>
        location == Some("/events/" + event.slug)
        && upcomingModalOpen == old(upcomingModalOpen) && selectedEvent == old(selectedEvent)
      ensures activeTab == old(activeTab)
    {
      if event.status == "UPCOMING" {
        selectedEvent := Some(event);
        upcomingModalOpen := true;
      } else {
        location := Some("/events/" + event.slug);
      }
    }

    method SetActiveTab(tab: Tab)
      modifies this
      ensures activeTab == tab
      ensures upcomingModalOpen == old(upcomingModalOpen) && selectedEvent == old(selectedEvent) && location == old(location)
    {
      activeTab := tab;
    }
  }
}
