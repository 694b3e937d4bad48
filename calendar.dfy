/** The family calendar: a list of events fetched from the server, added
    and deleted through it, coloured by category, and listed per day
    by comparing each event's `yyyy-MM-dd` date string with the day's. */
module Calendar {
  import opened Common

  datatype CalendarEvent = CalendarEvent(id: string, title: string, description: string, date: string,
                                         startTime: string, endTime: string, category: string)

  datatype EventCategory = EventCategory(value: string, caption: string, color: string)

  /** The category table, in the order `find` searches it. */
  const EventCategories: seq<EventCategory> := [
    EventCategory("school", "School", "bg-blue-500"),
    EventCategory("sports", "Sports", "bg-green-500"),
    EventCategory("family", "Family", "bg-purple-500"),
    EventCategory("other", "Other", "bg-yellow-500")
  ]

  const DefaultColor := "bg-gray-500"

  /** `eventCategories.find(cat => cat.value === category)`: the first entry with that value. */
  function FindCategory(table: seq<EventCategory>, category: string): (r: Option<EventCategory>)
    ensures r.Some? ==> r.value in table && r.value.value == category
    ensures r.Some? ==> exists i :: 0 <= i < |table| && table[i] == r.value &&
                                    forall j :: 0 <= j < i ==> table[j].value != category
    ensures r.None? <==> forall c :: c in table ==> c.value != category
  {
    if table == [] then None
    else if table[0].value == category then Some(table[0])
    else
      var r := FindCategory(table[1..], category);
      if r.Some? then
        var i :| 0 <= i < |table[1..]| && table[1..][i] == r.value &&
                 forall j :: 0 <= j < i ==> table[1..][j].value != category;
        assert table[i + 1] == r.value;
        assert forall j :: 0 <= j < i + 1 ==> table[j].value != category by {
          forall j | 0 < j < i + 1 ensures table[j].value != category {
            assert table[j] == table[1..][j - 1];
          }
        }
        r
      else r
  }

  /** `getEventColor(category)`. */
  function EventColor(category: string): (r: string)
    ensures category == "school" ==> r == "bg-blue-500"
    ensures category == "sports" ==> r == "bg-green-500"
    ensures category == "family" ==> r == "bg-purple-500"
    ensures category == "other" ==> r == "bg-yellow-500"
    ensures r == DefaultColor <==> category !in {"school", "sports", "family", "other"}
  {
    match FindCategory(EventCategories, category)
    case Some(c) => c.color
    case None => DefaultColor
  }

  /** `eventsOnSelectedDate` and each day cell's `dayEvents`: the events whose
      date string is the day's, in list order. */
  function EventsOn(events: seq<CalendarEvent>, day: string): (r: seq<CalendarEvent>)
    ensures forall e :: e in r <==> e in events && e.date == day
    ensures Subseq(r, events)
  {
    FilterIsSubseq(events, (e: CalendarEvent) => e.date == day);
    Filter(events, (e: CalendarEvent) => e.date == day)
  }

  /** An added event shows up at the end of its own day's list and nowhere else. */
  lemma AddedEventListedOnItsDay(events: seq<CalendarEvent>, added: CalendarEvent, day: string)
    ensures EventsOn(events + [added], day) == EventsOn(events, day) + (if added.date == day then [added] else [])
  {
    FilterAppend(events, [added], (e: CalendarEvent) => e.date == day);
  }

  /** `events.map(event => event._id === id ? saved : event)`. */
  function Replaced(events: seq<CalendarEvent>, id: string, saved: CalendarEvent): (r: seq<CalendarEvent>)
    ensures |r| == |events|
    ensures forall i :: 0 <= i < |events| ==> r[i] == if events[i].id == id then saved else events[i]
  {
    MapWhere(events, (e: CalendarEvent) => e.id == id, (e: CalendarEvent) => saved)
  }

  /** `events.filter(event => event._id !== eventId)`. */
  function WithoutEvent(events: seq<CalendarEvent>, eventId: string): (r: seq<CalendarEvent>)
    ensures forall e :: e in r <==> e in events && e.id != eventId
    ensures Subseq(r, events)
  {
    FilterIsSubseq(events, (e: CalendarEvent) => e.id != eventId);
    Filter(events, (e: CalendarEvent) => e.id != eventId)
  }

  /** Deleting an event takes it off every day's list and leaves the other events listed. */
  lemma DeletedEventNotListed(events: seq<CalendarEvent>, eventId: string, day: string)
    ensures forall e :: e in EventsOn(WithoutEvent(events, eventId), day) <==>
      e in EventsOn(events, day) && e.id != eventId
  {
  }

  class CalendarPage {
    var events: seq<CalendarEvent>
    var selectedEvent: Option<CalendarEvent>

    constructor ()
      ensures events == [] && selectedEvent == None
    {
      events := [];
      selectedEvent := None;
    }

    /** `handleAddEvent`: nothing without a stored token (null or empty);
        otherwise the saved event is appended when the POST succeeds. */
    method AddEvent(token: Option<string>, saved: Option<CalendarEvent>)
      modifies this
      ensures token.None? || token.value == "" || saved.None? ==> events == old(events)
      ensures token.Some? && token.value != "" && saved.Some? ==> events == old(events) + [saved.value]
      ensures selectedEvent == old(selectedEvent)
    {
      if token.None? || token.value == "" {
        return;
      }
      if saved.Some? {
        events := events + [saved.value];
      }
    }

    /** `handleUpdateEvent`: the server's copy replaces the events whose id is
        the edited event's; the details panel closes. The page defines this
        handler but nothing calls it. */
    method UpdateEvent(updated: CalendarEvent, saved: Option<CalendarEvent>)
      modifies this
      ensures saved.None? ==> events == old(events) && selectedEvent == old(selectedEvent)
      ensures saved.Some? ==> events == Replaced(old(events), updated.id, saved.value) && selectedEvent.None?
    {
      if saved.Some? {
        events := Replaced(events, updated.id, saved.value);
        selectedEvent := None;
      }
    }

    /** `handleDeleteEvent`. */
    method DeleteEvent(eventId: string, ok: bool)
      modifies this
      ensures !ok ==> events == old(events) && selectedEvent == old(selectedEvent)
      ensures ok ==> events == WithoutEvent(old(events), eventId) && selectedEvent.None?
    {
      if ok {
        events := WithoutEvent(events, eventId);
        selectedEvent := None;
      }
    }
  }
}
