/**
 * The events editor of the admin dashboard: an in-memory list of events
 * that can be added to, edited in place and deleted from, with a draft
 * for the add form and the event being edited.
 */
module EventsAdmin {
  import opened Wrappers
  import Ids
  import Listing

  const PlaceholderImage: string := "/placeholder.svg?height=200&width=400"

  /** The editable text of an event (`Omit<Event, "id" | "isUpcoming">`). */
  datatype EventInfo = EventInfo(
    title: string, description: string, startDate: string, endDate: string,
    location: string, organizer: string, image: string)

  datatype Event = Event(id: int, info: EventInfo, isUpcoming: bool)

  /** The form inputs, by their `name` attribute. */
  datatype EventField = Title | Description | StartDate | EndDate | Location | Organizer | Image

  function EventId(e: Event): int { e.id }

  predicate IsUpcoming(e: Event) { e.isUpcoming }
  predicate IsPast(e: Event) { !e.isUpcoming }

  /** The add form's empty draft, with the placeholder image. */
  const BlankInfo: EventInfo := EventInfo("", "", "", "", "", "", PlaceholderImage)

  const WorkshopText: string := "48-hour coding challenge to build innovative solutions for real-world problems."

  /** The four events the screen starts with. */
  const SampleEvents: seq<Event> := [
    Event(1, EventInfo("Shutter Safari: Virtual Edition", WorkshopText, "2024-04-20", "2024-04-22",
                       "Margashri", "IRIS Society X Kanha House", PlaceholderImage), true),
    Event(2, EventInfo("Capture Craft", WorkshopText, "2024-04-20", "2024-04-22",
                       "Margashri", "IRIS Society", PlaceholderImage), true),
    Event(3, EventInfo("Visual Voices", WorkshopText, "2024-04-20", "2024-04-22",
                       "Margashri", "IRIS Society X Aayam Society", PlaceholderImage), true),
    Event(4, EventInfo("Festive Frames: Diwali Unfiltered", "Hands-on design workshop for creative enthusiasts.",
                       "2023-10-29", "2023-11-02", "Online", "IRIS Society X Nandadap House",
                       "/placeholder.svg?height=200&width=300"), false)
  ]

  /** The text of one field. */
  function FieldOf(info: EventInfo, f: EventField): string {
    match f
    case Title => info.title
    case Description => info.description
    case StartDate => info.startDate
    case EndDate => info.endDate
    case Location => info.location
    case Organizer => info.organizer
    case Image => info.image
  }

  /** `{ ...info, [name]: value }`: the named field takes the value and every other field keeps its text. */
  function WithField(info: EventInfo, f: EventField, value: string): (r: EventInfo)
    ensures FieldOf(r, f) == value
    ensures forall g :: g != f ==> FieldOf(r, g) == FieldOf(info, g)
  {
    match f
    case Title => info.(title := value)
    case Description => info.(description := value)
    case StartDate => info.(startDate := value)
    case EndDate => info.(endDate := value)
    case Location => info.(location := value)
    case Organizer => info.(organizer := value)
    case Image => info.(image := value)
  }

  /**
   * `new Date(endDate) >= new Date()`, with the parsed end date (None for an
   * invalid date, whose comparison is false) and the current time as inputs.
   */
  predicate UpcomingAt(endTime: Option<int>, now: int) {
    endTime.Some? && endTime.value >= now
  }

  /**
   * `events.map(e => e.id === edited.id ? edited : e)`: every event carrying
   * the edited event's id becomes the edited event, and the others stay in
   * place. The ids are unchanged position by position.
   */
  function Replaced(events: seq<Event>, edited: Event): (r: seq<Event>)
    ensures Listing.Keys(r, EventId) == Listing.Keys(events, EventId)
    ensures forall i :: 0 <= i < |events| && events[i].id != edited.id ==> r[i] == events[i]
    ensures forall i :: 0 <= i < |events| && events[i].id == edited.id ==> r[i] == edited
  {
    seq(|events|, i requires 0 <= i < |events| => if events[i].id == edited.id then edited else events[i])
  }

  function NotId(id: int): Event -> bool {
    (e: Event) => e.id != id
  }

  /** `events.filter(e => e.id !== id)` */
  function WithoutId(events: seq<Event>, id: int): seq<Event> {
    Listing.Filter(events, NotId(id))
  }

  /** Deleting keeps exactly the events with another id, in order, and an absent id leaves the list as it was. */
  lemma DeleteRemovesOnlyId(events: seq<Event>, id: int, e: Event)
    ensures e in WithoutId(events, id) <==> e in events && e.id != id
    ensures id !in Listing.Keys(events, EventId) ==> WithoutId(events, id) == events
  {
    Listing.FilterMembers(events, NotId(id), e);
    if id !in Listing.Keys(events, EventId) {
      var ks := Listing.Keys(events, EventId);
      forall i | 0 <= i < |events| ensures NotId(id)(events[i]) {
        assert ks[i] == events[i].id;
      }
      Listing.FilterKeepsAll(events, NotId(id));
    }
  }

  /** Deleting from a concatenation deletes from each part: the order of what remains is the order it had. */
  lemma DeleteKeepsOrder(a: seq<Event>, b: seq<Event>, id: int)
    ensures WithoutId(a + b, id) == WithoutId(a, id) + WithoutId(b, id)
  {
    Listing.FilterConcat(a, b, NotId(id));
  }

  /** The two lists the screen shows. */
  function UpcomingEvents(events: seq<Event>): seq<Event> { Listing.Filter(events, IsUpcoming) }
  function PastEvents(events: seq<Event>): seq<Event> { Listing.Filter(events, IsPast) }

  /** Every event is listed exactly once, as upcoming or as past. */
  lemma ListsPartition(events: seq<Event>)
    ensures multiset(UpcomingEvents(events)) + multiset(PastEvents(events)) == multiset(events)
  {
    Listing.FilterSplits(events, IsUpcoming, IsPast);
  }

  /** The sample events carry the distinct ids 1 to 4. */
  lemma SampleIdsDistinct()
    ensures Listing.DistinctBy(SampleEvents, EventId)
    ensures Listing.Keys(SampleEvents, EventId) == [1, 2, 3, 4]
  {
    Listing.IncreasingDistinct(SampleEvents, EventId);
  }

  class EventsScreen {
    var events: seq<Event>
    /** The add form's draft. */
    var newEvent: EventInfo
    /** The event being edited, if any. */
    var editingEvent: Option<Event>
    var showAddForm: bool

    /** Event ids are pairwise distinct. */
    predicate Valid()
      reads this
    {
      Listing.DistinctBy(events, EventId)
    }

    constructor()
      ensures Valid()
      ensures events == SampleEvents && newEvent == BlankInfo && editingEvent.None? && !showAddForm
    {
      events := SampleEvents;
      newEvent := BlankInfo;
      editingEvent := None;
      showAddForm := false;
      SampleIdsDistinct();
    }

    /** The "Add New Event" / "Cancel" button: leaves edit mode and toggles the form. */
    method ToggleAddForm()
      requires Valid()
      modifies this
      ensures Valid()
      ensures editingEvent.None? && showAddForm == !old(showAddForm)
      ensures events == old(events) && newEvent == old(newEvent)
    {
      editingEvent := None;
      showAddForm := !showAddForm;
    }

    /** `handleInputChange`: the named field of the edited event when editing, else of the draft. */
    method HandleInputChange(f: EventField, value: string)
      requires Valid()
      modifies this
      ensures Valid()
      ensures events == old(events) && showAddForm == old(showAddForm)
      ensures old(editingEvent).Some? ==>
        editingEvent == Some(old(editingEvent).value.(info := WithField(old(editingEvent).value.info, f, value)))
        && newEvent == old(newEvent)
      ensures old(editingEvent).None? ==>
        editingEvent.None? && newEvent == WithField(old(newEvent), f, value)
    {
      if editingEvent.Some? {
        editingEvent := Some(editingEvent.value.(info := WithField(editingEvent.value.info, f, value)));
      } else {
        newEvent := WithField(newEvent, f, value);
      }
    }

    /** `handleEditEvent`: opens the form on one of the listed events. */
    method HandleEditEvent(e: Event)
      requires Valid() && e in events
      modifies this
      ensures Valid()
      ensures editingEvent == Some(e) && showAddForm
      ensures events == old(events) && newEvent == old(newEvent)
    {
      editingEvent := Some(e);
      showAddForm := true;
    }

    /**
     * `handleAddEvent`: in edit mode the edited event replaces the one with
     * its id (its upcoming flag is not recomputed) and edit mode ends;
     * otherwise the draft is appended with a fresh id and an upcoming flag
     * computed from its end date. Either way the draft is cleared and the
     * form hidden. Ids stay distinct.
     */
    method HandleAddEvent(endTime: Option<int>, now: int)
      requires Valid()
      modifies this
      ensures Valid()
      ensures newEvent == BlankInfo && editingEvent.None? && !showAddForm
      ensures old(editingEvent).Some? ==>
        events == Replaced(old(events), old(editingEvent).value)
      ensures old(editingEvent).None? ==>
        var newId := Ids.NextId(Listing.Keys(old(events), EventId));
        events == old(events) + [Event(newId, old(newEvent), UpcomingAt(endTime, now))]
        && newId !in Listing.Keys(old(events), EventId)
    {
      if editingEvent.Some? {
        events := Replaced(events, editingEvent.value);
        editingEvent := None;
        assert Listing.DistinctBy(events, EventId) by {
          var ks := Listing.Keys(events, EventId);
          assert ks == Listing.Keys(old(events), EventId);
          forall i, j | 0 <= i < j < |events| ensures events[i].id != events[j].id {
            assert ks[i] == events[i].id && ks[j] == events[j].id;
          }
        }
      } else {
        var newId := Ids.NextId(Listing.Keys(events, EventId));
        var added := Event(newId, newEvent, UpcomingAt(endTime, now));
        Listing.AppendFreshDistinct(events, EventId, added);
        events := events + [added];
      }
      newEvent := BlankInfo;
      showAddForm := false;
    }

    /** `handleDeleteEvent`: removes the events with that id, keeping the rest in order. */
    method HandleDeleteEvent(id: int)
      requires Valid()
      modifies this
      ensures Valid()
      ensures events == WithoutId(old(events), id)
      ensures newEvent == old(newEvent) && editingEvent == old(editingEvent) && showAddForm == old(showAddForm)
    {
      Listing.FilterDistinct(events, EventId, NotId(id));
      events := WithoutId(events, id);
    }
  }
}
