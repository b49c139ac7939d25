/**
 * The event workflow: create an event for an existing organizer, overwrite
 * its descriptive fields, approve or reject it, delete it with its
 * registrations, and list events by status.
 * Each mutating operation looks the entity up, changes an Event object
 * through its setters and saves it; a failed lookup changes nothing.
 */
module EventService {
  import opened Entities
  import opened Repositories

  /** The request fills the NOT NULL columns it is copied into, and its description fits. */
  predicate RequestFillsColumns(request: EventRequest) {
    && request.name.Some?
    && request.eventDate.Some?
    && request.location.Some?
    && DescriptionFits(request.description)
  }

  /** The row an update request turns `row` into: only the four descriptive fields change. */
  function Updated(row: EventRow, request: EventRequest): EventRow
    requires RequestFillsColumns(request)
  {
    row.(title := request.name.value, description := request.description,
         eventDate := request.eventDate.value, location := request.location.value)
  }

  method CreateEvent(db: Store, request: EventRequest, now: DateTime) returns (r: Result<EventRow>)
    requires db.Valid()
    modifies db
    ensures db.Valid()
    ensures r.Err? ==> db.State() == old(db.State())
    ensures request.organizerId !in old(db.users) ==> r == Err(OrganizerNotFound)
    ensures request.organizerId in old(db.users) && !RequestFillsColumns(request) ==> r == Err(ConstraintViolation)
    ensures r.Ok? <==> request.organizerId in old(db.users) && RequestFillsColumns(request)
    ensures r.Ok? ==>
      && r.value == EventRow(old(db.nextEventId), request.name.value, request.description,
                             request.eventDate.value, request.location.value, Pending,
                             request.organizerId, Some(now))
      && r.value.id !in old(db.events)
      && db.State() == old(db.State()).(events := old(db.events)[r.value.id := r.value],
                                        nextEventId := old(db.nextEventId) + 1)
  {
    var organizer := db.FindUser(request.organizerId);
    if organizer.None? {
      return Err(OrganizerNotFound);
    }
    var event := new Event();
    event.SetTitle(request.name);
    event.SetDescription(request.description);
    event.SetEventDate(request.eventDate);
    event.SetLocation(request.location);
    event.SetOrganizer(Some(organizer.value));
    event.SetStatus(Some(Pending));
    r := db.SaveNewEvent(event, now);
  }

  method UpdateEvent(db: Store, id: nat, request: EventRequest) returns (r: Result<EventRow>)
    requires db.Valid()
    modifies db
    ensures db.Valid()
    ensures r.Err? ==> db.State() == old(db.State())
    ensures id !in old(db.events) ==> r == Err(EventNotFound)
    ensures id in old(db.events) && !RequestFillsColumns(request) ==> r == Err(ConstraintViolation)
    ensures r.Ok? <==> id in old(db.events) && RequestFillsColumns(request)
    ensures r.Ok? ==>
      && r.value == Updated(old(db.events[id]), request)
      && db.State() == old(db.State()).(events := old(db.events)[id := r.value])
  {
    var found := db.FindEvent(id);
    if found.None? {
      return Err(EventNotFound);
    }
    var row := found.value;
    var event := new Event.Load(row, db.users[row.organizerId]);
    event.SetTitle(request.name);
    event.SetDescription(request.description);
    event.SetEventDate(request.eventDate);
    event.SetLocation(request.location);
    r := db.SaveEvent(event);
  }

  method ApproveEvent(db: Store, id: nat) returns (r: Result<EventRow>)
    requires db.Valid()
    modifies db
    ensures db.Valid()
    ensures r.Ok? <==> id in old(db.events)
    ensures r.Err? ==> r.error == EventNotFound && db.State() == old(db.State())
    ensures r.Ok? ==>
      && r.value == old(db.events[id]).(status := Approved)
      && db.State() == old(db.State()).(events := old(db.events)[id := r.value])
  {
    var found := db.FindEvent(id);
    if found.None? {
      return Err(EventNotFound);
    }
    var row := found.value;
    var event := new Event.Load(row, db.users[row.organizerId]);
    event.SetStatus(Some(Approved));
    r := db.SaveEvent(event);
  }

  method RejectEvent(db: Store, id: nat) returns (r: Result<EventRow>)
    requires db.Valid()
    modifies db
    ensures db.Valid()
    ensures r.Ok? <==> id in old(db.events)
    ensures r.Err? ==> r.error == EventNotFound && db.State() == old(db.State())
    ensures r.Ok? ==>
      && r.value == old(db.events[id]).(status := Rejected)
      && db.State() == old(db.State()).(events := old(db.events)[id := r.value])
  {
    var found := db.FindEvent(id);
    if found.None? {
      return Err(EventNotFound);
    }
    var row := found.value;
    var event := new Event.Load(row, db.users[row.organizerId]);
    event.SetStatus(Some(Rejected));
    r := db.SaveEvent(event);
  }

  /**
   * deleteEvent: removes the event and, by the cascade of its registrations,
   * every registration for it. An id that is not stored changes nothing.
   */
  method DeleteEvent(db: Store, id: nat) returns (r: Result<()>)
    requires db.Valid()
    modifies db
    ensures db.Valid()
    ensures r.Ok? <==> id in old(db.events)
    ensures r.Err? ==> r.error == EventNotFound && db.State() == old(db.State())
    ensures r.Ok? ==>
      db.State() == old(db.State()).(
        events := old(db.events) - {id},
        registrations := map k | k in old(db.registrations) && old(db.registrations)[k].eventId != id
                                 :: old(db.registrations)[k])
    ensures r.Ok? ==> db.RegistrationsByEvent(id) == [] && db.FindEvent(id) == None
  {
    r := db.DeleteEvent(id);
  }

  function ApprovedEvents(db: Store): (r: seq<EventRow>)
    reads db
    requires db.Valid()
    ensures forall e :: e in r <==> e in db.events.Values && e.status == Approved
    ensures forall i, j :: 0 <= i < j < |r| ==> r[i].id < r[j].id
  {
    db.EventsByStatus(Approved)
  }

  function PendingEvents(db: Store): (r: seq<EventRow>)
    reads db
    requires db.Valid()
    ensures forall e :: e in r <==> e in db.events.Values && e.status == Pending
    ensures forall i, j :: 0 <= i < j < |r| ==> r[i].id < r[j].id
  {
    db.EventsByStatus(Pending)
  }
}
