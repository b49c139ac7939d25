/**
 * The store behind the three repositories: the users, events and
 * registrations tables, each a map from id to row with its own identity
 * counter, the derived queries the repositories declare, and the saves and
 * deletes the services call.
 */
module Repositories {
  import opened Entities
  import opened Tables

  /** The condition of findByParticipantId, named so that other conditions can be related to it. */
  function ParticipantIs(participantId: nat): RegistrationRow -> bool {
    (g: RegistrationRow) => g.participantId == participantId
  }

  /** Everything a Store holds, so that "the store is unchanged" can be said in one equation. */
  datatype StoreState = StoreState(
    users: map<nat, User>,
    events: map<nat, EventRow>,
    registrations: map<nat, RegistrationRow>,
    nextUserId: nat,
    nextEventId: nat,
    nextRegistrationId: nat)

  class Store {
    var users: map<nat, User>
    var events: map<nat, EventRow>
    var registrations: map<nat, RegistrationRow>
    var nextUserId: nat
    var nextEventId: nat
    var nextRegistrationId: nat

    /**
     * What the tables keep whatever the services do: every row sits under its
     * own id, below its table's identity counter; the foreign keys
     * (organizer, event, participant) point at stored rows; and every event's
     * description fits its column.
     */
    ghost predicate Valid()
      reads this
    {
      && (forall k :: k in users ==> users[k].id == k && k < nextUserId)
      && (forall k :: k in events ==>
            && events[k].id == k && k < nextEventId
            && events[k].organizerId in users
            && DescriptionFits(events[k].description))
      && (forall k :: k in registrations ==>
            && registrations[k].id == k && k < nextRegistrationId
            && registrations[k].eventId in events
            && registrations[k].participantId in users)
    }

    function State(): StoreState
      reads this
    {
      StoreState(users, events, registrations, nextUserId, nextEventId, nextRegistrationId)
    }

    constructor ()
      ensures Valid()
      ensures users == map[] && events == map[] && registrations == map[]
    {
      users, events, registrations := map[], map[], map[];
      nextUserId, nextEventId, nextRegistrationId := 0, 0, 0;
    }

    // -------------------------------------------------------------------------
    // Lookups by id (JpaRepository.findById)
    // -------------------------------------------------------------------------

    function FindUser(id: nat): (r: Option<User>)
      reads this
      requires Valid()
      ensures r.Some? <==> id in users
      ensures r.Some? ==> r.value == users[id] && r.value.id == id
    {
      if id in users then Some(users[id]) else None
    }

    function FindEvent(id: nat): (r: Option<EventRow>)
      reads this
      requires Valid()
      ensures r.Some? <==> id in events
      ensures r.Some? ==> r.value == events[id] && r.value.id == id
    {
      if id in events then Some(events[id]) else None
    }

    function FindRegistration(id: nat): (r: Option<RegistrationRow>)
      reads this
      requires Valid()
      ensures r.Some? <==> id in registrations
      ensures r.Some? ==> r.value == registrations[id] && r.value.id == id
    {
      if id in registrations then Some(registrations[id]) else None
    }

    // -------------------------------------------------------------------------
    // Derived queries
    // -------------------------------------------------------------------------

    /** UserRepository.findByEmail. */
    function FindUserByEmail(email: string): (r: Option<User>)
      reads this
      requires Valid()
      ensures r.Some? <==> exists u :: u in users.Values && u.email == email
      ensures r.Some? ==> r.value in users.Values && r.value.email == email
    {
      var ks := SelectIds(users, nextUserId, (u: User) => u.email == email);
      if ks == [] then None
      else
        assert ks[0] in ks;
        Some(users[ks[0]])
    }

    /** UserRepository.findByEmailAndPassword: both must match exactly. */
    function FindUserByEmailAndPassword(email: string, password: string): (r: Option<User>)
      reads this
      requires Valid()
      ensures r.Some? <==> exists u :: u in users.Values && u.email == email && u.password == password
      ensures r.Some? ==> r.value in users.Values && r.value.email == email && r.value.password == password
    {
      var ks := SelectIds(users, nextUserId, (u: User) => u.email == email && u.password == password);
      if ks == [] then None
      else
        assert ks[0] in ks;
        Some(users[ks[0]])
    }

    /** The events satisfying `keep`, in ascending id order. */
    function EventsWhere(keep: EventRow -> bool): (r: seq<EventRow>)
      reads this
      requires Valid()
      ensures forall e :: e in r <==> e in events.Values && keep(e)
      ensures forall i, j :: 0 <= i < j < |r| ==> r[i].id < r[j].id
    {
      RowsOfSelection(events, nextEventId, keep, (e: EventRow) => e.id);
      Rows(events, SelectIds(events, nextEventId, keep))
    }

    /** JpaRepository.findAll on events. */
    function AllEvents(): (r: seq<EventRow>)
      reads this
      requires Valid()
      ensures forall e :: e in r <==> e in events.Values
      ensures forall i, j :: 0 <= i < j < |r| ==> r[i].id < r[j].id
    {
      EventsWhere((e: EventRow) => true)
    }

    /** EventRepository.findByStatus. */
    function EventsByStatus(status: EventStatus): (r: seq<EventRow>)
      reads this
      requires Valid()
      ensures forall e :: e in r <==> e in events.Values && e.status == status
      ensures forall i, j :: 0 <= i < j < |r| ==> r[i].id < r[j].id
    {
      EventsWhere((e: EventRow) => e.status == status)
    }

    /** EventRepository.findByOrganizerId. */
    function EventsByOrganizer(organizerId: nat): (r: seq<EventRow>)
      reads this
      requires Valid()
      ensures forall e :: e in r <==> e in events.Values && e.organizerId == organizerId
      ensures forall i, j :: 0 <= i < j < |r| ==> r[i].id < r[j].id
    {
      EventsWhere((e: EventRow) => e.organizerId == organizerId)
    }

    /** The registrations satisfying `keep`, in ascending id order. */
    function RegistrationsWhere(keep: RegistrationRow -> bool): (r: seq<RegistrationRow>)
      reads this
      requires Valid()
      ensures forall g :: g in r <==> g in registrations.Values && keep(g)
      ensures forall i, j :: 0 <= i < j < |r| ==> r[i].id < r[j].id
    {
      RowsOfSelection(registrations, nextRegistrationId, keep, (g: RegistrationRow) => g.id);
      Rows(registrations, SelectIds(registrations, nextRegistrationId, keep))
    }

    /** RegistrationRepository.findByEventId. */
    function RegistrationsByEvent(eventId: nat): (r: seq<RegistrationRow>)
      reads this
      requires Valid()
      ensures forall g :: g in r <==> g in registrations.Values && g.eventId == eventId
      ensures forall i, j :: 0 <= i < j < |r| ==> r[i].id < r[j].id
    {
      RegistrationsWhere((g: RegistrationRow) => g.eventId == eventId)
    }

    /** RegistrationRepository.findByParticipantId. */
    function RegistrationsByParticipant(participantId: nat): (r: seq<RegistrationRow>)
      reads this
      requires Valid()
      ensures forall g :: g in r <==> g in registrations.Values && g.participantId == participantId
      ensures forall i, j :: 0 <= i < j < |r| ==> r[i].id < r[j].id
    {
      RegistrationsWhere(ParticipantIs(participantId))
    }

    /** RegistrationRepository.findByEventIdAndParticipantId. */
    function FindRegistrationByEventAndParticipant(eventId: nat, participantId: nat): (r: Option<RegistrationRow>)
      reads this
      requires Valid()
      ensures r.Some? <==> exists g :: g in registrations.Values && g.eventId == eventId && g.participantId == participantId
      ensures r.Some? ==> r.value in registrations.Values && r.value.eventId == eventId && r.value.participantId == participantId
    {
      var found := RegistrationsWhere((g: RegistrationRow) => g.eventId == eventId && g.participantId == participantId);
      if found == [] then None
      else
        assert found[0] in found;
        Some(found[0])
    }

    // -------------------------------------------------------------------------
    // Saves and deletes
    // -------------------------------------------------------------------------

    /** UserRepository.save of a new user: stores it under a fresh id. */
    method SaveNewUser(candidate: User) returns (saved: User)
      requires Valid()
      modifies this
      ensures Valid()
      ensures saved == candidate.(id := old(nextUserId))
      ensures saved.id !in old(users)
      ensures users == old(users)[saved.id := saved]
      ensures nextUserId == old(nextUserId) + 1
      ensures events == old(events) && registrations == old(registrations)
      ensures nextEventId == old(nextEventId) && nextRegistrationId == old(nextRegistrationId)
    {
      saved := candidate.(id := nextUserId);
      users := users[nextUserId := saved];
      nextUserId := nextUserId + 1;
    }

    /**
     * EventRepository.save of a new Event object (one without an id): runs
     * its @PrePersist callback, then inserts it under a fresh id unless a NOT
     * NULL column is null, the description is too long or the organizer is
     * not stored. The callback's changes to the object stay when the insert
     * fails.
     */
    method SaveNewEvent(e: Event, now: DateTime) returns (r: Result<EventRow>)
      requires Valid()
      requires e.id.None?
      modifies this, e
      ensures Valid()
      ensures users == old(users) && registrations == old(registrations)
      ensures nextUserId == old(nextUserId) && nextRegistrationId == old(nextRegistrationId)
      ensures var s := old(e.State()).(createdAt := Some(now),
                                       status := if old(e.status).None? then Some(Pending) else old(e.status));
              if EventColumnsValid(s) && s.organizer.value.id in users then
                && r == Ok(EventRowOf(s, old(nextEventId)))
                && r.value.id !in old(events)
                && events == old(events)[r.value.id := r.value]
                && nextEventId == old(nextEventId) + 1
                && e.State() == s.(id := Some(r.value.id))
              else
                && r == Err(ConstraintViolation)
                && events == old(events) && nextEventId == old(nextEventId)
                && e.State() == s
    {
      e.OnCreate(now);
      var s := e.State();
      if !(EventColumnsValid(s) && s.organizer.value.id in users) {
        return Err(ConstraintViolation);
      }
      var id := nextEventId;
      e.SetId(Some(id));
      var row := EventRowOf(s, id);
      events := events[id := row];
      nextEventId := nextEventId + 1;
      r := Ok(row);
    }

    /**
     * EventRepository.save of an Event object loaded from the table: writes
     * its fields back to its row unless a column constraint is broken.
     */
    method SaveEvent(e: Event) returns (r: Result<EventRow>)
      requires Valid()
      requires e.id.Some? && e.id.value in events
      modifies this
      ensures Valid()
      ensures users == old(users) && registrations == old(registrations)
      ensures nextUserId == old(nextUserId) && nextEventId == old(nextEventId)
      ensures nextRegistrationId == old(nextRegistrationId)
      ensures if EventColumnsValid(e.State()) && e.organizer.value.id in users then
                && r == Ok(EventRowOf(e.State(), e.id.value))
                && events == old(events)[e.id.value := r.value]
              else
                r == Err(ConstraintViolation) && events == old(events)
    {
      var s := e.State();
      if !(EventColumnsValid(s) && s.organizer.value.id in users) {
        return Err(ConstraintViolation);
      }
      var row := EventRowOf(s, e.id.value);
      events := events[e.id.value := row];
      r := Ok(row);
    }

    /**
     * EventRepository.deleteById with the cascade of Event's one-to-many
     * registrations: the event and every registration for it go. An id that
     * is not stored is reported as EventNotFound and nothing changes.
     */
    method DeleteEvent(id: nat) returns (r: Result<()>)
      requires Valid()
      modifies this
      ensures Valid()
      ensures r.Ok? <==> id in old(events)
      ensures r.Err? ==> r.error == EventNotFound && State() == old(State())
      ensures r.Ok? ==>
        && events == old(events) - {id}
        && registrations == (map k | k in old(registrations) && old(registrations)[k].eventId != id :: old(registrations)[k])
        && users == old(users)
        && nextUserId == old(nextUserId) && nextEventId == old(nextEventId)
        && nextRegistrationId == old(nextRegistrationId)
      ensures r.Ok? ==> RegistrationsByEvent(id) == [] && FindEvent(id) == None
    {
      if id !in events {
        return Err(EventNotFound);
      }
      events := events - {id};
      registrations := map k | k in registrations && registrations[k].eventId != id :: registrations[k];
      r := Ok(());
      NonEmptyHasFirst(RegistrationsByEvent(id));
    }

    /**
     * RegistrationRepository.save of a new Registration object (one without
     * an id): runs its @PrePersist callback, then inserts it under a fresh id
     * unless a NOT NULL column is null or the event or participant is not
     * stored. The callback's changes to the object stay when the insert fails.
     */
    method SaveNewRegistration(g: Registration, now: DateTime) returns (r: Result<RegistrationRow>)
      requires Valid()
      requires g.id.None?
      modifies this, g
      ensures Valid()
      ensures users == old(users) && events == old(events)
      ensures nextUserId == old(nextUserId) && nextEventId == old(nextEventId)
      ensures var s := old(g.State()).(registeredAt := Some(now),
                                       attended := if old(g.attended).None? then Some(false) else old(g.attended));
              if RegistrationColumnsValid(s) && s.event.value.id in events && s.participant.value.id in users then
                && r == Ok(RegistrationRowOf(s, old(nextRegistrationId)))
                && r.value.id !in old(registrations)
                && registrations == old(registrations)[r.value.id := r.value]
                && nextRegistrationId == old(nextRegistrationId) + 1
                && g.State() == s.(id := Some(r.value.id))
              else
                && r == Err(ConstraintViolation)
                && registrations == old(registrations) && nextRegistrationId == old(nextRegistrationId)
                && g.State() == s
    {
      g.OnCreate(now);
      var s := g.State();
      if !(RegistrationColumnsValid(s) && s.event.value.id in events && s.participant.value.id in users) {
        return Err(ConstraintViolation);
      }
      var id := nextRegistrationId;
      g.SetId(Some(id));
      var row := RegistrationRowOf(s, id);
      registrations := registrations[id := row];
      nextRegistrationId := nextRegistrationId + 1;
      r := Ok(row);
    }

    /**
     * RegistrationRepository.save of a Registration object loaded from the
     * table: writes its fields back to its row unless a constraint is broken.
     */
    method SaveRegistration(g: Registration) returns (r: Result<RegistrationRow>)
      requires Valid()
      requires g.id.Some? && g.id.value in registrations
      modifies this
      ensures Valid()
      ensures users == old(users) && events == old(events)
      ensures nextUserId == old(nextUserId) && nextEventId == old(nextEventId)
      ensures nextRegistrationId == old(nextRegistrationId)
      ensures if RegistrationColumnsValid(g.State()) && g.event.value.id in events && g.participant.value.id in users then
                && r == Ok(RegistrationRowOf(g.State(), g.id.value))
                && registrations == old(registrations)[g.id.value := r.value]
              else
                r == Err(ConstraintViolation) && registrations == old(registrations)
    {
      var s := g.State();
      if !(RegistrationColumnsValid(s) && s.event.value.id in events && s.participant.value.id in users) {
        return Err(ConstraintViolation);
      }
      var row := RegistrationRowOf(s, g.id.value);
      registrations := registrations[g.id.value := row];
      r := Ok(row);
    }
  }
}
