/**
 * Sequences of service calls, each with what a client can conclude from the
 * services' contracts alone: double registration, repeated status changes
 * and attendance marks, login after registration, and the end-to-end
 * organizer/participant walkthrough.
 */
module Scenarios {
  import opened Entities
  import opened Repositories
  import opened EventService
  import opened RegistrationService
  import opened UserService

  /** Registering the same pair twice: the first call succeeds, the second is refused. */
  method RegisterTwice(db: Store, eventId: nat, participantId: nat, now: DateTime, later: DateTime)
    returns (first: Result<RegistrationRow>, second: Result<RegistrationRow>)
    requires db.Valid()
    requires eventId in db.events && participantId in db.users
    requires !IsRegistered(db.registrations, eventId, participantId)
    modifies db
    ensures db.Valid()
    ensures first.Ok? && first.value.eventId == eventId && first.value.participantId == participantId
    ensures !first.value.attended
    ensures second == Err(AlreadyRegistered)
    ensures db.registrations == old(db.registrations)[first.value.id := first.value]
  {
    first := RegisterForEvent(db, eventId, participantId, now);
    second := RegisterForEvent(db, eventId, participantId, later);
  }

  /** Approving twice leaves the store as approving once; the prior status does not matter. */
  method ApproveTwice(db: Store, id: nat) returns (first: Result<EventRow>, second: Result<EventRow>)
    requires db.Valid() && id in db.events
    modifies db
    ensures db.Valid()
    ensures first.Ok? && first == second
    ensures db.events == old(db.events)[id := old(db.events[id]).(status := Approved)]
    ensures db.users == old(db.users) && db.registrations == old(db.registrations)
  {
    first := ApproveEvent(db, id);
    second := ApproveEvent(db, id);
  }

  /** Rejecting twice leaves the store as rejecting once, even for an approved event. */
  method RejectTwice(db: Store, id: nat) returns (first: Result<EventRow>, second: Result<EventRow>)
    requires db.Valid() && id in db.events
    modifies db
    ensures db.Valid()
    ensures first.Ok? && first == second
    ensures db.events == old(db.events)[id := old(db.events[id]).(status := Rejected)]
    ensures db.users == old(db.users) && db.registrations == old(db.registrations)
  {
    first := RejectEvent(db, id);
    second := RejectEvent(db, id);
  }

  /** Marking attendance twice with the same value leaves the store as marking once. */
  method MarkAttendanceTwice(db: Store, id: nat, attended: bool)
    returns (first: Result<RegistrationRow>, second: Result<RegistrationRow>)
    requires db.Valid() && id in db.registrations
    modifies db
    ensures db.Valid()
    ensures first.Ok? && first == second
    ensures db.registrations == old(db.registrations)[id := old(db.registrations[id]).(attended := attended)]
    ensures db.users == old(db.users) && db.events == old(db.events)
  {
    first := MarkAttendance(db, id, attended);
    second := MarkAttendance(db, id, attended);
  }

  /** A user registered with a fresh email can log in with that email and password. */
  method RegisterThenLogin(db: Store, candidate: User) returns (registered: Result<User>, session: Option<User>)
    requires db.Valid()
    requires !EmailTaken(db.users, candidate.email)
    modifies db
    ensures db.Valid()
    ensures registered.Ok? && session == Some(registered.value)
    ensures registered.value.email == candidate.email && registered.value.password == candidate.password
  {
    registered := RegisterUser(db, candidate);
    session := Login(db, candidate.email, candidate.password);
  }

  /**
   * An organizer creates an event (PENDING), an admin approves it, a
   * participant registers (attended false) and is marked present; the
   * registration is then among the participant's approved registrations.
   */
  method Walkthrough(db: Store, request: EventRequest, participantId: nat, now: DateTime, later: DateTime)
    returns (created: Result<EventRow>, approved: Result<EventRow>,
             registered: Result<RegistrationRow>, marked: Result<RegistrationRow>)
    requires db.Valid()
    requires request.organizerId in db.users && participantId in db.users
    requires RequestFillsColumns(request)
    modifies db
    ensures db.Valid()
    ensures created.Ok? && created.value.status == Pending
    ensures approved.Ok? && approved.value == created.value.(status := Approved)
    ensures registered.Ok? && !registered.value.attended
    ensures registered.value.eventId == created.value.id && registered.value.participantId == participantId
    ensures marked.Ok? && marked.value == registered.value.(attended := true)
    ensures marked.value in ApprovedRegistrations(db, participantId)
  {
    created := CreateEvent(db, request, now);
    approved := ApproveEvent(db, created.value.id);
    registered := RegisterForEvent(db, created.value.id, participantId, later);
    marked := MarkAttendance(db, registered.value.id, true);
    assert db.registrations[marked.value.id] == marked.value;
  }
}
