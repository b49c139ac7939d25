/**
 * The registration workflow: register a participant for an event at most
 * once, mark attendance, and list a participant's registrations for
 * approved events.
 */
module RegistrationService {
  import opened Entities
  import opened Tables
  import opened Repositories

  /** Some registration links this event and this participant. */
  predicate IsRegistered(registrations: map<nat, RegistrationRow>, eventId: nat, participantId: nat) {
    exists g :: g in registrations.Values && g.eventId == eventId && g.participantId == participantId
  }

  /** At most one registration per (event, participant) pair. */
  ghost predicate PairsUnique(registrations: map<nat, RegistrationRow>) {
    forall a, b ::
      a in registrations && b in registrations &&
      registrations[a].eventId == registrations[b].eventId &&
      registrations[a].participantId == registrations[b].participantId
      ==> a == b
  }

  method RegisterForEvent(db: Store, eventId: nat, participantId: nat, now: DateTime)
    returns (r: Result<RegistrationRow>)
    requires db.Valid()
    modifies db
    ensures db.Valid()
    ensures r.Err? ==> db.State() == old(db.State())
    ensures eventId !in old(db.events) ==> r == Err(EventNotFound)
    ensures eventId in old(db.events) && participantId !in old(db.users) ==> r == Err(UserNotFound)
    ensures (eventId in old(db.events) && participantId in old(db.users) &&
             IsRegistered(old(db.registrations), eventId, participantId)) ==> r == Err(AlreadyRegistered)
    ensures r.Ok? <==> eventId in old(db.events) && participantId in old(db.users) &&
                       !IsRegistered(old(db.registrations), eventId, participantId)
    ensures r.Ok? ==>
      && r.value == RegistrationRow(old(db.nextRegistrationId), eventId, participantId, false, Some(now))
      && r.value.id !in old(db.registrations)
      && db.State() == old(db.State()).(registrations := old(db.registrations)[r.value.id := r.value],
                                        nextRegistrationId := old(db.nextRegistrationId) + 1)
    ensures IsRegistered(db.registrations, eventId, participantId) <==>
            r.Ok? || r == Err(AlreadyRegistered)
    ensures PairsUnique(old(db.registrations)) ==> PairsUnique(db.registrations)
  {
    var event := db.FindEvent(eventId);
    if event.None? {
      return Err(EventNotFound);
    }
    var participant := db.FindUser(participantId);
    if participant.None? {
      return Err(UserNotFound);
    }
    var existing := db.FindRegistrationByEventAndParticipant(eventId, participantId);
    if existing.Some? {
      return Err(AlreadyRegistered);
    }
    var registration := new Registration.Create(Some(event.value), Some(participant.value));
    r := db.SaveNewRegistration(registration, now);
    assert r.Ok?;
    assert db.registrations[r.value.id] == r.value;
    assert r.value in db.registrations.Values;
  }

  method MarkAttendance(db: Store, registrationId: nat, attended: bool) returns (r: Result<RegistrationRow>)
    requires db.Valid()
    modifies db
    ensures db.Valid()
    ensures r.Ok? <==> registrationId in old(db.registrations)
    ensures r.Err? ==> r.error == RegistrationNotFound && db.State() == old(db.State())
    ensures r.Ok? ==>
      && r.value == old(db.registrations[registrationId]).(attended := attended)
      && db.State() == old(db.State()).(registrations := old(db.registrations)[registrationId := r.value])
    ensures PairsUnique(old(db.registrations)) ==> PairsUnique(db.registrations)
  {
    var found := db.FindRegistration(registrationId);
    if found.None? {
      return Err(RegistrationNotFound);
    }
    var row := found.value;
    var registration := new Registration.Load(row, db.events[row.eventId], db.users[row.participantId]);
    registration.SetAttended(Some(attended));
    r := db.SaveRegistration(registration);
  }

  /** The registration's event is stored with status APPROVED. */
  function EventApproved(events: map<nat, EventRow>): RegistrationRow -> bool {
    (g: RegistrationRow) => g.eventId in events && events[g.eventId].status == Approved
  }

  /** The condition of the single query that would join registrations with approved events. */
  function ApprovedFor(events: map<nat, EventRow>, participantId: nat): RegistrationRow -> bool {
    (g: RegistrationRow) => g.participantId == participantId && g.eventId in events && events[g.eventId].status == Approved
  }

  /**
   * getApprovedRegistrations: the participant's registrations, filtered in
   * memory to those whose event is APPROVED. The result is what the join
   * query would return: exactly those registrations, in id order.
   */
  function ApprovedRegistrations(db: Store, participantId: nat): (r: seq<RegistrationRow>)
    reads db
    requires db.Valid()
    ensures r == db.RegistrationsWhere(ApprovedFor(db.events, participantId))
    ensures forall g :: g in r <==>
      g in db.registrations.Values && g.participantId == participantId &&
      db.events[g.eventId].status == Approved
    ensures forall i, j :: 0 <= i < j < |r| ==> r[i].id < r[j].id
  {
    FilterOfSelection(db.registrations, db.nextRegistrationId, ParticipantIs(participantId),
                      EventApproved(db.events), ApprovedFor(db.events, participantId));
    Filter(db.RegistrationsByParticipant(participantId), EventApproved(db.events))
  }
}
