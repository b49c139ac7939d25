/**
 * Values and entity objects of the event-management backend: users, events,
 * registrations, the create/update request, and the errors the services raise.
 *
 * The Java entities Event and Registration are mutable objects whose fields a
 * service changes through setters before saving; they are classes here, with
 * every field that Java allows to be null typed as an Option. What a table
 * stores is a row value (EventRow, RegistrationRow) whose required columns are
 * never null.
 */
module Entities {

  datatype Option<+T> = None | Some(value: T)

  /** A LocalDateTime, treated as an opaque value that is only stored and compared. */
  type DateTime = int

  datatype EventStatus = Pending | Approved | Rejected

  /** A stored user. Only the fields the services read are modelled. */
  datatype User = User(id: nat, email: string, password: string)

  /** The body of a create or update request; any field may be missing (null). */
  datatype EventRequest = EventRequest(
    name: Option<string>,
    description: Option<string>,
    eventDate: Option<DateTime>,
    location: Option<string>,
    organizerId: nat)

  /** A row of the events table: the organizer is held by its id. */
  datatype EventRow = EventRow(
    id: nat,
    title: string,
    description: Option<string>,
    eventDate: DateTime,
    location: string,
    status: EventStatus,
    organizerId: nat,
    createdAt: Option<DateTime>)

  /** A row of the registrations table: event and participant are held by their ids. */
  datatype RegistrationRow = RegistrationRow(
    id: nat,
    eventId: nat,
    participantId: nat,
    attended: bool,
    registeredAt: Option<DateTime>)

  /**
   * The failures of the services. Each is a RuntimeException a service
   * throws, except two that stand for exceptions of the persistence layer:
   * ConstraintViolation for the database's exception when a row breaks a
   * column constraint, and EventNotFound when the delete of a missing id
   * fails inside the persistence library.
   */
  datatype Error =
    | OrganizerNotFound
    | EventNotFound
    | UserNotFound
    | AlreadyRegistered
    | RegistrationNotFound
    | EmailExists
    | ConstraintViolation
  {
    /**
     * The message of the exception. For the errors the services throw it is
     * the source's message; for the persistence layer's two it is the model's.
     */
    function Message(): string {
      match this
      case OrganizerNotFound => "Organizer not found"
      case EventNotFound => "Event not found"
      case UserNotFound => "User not found"
      case AlreadyRegistered => "Already registered for this event"
      case RegistrationNotFound => "Registration not found"
      case EmailExists => "Email already exists"
      case ConstraintViolation => "constraint violation"
    }
  }

  datatype Result<+T> = Ok(value: T) | Err(error: Error)

  /** The declared length of the description column. */
  const MaxDescriptionLength: nat := 2000

  predicate DescriptionFits(description: Option<string>) {
    description.Some? ==> |description.value| <= MaxDescriptionLength
  }

  // ---------------------------------------------------------------------------
  // Event objects
  // ---------------------------------------------------------------------------

  /** The field values of an Event object. */
  datatype EventState = EventState(
    id: Option<nat>,
    title: Option<string>,
    description: Option<string>,
    eventDate: Option<DateTime>,
    location: Option<string>,
    status: Option<EventStatus>,
    organizer: Option<User>,
    createdAt: Option<DateTime>)

  /** The NOT NULL columns are set and the description fits its column. */
  predicate EventColumnsValid(s: EventState) {
    && s.title.Some?
    && s.eventDate.Some?
    && s.location.Some?
    && s.status.Some?
    && s.organizer.Some?
    && DescriptionFits(s.description)
  }

  /** The row an Event object with these fields is stored as, under the given id. */
  function EventRowOf(s: EventState, id: nat): EventRow
    requires EventColumnsValid(s)
  {
    EventRow(id, s.title.value, s.description, s.eventDate.value, s.location.value,
             s.status.value, s.organizer.value.id, s.createdAt)
  }

  /** The fields of the object the persistence layer builds for a stored event. */
  function EventStateOf(row: EventRow, organizer: User): EventState {
    EventState(Some(row.id), Some(row.title), row.description, Some(row.eventDate),
               Some(row.location), Some(row.status), Some(organizer), row.createdAt)
  }

  class Event {
    var id: Option<nat>
    var title: Option<string>
    var description: Option<string>
    var eventDate: Option<DateTime>
    var location: Option<string>
    var status: Option<EventStatus>
    var organizer: Option<User>
    var createdAt: Option<DateTime>

    function State(): EventState
      reads this
    {
      EventState(id, title, description, eventDate, location, status, organizer, createdAt)
    }

    /** `new Event()`: every field is null. */
    constructor ()
      ensures State() == EventState(None, None, None, None, None, None, None, None)
    {
      id, title, description, eventDate := None, None, None, None;
      location, status, organizer, createdAt := None, None, None, None;
    }

    /** The five-argument constructor: stores what it is given and starts PENDING. */
    constructor Create(title: Option<string>, description: Option<string>,
                       eventDate: Option<DateTime>, location: Option<string>,
                       organizer: Option<User>)
      ensures State() == EventState(None, title, description, eventDate, location,
                                    Some(Pending), organizer, None)
    {
      this.id := None;
      this.title := title;
      this.description := description;
      this.eventDate := eventDate;
      this.location := location;
      this.organizer := organizer;
      this.status := Some(Pending);
      this.createdAt := None;
    }

    /** The object the persistence layer materialises when it loads a stored event. */
    constructor Load(row: EventRow, organizer: User)
      requires organizer.id == row.organizerId
      ensures State() == EventStateOf(row, organizer)
    {
      id, title, description, eventDate := Some(row.id), Some(row.title), row.description, Some(row.eventDate);
      location, status, this.organizer, createdAt := Some(row.location), Some(row.status), Some(organizer), row.createdAt;
    }

    /** The @PrePersist callback: stamps the creation time and defaults a null status to PENDING. */
    method OnCreate(now: DateTime)
      modifies this
      ensures State() == old(State()).(createdAt := Some(now),
                                       status := if old(status).None? then Some(Pending) else old(status))
    {
      createdAt := Some(now);
      if status.None? {
        status := Some(Pending);
      }
    }

    method SetId(id: Option<nat>)
      modifies this
      ensures State() == old(State()).(id := id)
    {
      this.id := id;
    }

    method SetTitle(title: Option<string>)
      modifies this
      ensures State() == old(State()).(title := title)
    {
      this.title := title;
    }

    method SetDescription(description: Option<string>)
      modifies this
      ensures State() == old(State()).(description := description)
    {
      this.description := description;
    }

    method SetEventDate(eventDate: Option<DateTime>)
      modifies this
      ensures State() == old(State()).(eventDate := eventDate)
    {
      this.eventDate := eventDate;
    }

    method SetLocation(location: Option<string>)
      modifies this
      ensures State() == old(State()).(location := location)
    {
      this.location := location;
    }

    method SetStatus(status: Option<EventStatus>)
      modifies this
      ensures State() == old(State()).(status := status)
    {
      this.status := status;
    }

    method SetOrganizer(organizer: Option<User>)
      modifies this
      ensures State() == old(State()).(organizer := organizer)
    {
      this.organizer := organizer;
    }
  }

  // ---------------------------------------------------------------------------
  // Registration objects
  // ---------------------------------------------------------------------------

  /** The field values of a Registration object. */
  datatype RegistrationState = RegistrationState(
    id: Option<nat>,
    event: Option<EventRow>,
    participant: Option<User>,
    attended: Option<bool>,
    registeredAt: Option<DateTime>)

  /** The NOT NULL columns (event, participant, attended) are set. */
  predicate RegistrationColumnsValid(s: RegistrationState) {
    s.event.Some? && s.participant.Some? && s.attended.Some?
  }

  /** The row a Registration object with these fields is stored as, under the given id. */
  function RegistrationRowOf(s: RegistrationState, id: nat): RegistrationRow
    requires RegistrationColumnsValid(s)
  {
    RegistrationRow(id, s.event.value.id, s.participant.value.id, s.attended.value, s.registeredAt)
  }

  /** The fields of the object the persistence layer builds for a stored registration. */
  function RegistrationStateOf(row: RegistrationRow, event: EventRow, participant: User): RegistrationState {
    RegistrationState(Some(row.id), Some(event), Some(participant), Some(row.attended), row.registeredAt)
  }

  class Registration {
    var id: Option<nat>
    var event: Option<EventRow>
    var participant: Option<User>
    var attended: Option<bool>
    var registeredAt: Option<DateTime>

    function State(): RegistrationState
      reads this
    {
      RegistrationState(id, event, participant, attended, registeredAt)
    }

    /** `new Registration()`: every field is null. */
    constructor ()
      ensures State() == RegistrationState(None, None, None, None, None)
    {
      id, event, participant, attended, registeredAt := None, None, None, None, None;
    }

    /** `new Registration(event, participant)`: stores both references and sets attended to false. */
    constructor Create(event: Option<EventRow>, participant: Option<User>)
      ensures State() == RegistrationState(None, event, participant, Some(false), None)
    {
      this.id := None;
      this.event := event;
      this.participant := participant;
      this.attended := Some(false);
      this.registeredAt := None;
    }

    /** The object the persistence layer materialises when it loads a stored registration. */
    constructor Load(row: RegistrationRow, event: EventRow, participant: User)
      requires event.id == row.eventId && participant.id == row.participantId
      ensures State() == RegistrationStateOf(row, event, participant)
    {
      id, this.event, this.participant := Some(row.id), Some(event), Some(participant);
      attended, registeredAt := Some(row.attended), row.registeredAt;
    }

    /** The @PrePersist callback: stamps the registration time and defaults a null attended to false. */
    method OnCreate(now: DateTime)
      modifies this
      ensures State() == old(State()).(registeredAt := Some(now),
                                       attended := if old(attended).None? then Some(false) else old(attended))
    {
      registeredAt := Some(now);
      if attended.None? {
        attended := Some(false);
      }
    }

    method SetId(id: Option<nat>)
      modifies this
      ensures State() == old(State()).(id := id)
    {
      this.id := id;
    }

    method SetAttended(attended: Option<bool>)
      modifies this
      ensures State() == old(State()).(attended := attended)
    {
      this.attended := attended;
    }
  }
}
