# Event management backend: service layer and entities in Dafny

This project models the service layer of a small event-management backend.
Organizers create events. An admin approves or rejects them. Participants
register for events, and their attendance is recorded. The model covers the
three services (`EventService`, `RegistrationService`, `UserService`), the two
JPA entities they mutate (`Event`, `Registration`), and the store behind the
repositories.

Modules, one per component:

- `Entities` (Entities.dfy): the value types. `User` is a record of id, email
  and password. `EventRow` and `RegistrationRow` are the table rows, and
  `EventRequest` is the request body. `Error` is the set of failures. The
  failures the services throw carry the source's exception message; the two
  that stand for persistence-layer exceptions carry the model's own (see
  "Decisions"). The Java entities `Event` and `Registration`
  are classes. Every field that Java allows to be null is an `Option`. Each
  class has a `State()` snapshot, so that a setter's contract can say "only this
  field changed" in one equation. The classes also have the constructors, the
  `@PrePersist` callbacks (`OnCreate`) and the setters the services use.
- `Tables` (Tables.dfy): generic queries over a table held as a map from id to
  row. `SelectIds` is a scan, `Rows` reads rows by id, and `Filter` is a
  stream filter. Lemmas relate them: a filter applied after a scan equals the
  scan for both conditions together.
- `Repositories` (Repositories.dfy): the class `Store`. It holds the users,
  events and registrations tables and one identity counter per table. It
  defines the derived queries the repositories declare and the saves and the
  delete the services call. `Valid()` is the store's integrity: every row is
  stored under its own id, below its table's counter; foreign keys point at
  stored rows; and descriptions fit their column.
- `EventService`, `RegistrationService`, `UserService`: one method per
  operation that changes state, and one function per query with logic of its
  own. `UpdateEvent`, `ApproveEvent`, `RejectEvent` and `MarkAttendance` look
  the entity up, change the loaded entity object through its setters and save
  it, as the Java code does. `CreateEvent` looks the organizer up and fills a
  new Event object through its setters. `RegisterForEvent` looks up the event
  and the participant and builds a new Registration with its two-argument
  constructor. `RegisterUser` saves the user value it is given. `DeleteEvent`
  hands the id to the store's delete. The service-level invariants
  are "at most one registration per (event, participant)" (`PairsUnique`) and
  "no two users share an email" (`EmailsUnique`). The methods that insert
  preserve them.
- `Scenarios`: client call sequences, with what the contracts alone let a
  caller conclude. These are: register the same pair twice; approve, reject or
  mark attendance twice; log in after registering; and the full
  create / approve / register / attend walkthrough.

Decisions:

- The services throw `RuntimeException` with a message, and `EventController`
  and `RegistrationController` turn every one of them into a 400 response
  (the controller in front of `registerUser` and `login` is not part of this
  model). The model returns `Result.Err(e)`. For the errors the services
  raise themselves, `e.Message()` is the source's message. There is no
  separate "not found" or "conflict" kind, because the code has none. Two
  errors are not the services' own, and their messages are the model's:
  `EventNotFound` from `DeleteEvent` on a missing id stands for the
  persistence library's exception, whose message names the entity class and
  the id; and `ConstraintViolation` stands for the database's exception.
  Where a derived query would find several rows and the library would
  throw, the model returns the first one instead (see "## Left out").
- `Registration.java` declares no uniqueness constraint on (event,
  participant), neither on the table (line 9) nor on the join columns
  (lines 16-24), so the model enforces the pair uniqueness only in
  `RegisterForEvent` (`PairsUnique`). `User.java` is not part of this model.
  Email uniqueness is likewise kept only by `RegisterUser` (`EmailsUnique`).
- Queries return rows in ascending id order. SQL without `ORDER BY` leaves the
  order open, and this model fixes one.
- `deleteEvent` on an id that is not stored returns `EventNotFound` and
  changes nothing. `deleteById` is decided by the persistence library. The
  library generation used with `javax.persistence` throws on a missing id
  (`EmptyResultDataAccessException`, with the library's own message).
- A column constraint broken on save is reported as `ConstraintViolation`.
  The constraints are: a NOT NULL column left null, a description over 2000
  characters, or a foreign key to a missing row. Its message is the model's
  own, not the source's.
- Clock reads (`LocalDateTime.now()`) are a `now` parameter. Identity columns
  are counters whose next value is above every stored id.

## Model

| member | source | states |
|---|---|---|
| `Entities.Event.constructor` | backend/src/main/java/com/eventmanagement/model/Event.java:57 | `new Event()` leaves every field null |
| `Entities.Event.Create` | backend/src/main/java/com/eventmanagement/model/Event.java:59-66 | the five-argument constructor stores title, description, eventDate, location and organizer as given, sets status PENDING, and leaves id and createdAt null |
| `Entities.Event.OnCreate` | backend/src/main/java/com/eventmanagement/model/Event.java:48-54 | sets createdAt to the current time; sets status to PENDING only when it was null, otherwise leaves it; changes no other field |
| `Entities.Event.SetId` | backend/src/main/java/com/eventmanagement/model/Event.java:73-75 | changes only id |
| `Entities.Event.SetTitle` | backend/src/main/java/com/eventmanagement/model/Event.java:81-83 | changes only title |
| `Entities.Event.SetDescription` | backend/src/main/java/com/eventmanagement/model/Event.java:89-91 | changes only description |
| `Entities.Event.SetEventDate` | backend/src/main/java/com/eventmanagement/model/Event.java:97-99 | changes only eventDate |
| `Entities.Event.SetLocation` | backend/src/main/java/com/eventmanagement/model/Event.java:105-107 | changes only location |
| `Entities.Event.SetStatus` | backend/src/main/java/com/eventmanagement/model/Event.java:113-115 | changes only status |
| `Entities.Event.SetOrganizer` | backend/src/main/java/com/eventmanagement/model/Event.java:121-123 | changes only organizer |
| `Entities.Registration.constructor` | backend/src/main/java/com/eventmanagement/model/Registration.java:41 | `new Registration()` leaves every field null |
| `Entities.Registration.Create` | backend/src/main/java/com/eventmanagement/model/Registration.java:43-47 | stores the event and participant references as given and sets attended to false |
| `Entities.Registration.OnCreate` | backend/src/main/java/com/eventmanagement/model/Registration.java:32-38 | sets registeredAt to the current time; sets attended to false only when it was null, otherwise leaves it; changes no other field |
| `Entities.Registration.SetId` | backend/src/main/java/com/eventmanagement/model/Registration.java:54-56 | changes only id |
| `Entities.Registration.SetAttended` | backend/src/main/java/com/eventmanagement/model/Registration.java:78-80 | changes only attended; id, event, participant and registeredAt are untouched |
| `Tables.SelectIds` | backend/src/main/java/com/eventmanagement/repository/EventRepository.java:10-11 | the scan behind a derived query: its result strictly ascends (no id twice) and holds an id exactly when it is stored below the bound and its row satisfies the condition |
| `Tables.Filter` | backend/src/main/java/com/eventmanagement/service/RegistrationService.java:51-54 | the stream filter: never longer than its input, and holds an element exactly when the input holds it and it satisfies the condition |
| `Tables.FilterAppend` | backend/src/main/java/com/eventmanagement/service/RegistrationService.java:51-54 | filtering a concatenation is the concatenation of the filtered parts, so the filter keeps the input's order |
| `Tables.RowsOfSelection` | backend/src/main/java/com/eventmanagement/repository/RegistrationRepository.java:9-11 | when each row carries its own id, a scan returns exactly the stored rows satisfying the condition, in ascending id order |
| `Tables.FilterOfSelection` | backend/src/main/java/com/eventmanagement/service/RegistrationService.java:50-55 | filtering the result of a scan by a second condition gives exactly the scan for both conditions, element for element and in the same order |
| `Repositories.Store.FindUser` | backend/src/main/java/com/eventmanagement/service/UserService.java:26-28 | getUserById: finds a user exactly when the id is stored, and the user found carries that id; reads only |
| `Repositories.Store.FindEvent` | backend/src/main/java/com/eventmanagement/service/EventService.java:34-36 | getEventById: finds an event exactly when the id is stored, and the event found carries that id; reads only |
| `Repositories.Store.FindRegistration` | backend/src/main/java/com/eventmanagement/service/RegistrationService.java:60-61 | findById on registrations: finds one exactly when the id is stored; reads only |
| `Repositories.Store.FindUserByEmail` | backend/src/main/java/com/eventmanagement/service/UserService.java:16 | finds a user exactly when some stored user has that email, and the user found has it |
| `Repositories.Store.FindUserByEmailAndPassword` | backend/src/main/java/com/eventmanagement/service/UserService.java:23 | finds a user exactly when some stored user has both that email and that password, and the user found has both |
| `Repositories.Store.AllEvents` | backend/src/main/java/com/eventmanagement/service/EventService.java:38-40 | getAllEvents: every stored event, each once, in id order |
| `Repositories.Store.EventsByStatus` | backend/src/main/java/com/eventmanagement/repository/EventRepository.java:10 | exactly the stored events with the given status, each once, in id order |
| `Repositories.Store.EventsByOrganizer` | backend/src/main/java/com/eventmanagement/service/EventService.java:50-52 | getEventsByOrganizer: exactly the stored events whose organizer has the given id, each once, in id order; empty (not an error) when none match |
| `Repositories.Store.RegistrationsByEvent` | backend/src/main/java/com/eventmanagement/service/RegistrationService.java:41-43 | getEventRegistrations: exactly the stored registrations for the event, each once, in id order |
| `Repositories.Store.RegistrationsByParticipant` | backend/src/main/java/com/eventmanagement/service/RegistrationService.java:45-47 | getUserRegistrations: exactly the stored registrations of the participant, each once, in id order |
| `Repositories.Store.FindRegistrationByEventAndParticipant` | backend/src/main/java/com/eventmanagement/service/RegistrationService.java:30-31 | finds a registration exactly when one links that event and that participant, and the one found does |
| `Repositories.Store.SaveNewUser` | backend/src/main/java/com/eventmanagement/service/UserService.java:19 | inserts the user under a fresh id and keeps the store valid; the other tables are unchanged |
| `Repositories.Store.SaveNewEvent` | backend/src/main/java/com/eventmanagement/model/Event.java:19-54 | runs onCreate and then inserts the event under a fresh id when title, eventDate, location, status and organizer are set, the description has at most 2000 characters and the organizer is stored; otherwise fails with ConstraintViolation, the tables are unchanged and the object keeps the fields onCreate set |
| `Repositories.Store.SaveEvent` | backend/src/main/java/com/eventmanagement/service/EventService.java:63 | writes a loaded event back to its own row, under the same column constraints; nothing else changes |
| `Repositories.Store.DeleteEvent` | backend/src/main/java/com/eventmanagement/model/Event.java:43-45 | deleteById with the cascade of the event's registrations: removes the event and every registration for it; afterwards getEventRegistrations of that id is empty; users and other registrations are kept; a missing id gives EventNotFound and no change |
| `Repositories.Store.SaveNewRegistration` | backend/src/main/java/com/eventmanagement/model/Registration.java:16-38 | runs onCreate and then inserts the registration under a fresh id when event, participant and attended are set and the event and participant are stored; otherwise fails with ConstraintViolation, the tables are unchanged and the object keeps the fields onCreate set |
| `Repositories.Store.SaveRegistration` | backend/src/main/java/com/eventmanagement/service/RegistrationService.java:64 | writes a loaded registration back to its own row; nothing else changes |
| `EventService.CreateEvent` | backend/src/main/java/com/eventmanagement/service/EventService.java:21-32 | missing organizer gives "Organizer not found" and no change; otherwise, if the request fills the required columns, adds exactly one event under a fresh id with status PENDING, title = name, description, eventDate and location copied and organizer = the resolved user; users and registrations unchanged |
| `EventService.UpdateEvent` | backend/src/main/java/com/eventmanagement/service/EventService.java:54-64 | missing id gives "Event not found" and no change; otherwise overwrites only title, description, eventDate and location of that event; status, organizer, createdAt, other events and other tables are unchanged |
| `EventService.ApproveEvent` | backend/src/main/java/com/eventmanagement/service/EventService.java:66-71 | missing id gives "Event not found" and no change; otherwise sets that event's status to APPROVED whatever it was and changes nothing else |
| `EventService.RejectEvent` | backend/src/main/java/com/eventmanagement/service/EventService.java:73-78 | missing id gives "Event not found" and no change; otherwise sets that event's status to REJECTED whatever it was and changes nothing else |
| `EventService.DeleteEvent` | backend/src/main/java/com/eventmanagement/service/EventService.java:80-82 | a missing id gives EventNotFound and no change; otherwise the event and exactly the registrations for it are removed, and every other table and id counter is unchanged; afterwards the event is not found and getEventRegistrations of that id is empty |
| `EventService.ApprovedEvents` | backend/src/main/java/com/eventmanagement/service/EventService.java:42-44 | exactly the stored events with status APPROVED, in id order; reads only |
| `EventService.PendingEvents` | backend/src/main/java/com/eventmanagement/service/EventService.java:46-48 | exactly the stored events with status PENDING, in id order; reads only |
| `RegistrationService.RegisterForEvent` | backend/src/main/java/com/eventmanagement/service/RegistrationService.java:23-39 | missing event gives "Event not found" (checked first, so it wins when both are missing); then a missing participant gives "User not found"; then an existing pair gives "Already registered for this event"; each failure leaves the store unchanged; otherwise adds exactly one registration for that event and participant with attended false; preserves at most one registration per pair |
| `RegistrationService.MarkAttendance` | backend/src/main/java/com/eventmanagement/service/RegistrationService.java:59-65 | missing id gives "Registration not found" and no change; otherwise sets only that registration's attended flag to the given value; other fields, other registrations and other tables are unchanged |
| `RegistrationService.ApprovedRegistrations` | backend/src/main/java/com/eventmanagement/service/RegistrationService.java:50-55 | the participant's registrations filtered to those whose event is APPROVED equal the single query for both conditions: exactly those registrations, in id order |
| `UserService.Login` | backend/src/main/java/com/eventmanagement/service/UserService.java:22-24 | returns a user exactly when one has that email and that password, and None otherwise (not an error); when emails are unique it returns that user; reads only |
| `UserService.RegisterUser` | backend/src/main/java/com/eventmanagement/service/UserService.java:15-20 | an email already stored gives "Email already exists" and no change; otherwise adds exactly that user under a fresh id; no two users share an email afterwards if none did before; login with the new email and password then returns the new user |
| `Scenarios.RegisterTwice` | backend/src/main/java/com/eventmanagement/service/RegistrationService.java:30-38 | registering a new pair twice: the first call adds a registration with attended false, the second fails with "Already registered for this event" and adds nothing |
| `Scenarios.ApproveTwice` | backend/src/main/java/com/eventmanagement/service/EventService.java:66-71 | approving twice returns the same event and leaves the same store as approving once |
| `Scenarios.RejectTwice` | backend/src/main/java/com/eventmanagement/service/EventService.java:73-78 | rejecting twice returns the same event and leaves the same store as rejecting once |
| `Scenarios.MarkAttendanceTwice` | backend/src/main/java/com/eventmanagement/service/RegistrationService.java:59-65 | marking attendance twice with the same value leaves the same store as marking once |
| `Scenarios.RegisterThenLogin` | backend/src/main/java/com/eventmanagement/service/UserService.java:15-24 | after registering with an unused email, login with that email and password returns the registered user |
| `Scenarios.Walkthrough` | backend/src/main/java/com/eventmanagement/service/RegistrationService.java:23-65 | create (PENDING), approve (APPROVED), register (attended false), mark present (attended true): the registration is then among the participant's approved registrations |

## Left out

- Controllers (`EventController`, `RegistrationController` and its request classes): HTTP routing, and the mapping of exceptions to 400 and of empty results to 404.
- Spring Data and JPA themselves. The repositories are scans over maps. Only the parts of persistence that the services depend on are modelled: `@PrePersist` on insert, NOT NULL columns, the description length, foreign keys, identity ids and the cascade on delete. JPA's loading of a stored row into an entity object is the `Load` constructors.
- Timestamps: `LocalDateTime.now()` is the `now` parameter, and `DateTime` is an opaque integer.
- Concurrency: the model is sequential, so the check-then-insert race in registerForEvent and registerUser does not arise.
- Password hashing and the JSON back-reference annotations: neither is logic.
- Getters, and the setters the services never call (`setCreatedAt`, `setRegistrations`, `setEvent`, `setParticipant`, `setRegisteredAt`): each is a plain field read or write.
- The in-memory `registrations` set of an Event object. The cascade it declares is modelled in `Repositories.Store.DeleteEvent`.
- User fields other than id, email and password. `User.java` is not part of this model.
- Null ids and a null attended value in a request: ids are `nat`, and `MarkAttendance` takes a `bool`.
- UserService.RegisterUser: does not use the id the candidate carries. Saving a candidate with a non-null id would make JPA merge it into an existing row, and that merge is not modelled.
- Repositories.Store.SaveNewEvent: requires an object without an id, because the services only insert fresh objects. Saving an object that carries an id would make JPA merge it, and that path is modelled by `SaveEvent` only for stored ids.
- Repositories.Store.SaveNewRegistration: requires an object without an id, for the same reason.
- Repositories.Store.SaveEvent: requires that the object's id is stored, because the services only save events they have just loaded. A save of a detached object with an unknown id is not modelled.
- Repositories.Store.SaveRegistration: requires that the object's id is stored, for the same reason.
- Repositories.Store.FindUserByEmail: returns the lowest matching id when several users share the email, where Spring Data would throw. Under `EmailsUnique` at most one matches.
- Repositories.Store.FindUserByEmailAndPassword: the same, for email and password together.
- Repositories.Store.FindRegistrationByEventAndParticipant: the same, for a pair; under `PairsUnique` at most one matches. Spring Data's exception for several matches (`IncorrectResultSizeDataAccessException`) is not modelled for any of these three queries.
- Repositories.Store.FindUserByEmail and Repositories.Store.FindUserByEmailAndPassword compare strings exactly, character by character. The database compares them under its collation, which the source does not fix and which may ignore case; that comparison is not modelled.
- A Registration object holds its event as an `EventRow` value. In Java it holds a reference to the loaded `Event` entity, so a later change to that entity would be seen through the registration. No service operation relies on that aliasing, and it is not modelled.
