# EventHive core, modelled in Dafny

EventHive is an Android app for publishing events and selling tickets. This project models its data and
logic layers and proves properties about them:

- **Ticket codes** (`ticket_code.dfy`): `TicketCodeGenerator` formats `EVT-<event>-<millis>-<suffix>` and
  checks that format. The clock and the random suffix are parameters.
- **Room persistence** (`entities.dfy`, `room_store.dfy`, `dao_queries.dfy`):
  - the `Event` model and the `EventEntity`, `UserEntity` and `TicketEntity` records, as classes with their setters;
  - a `RoomStore` class holding the three tables, with auto-generated ids;
  - the unique indexes on `email` and `unique_code`;
  - the cascading foreign keys from tickets to users and events;
  - the `UserDao`, `EventDao` and `TicketDao` queries.
- **Repositories** (`repositories.dfy`):
  - `TicketRepository`'s bounded retry loop that picks a free ticket code;
  - `EventRepository`'s timestamp derivation and its backfill of legacy rows;
  - `UserRepository`'s hash-then-insert registration and its login outcomes.
- **Passwords** (`password_hasher.dfy`, `base64.dfy`): `PasswordHasher` stores `base64(salt):base64(digest)`.
  - Base64 follows section 4 of RFC 4648, and its round trip is proved.
  - The digest is an abstract function of the salt and the password.
- **Schema evolution** (`sqlite.dfy`, `room_migrations.dfy`):
  - a small SQLite engine: tables of named columns with defaults, rows of typed values (NULL, INTEGER, REAL, TEXT) keyed by column name, unique indexes;
  - the statements the app issues, over that engine;
  - `AppDatabase`'s `MIGRATION_3_4` and `MIGRATION_4_5`;
  - the open path, with its destructive fallback and the creation seed.
- **Legacy helper** (`legacy_helper.dfy`, `legacy_queries.dfy`): `DatabaseHelper`, the pre-Room SQLite
  helper, over the same engine:
  - `onCreate` and its seed;
  - the `onUpgrade` blocks, each with its own try/catch;
  - the user and ticket queries;
  - the cursor readers, including their defaults.
- **View models and session** (`view_models.dfy`, `session.dfy`):
  - the `EventViewModel`, `TicketViewModel` and `AuthViewModel` validation chains and result mapping;
  - `SessionManager`'s key/value preferences with a default for every key.
- **Screen helpers** (`screens.dfy`):
  - the ticket list search in `MyTicketsActivity`;
  - `getRelativeTime` in `NotificationsActivity`;
  - the purchase guards and gallery split in `EventDetailsActivity`;
  - the form validation, gallery join and pick cap in `CreateEventActivity`;
  - `AuthManager.getErrorMessage`.

`strings.dfy` and `tables.dfy` hold the supporting definitions:

- `strings.dfy` models the Java string operations the code relies on: `trim`, `split`, `String.join`,
  `contains`, and decimal printing and parsing.
- `tables.dfy` holds ordered-table helpers.

Asynchronous callbacks follow one pattern:

- A repository call that runs on an executor and answers through `onSuccess` or `onError` is modelled
  as a method that returns a `Result`.
- A view model that starts such a call and later receives its answer has two methods: one that
  validates and returns the request, and an `On…` method that receives the outcome.

The clock, random numbers, `SecureRandom`, SHA-256, `SimpleDateFormat`, `Double.parseDouble` and the
e-mail pattern are all parameters.

Where the code and its documentation disagree, the model follows the code:

- Room's destructive fallback drops and re-creates the tables but does not run the creation callback, so
  the rebuilt store is empty rather than seeded (`RoomMigrations.DestructiveOpen`).
- The seeded admin's password is stored in plaintext, and `UserRepository.loginUser` always rejects it
  (`Repositories.SeededAdminCannotLogIn`).
- The legacy tickets table has no unique index on `unique_code` (`LegacyQueries.DuplicateCodeAccepted`).
- `EventDetailsActivity` writes `TICKET-…` codes that `isValidFormat` rejects (`Screens.LegacyCodeInvalid`).
- A version-3 file in the legacy helper's layout is not upgraded by Room: both migrations run, but its tickets table has no unique index on `unique_code`, so Room's schema validation refuses it (`LegacyDatabase.LegacyV3RefusedByRoom`).
- Room opening the legacy helper's version-6 file finds no path down from 6 to 5 and wipes users, events and tickets (`LegacyDatabase.RoomWipesVersionSix`).

## Model

| member | source | states |
|---|---|---|
| TicketCodes.Pad4 | app/src/main/java/com/example/eventhive/utils/TicketCodeGenerator.java:24 | `%04d` prints only decimal digits, at least four of them, whose value is the number; the unpadded decimal when it already has four or more digits, otherwise exactly four |
| TicketCodes.Suffix | app/src/main/java/com/example/eventhive/utils/TicketCodeGenerator.java:22 | the random suffix `1000 + nextInt(9000)` lies in 1000..9999 |
| TicketCodes.GenerateTicketCode | app/src/main/java/com/example/eventhive/utils/TicketCodeGenerator.java:20-25 | a generated code starts with `EVT-`, and passes `isValidFormat` when the event id and clock reading are non-negative |
| TicketCodes.IsValidFormat | app/src/main/java/com/example/eventhive/utils/TicketCodeGenerator.java:33-40 | a code that passes is non-null, at least 12 characters long and starts with `EVT-` |
| TicketCodes.SuffixIsFourDigits | app/src/main/java/com/example/eventhive/utils/TicketCodeGenerator.java:22-24 | the suffix prints as exactly four digits, so the zero padding never applies |
| TicketCodes.AssembleSplit | app/src/main/java/com/example/eventhive/utils/TicketCodeGenerator.java:24 | a code built from digit fields starts with `EVT-` and splitting the rest on '-' gives the three fields back |
| TicketCodes.IsValidFormatIff | app/src/main/java/com/example/eventhive/utils/TicketCodeGenerator.java:33-40 | `isValidFormat` accepts a string exactly when it is `EVT-` digits `-` digits `-` four digits |
| TicketCodes.NullOrEmptyInvalid | app/src/main/java/com/example/eventhive/utils/TicketCodeGenerator.java:34-36 | null and the empty string are rejected |
| TicketCodes.GeneratedIsValid | app/src/main/java/com/example/eventhive/utils/TicketCodeGenerator.java:20-40 | every code generated for a non-negative event id and clock reading passes `isValidFormat` |
| TicketCodes.GenerateInjective | app/src/main/java/com/example/eventhive/utils/TicketCodeGenerator.java:20-25 | distinct (event id, timestamp, draw) triples give distinct codes |
| TicketCodes.NegativeEventIdInvalid | app/src/main/java/com/example/eventhive/utils/TicketCodeGenerator.java:24-39 | a negative event id prints a '-' sign, so its generated code fails `isValidFormat` |
| Entities.StatusOrActive | app/src/main/java/com/example/eventhive/models/Event.java:75-77 | `getStatus` returns the stored status, or "Active" when it is null |
| Entities.FromEventValue | app/src/main/java/com/example/eventhive/data/local/entities/EventEntity.java:125-141 | `fromEvent` copies every field, reads the status through `getStatus` and sets the timestamp to 0 |
| Entities.ToEventValue | app/src/main/java/com/example/eventhive/data/local/entities/EventEntity.java:143-145 | `toEvent` copies every field but the timestamp; the status is never null afterwards |
| Entities.StoredEvent | app/src/main/java/com/example/eventhive/data/local/entities/EventEntity.java:47-57 | the entity constructor keeps every field and replaces a null status by "Active" |
| Entities.EventRoundTrip | app/src/main/java/com/example/eventhive/data/local/entities/EventEntity.java:125-145 | `fromEvent` then `toEvent` gives the event back, its null status read as "Active" |
| Entities.ToEventIgnoresTimestamp | app/src/main/java/com/example/eventhive/data/local/entities/EventEntity.java:143-145 | the timestamp does not reach the `Event` |
| Entities.Event.constructor | app/src/main/java/com/example/eventhive/models/Event.java:19-28 | the full constructor stores its arguments, a null status becoming "Active" |
| Entities.Event.ForNew | app/src/main/java/com/example/eventhive/models/Event.java:31-38 | the five-argument constructor leaves the id 0 and sets the status "Active" |
| Entities.Event.WithStatus | app/src/main/java/com/example/eventhive/models/Event.java:41-48 | the six-argument constructor leaves the id 0, a null status becoming "Active" |
| Entities.Event.GetStatus | app/src/main/java/com/example/eventhive/models/Event.java:75-77 | `getStatus` returns the stored status, or "Active" when it is null |
| Entities.Event.SetStatus | app/src/main/java/com/example/eventhive/models/Event.java:79-81 | `setStatus` changes the status only |
| Entities.Event.SetId | app/src/main/java/com/example/eventhive/models/Event.java:83-85 | `setId` changes the id only |
| Entities.EventEntity.constructor | app/src/main/java/com/example/eventhive/data/local/entities/EventEntity.java:47-57 | the full constructor stores its arguments, a null status becoming "Active" |
| Entities.EventEntity.GetStatus | app/src/main/java/com/example/eventhive/data/local/entities/EventEntity.java:108-110 | `getStatus` returns the stored status, or "Active" when it is null |
| Entities.EventEntity.SetTimestamp | app/src/main/java/com/example/eventhive/data/local/entities/EventEntity.java:120-122 | `setTimestamp` changes the timestamp only |
| Entities.EventEntity.FromEvent | app/src/main/java/com/example/eventhive/data/local/entities/EventEntity.java:125-141 | a new entity holding `FromEventValue` of the event |
| Entities.EventEntity.ToEvent | app/src/main/java/com/example/eventhive/data/local/entities/EventEntity.java:143-145 | a new `Event` holding `ToEventValue` of the entity |
| Entities.UserEntity.constructor | app/src/main/java/com/example/eventhive/data/local/entities/UserEntity.java:45-55 | the full constructor stores all seven fields |
| Entities.UserEntity.SetPassword | app/src/main/java/com/example/eventhive/data/local/entities/UserEntity.java:93-95 | `setPassword` changes the password only |
| Entities.UserEntity.FromUser | app/src/main/java/com/example/eventhive/data/local/entities/UserEntity.java:114-127 | `fromUser` then `toUser` gives the same user back |
| Entities.UserEntity.ToUser | app/src/main/java/com/example/eventhive/data/local/entities/UserEntity.java:125-127 | `toUser` carries each of the seven fields over |
| Entities.TicketEntity.Empty | app/src/main/java/com/example/eventhive/data/local/entities/TicketEntity.java:38-39 | the no-argument constructor leaves Java's defaults: ids 0 and a null code |
| Entities.TicketEntity.constructor | app/src/main/java/com/example/eventhive/data/local/entities/TicketEntity.java:42-47 | the full constructor stores its four arguments |
| Entities.TicketEntity.SetId | app/src/main/java/com/example/eventhive/data/local/entities/TicketEntity.java:54-56 | `setId` changes the id only |
| Entities.TicketEntity.SetUserId | app/src/main/java/com/example/eventhive/data/local/entities/TicketEntity.java:62-64 | `setUserId` changes the user id only |
| Entities.TicketEntity.SetEventId | app/src/main/java/com/example/eventhive/data/local/entities/TicketEntity.java:70-72 | `setEventId` changes the event id only |
| Entities.TicketEntity.SetUniqueCode | app/src/main/java/com/example/eventhive/data/local/entities/TicketEntity.java:78-80 | `setUniqueCode` changes the code only |
| RoomQueries.GetUserByEmail | app/src/main/java/com/example/eventhive/data/local/dao/UserDao.java:33-34 | the user returned has that email and is stored; null exactly when no stored user has the email |
| RoomQueries.GetUserById | app/src/main/java/com/example/eventhive/data/local/dao/UserDao.java:36-37 | the user returned has that id and is stored; null exactly when no user has the id |
| RoomQueries.UserCount | app/src/main/java/com/example/eventhive/data/local/dao/UserDao.java:45-46 | `COUNT(*)` is the number of stored users |
| RoomQueries.UserCountByRole | app/src/main/java/com/example/eventhive/data/local/dao/UserDao.java:48-49 | the count is the number of users with that role, never more than all users |
| RoomQueries.GetUserByEmailUnique | app/src/main/java/com/example/eventhive/data/local/dao/UserDao.java:33-34 | with unique emails, the lookup by a stored user's email finds exactly that user |
| RoomQueries.GetUserByIdUnique | app/src/main/java/com/example/eventhive/data/local/dao/UserDao.java:36-37 | the lookup by a stored user's id finds exactly that user |
| RoomQueries.InsertThenFindByEmail | app/src/main/java/com/example/eventhive/data/local/dao/UserDao.java:21-34 | after a successful insert the email lookup finds the inserted user under its new row id |
| RoomQueries.GetEventById | app/src/main/java/com/example/eventhive/data/local/dao/EventDao.java:33-34 | the event returned has that id and is stored; null exactly when no event has the id |
| RoomQueries.GetEventByIdUnique | app/src/main/java/com/example/eventhive/data/local/dao/EventDao.java:33-34 | the lookup by a stored event's id finds exactly that event |
| RoomQueries.EventsByStatus | app/src/main/java/com/example/eventhive/data/local/dao/EventDao.java:42-43 | exactly the stored events with that status, in table order |
| RoomQueries.EventCount | app/src/main/java/com/example/eventhive/data/local/dao/EventDao.java:45-46 | `COUNT(*)` is the number of stored events |
| RoomQueries.EventCountByStatus | app/src/main/java/com/example/eventhive/data/local/dao/EventDao.java:48-49 | the count is the number of events with that status, never more than all events |
| RoomQueries.ActiveEventCount | app/src/main/java/com/example/eventhive/data/local/dao/EventDao.java:51-52 | the count of events whose status is "Active" |
| RoomQueries.SearchEvents | app/src/main/java/com/example/eventhive/data/local/dao/EventDao.java:54-69 | ascending by timestamp, holding exactly the stored events whose title and location contain the texts (case-insensitively) and whose timestamp lies within the bounds that are set |
| RoomQueries.EventMatches | app/src/main/java/com/example/eventhive/data/local/dao/EventDao.java:63-69 | a row with every filter unset matches; a text filter that is set only matches an event whose title (or location) is not null |
| RoomQueries.SearchEventsUnset | app/src/main/java/com/example/eventhive/data/local/dao/EventDao.java:63-69 | with no text and both bounds 0 every event is returned, each once |
| RoomQueries.ZeroTimestampQuirk | app/src/main/java/com/example/eventhive/data/local/dao/EventDao.java:66-67 | an event stored with timestamp 0 fails every positive lower bound and passes every non-negative upper bound |
| RoomQueries.OmniSearchNeedsBoth | app/src/main/java/com/example/eventhive/activities/UserDashboardActivity.java:138 | the dashboard passes its text as both query and location, so an event is listed only when its title and its location both contain the text |
| RoomQueries.TicketCodeExists | app/src/main/java/com/example/eventhive/data/local/dao/TicketDao.java:34-35 | true exactly when some stored ticket carries the code |
| RoomQueries.CodeBelongsToOneTicket | app/src/main/java/com/example/eventhive/data/local/dao/TicketDao.java:34-35 | with the unique index on `unique_code`, two stored tickets with the same code are the same ticket |
| RoomQueries.TicketsOfUser | app/src/main/java/com/example/eventhive/data/local/dao/TicketDao.java:23-24 | exactly the user's tickets, in table order |
| RoomQueries.TicketCountForUser | app/src/main/java/com/example/eventhive/data/local/dao/TicketDao.java:37-38 | the number of the user's tickets |
| RoomQueries.TicketCountForEvent | app/src/main/java/com/example/eventhive/data/local/dao/TicketDao.java:40-41 | the number of tickets for the event, never more than all tickets |
| RoomQueries.ToTicket | app/src/main/java/com/example/eventhive/data/local/dao/TicketDao.java:56-58 | `toTicket` carries all seven columns over |
| RoomQueries.JoinForUser | app/src/main/java/com/example/eventhive/data/local/dao/TicketDao.java:26-31 | every joined row pairs a stored ticket of the user with the stored event its `event_id` names |
| RoomQueries.JoinComplete | app/src/main/java/com/example/eventhive/data/local/dao/TicketDao.java:26-31 | every ticket of the user whose event exists appears in the join |
| RoomQueries.JoinAscending | app/src/main/java/com/example/eventhive/data/local/dao/TicketDao.java:26-31 | the join keeps the tickets' ascending id order |
| RoomQueries.TicketsWithEventInfo | app/src/main/java/com/example/eventhive/data/local/dao/TicketDao.java:26-32 | every row listed belongs to the user and carries the columns of a stored ticket and of the stored event its `event_id` names |
| RoomQueries.SearchTickets | app/src/main/java/com/example/eventhive/data/local/dao/TicketDao.java:70-79 | every row found belongs to the user, carries a stored ticket and its event, and that event passes the text and date filters |
| RoomQueries.Project | app/src/main/java/com/example/eventhive/data/local/dao/TicketDao.java:26-27 | each result row is the selected columns of the joined row at the same position |
| RoomQueries.SearchTicketsUnset | app/src/main/java/com/example/eventhive/data/local/dao/TicketDao.java:70-79 | with no text and both bounds 0 the search returns what `getTicketsWithEventInfo` returns |
| RoomQueries.ProjectAscending | app/src/main/java/com/example/eventhive/data/local/dao/TicketDao.java:26-31 | selecting the columns keeps the id order |
| RoomQueries.TicketListsDescending | app/src/main/java/com/example/eventhive/data/local/dao/TicketDao.java:26-78 | both joined ticket lists come out `ORDER BY t.id DESC` |
| RoomQueries.TicketsWithEventInfoMembers | app/src/main/java/com/example/eventhive/data/local/dao/TicketDao.java:26-32 | when every ticket's event exists, a stored ticket is listed exactly when it belongs to the user |
| RoomQueries.ListedWhenOwned | app/src/main/java/com/example/eventhive/data/local/dao/TicketDao.java:26-32 | a ticket of the user whose event exists is listed |
| RoomQueries.OwnedWhenListed | app/src/main/java/com/example/eventhive/data/local/dao/TicketDao.java:30 | a listed ticket belongs to the user |
| RoomQueries.SearchTicketsKeeps | app/src/main/java/com/example/eventhive/data/local/dao/TicketDao.java:70-79 | a joined ticket is in the search result exactly when its event's title or location contains the text and its event timestamp is within the bounds that are set |
| RoomQueries.KeptRowListed | app/src/main/java/com/example/eventhive/data/local/dao/TicketDao.java:70-79 | a joined row passing the filter is projected into the result |
| RoomQueries.KeptRowOf | app/src/main/java/com/example/eventhive/data/local/dao/TicketDao.java:70-79 | every result row comes from a joined row passing the filter |
| RoomQueries.SameInfoSameRow | app/src/main/java/com/example/eventhive/data/local/dao/TicketDao.java:26-31 | distinct joined rows give distinct result rows, so the result has no duplicates |
| RoomDb.AssignedId | app/src/main/java/com/example/eventhive/data/local/entities/UserEntity.java:18-20 | an autogenerated key: an id of 0 takes the next rowid, any other id is kept |
| RoomDb.Advance | app/src/main/java/com/example/eventhive/data/local/entities/UserEntity.java:18-20 | the next rowid handed out is above every id used so far and never goes back |
| RoomDb.DbInsertUser | app/src/main/java/com/example/eventhive/data/local/dao/UserDao.java:21-22 | `insertUser` fails, changing nothing, when the email is taken (`index_users_email`); on success it returns the assigned id and adds exactly that user, leaving the other tables alone |
| RoomDb.DbUpdateUser | app/src/main/java/com/example/eventhive/data/local/dao/UserDao.java:24-25 | `updateUser` replaces the row with the user's id, or changes nothing when there is none; a clash on the email index aborts it unchanged |
| RoomDb.DbDeleteUser | app/src/main/java/com/example/eventhive/data/local/dao/UserDao.java:30-31 | `deleteUserById` removes the user and, through the cascading foreign key, the user's tickets, and nothing else |
| RoomDb.DbInsertEvent | app/src/main/java/com/example/eventhive/data/local/dao/EventDao.java:21-22 | `insertEvent` returns the assigned id and adds exactly that event, its null status stored as "Active"; an id already used aborts it unchanged |
| RoomDb.DbUpdateEvent | app/src/main/java/com/example/eventhive/data/local/dao/EventDao.java:24-25 | `updateEvent` returns 1 and replaces the event with that id, or returns 0 and changes nothing when there is none |
| RoomDb.DbDeleteEvent | app/src/main/java/com/example/eventhive/data/local/dao/EventDao.java:30-31 | `deleteEventById` removes the event and, through the cascading foreign key, its tickets, and nothing else |
| RoomDb.DbInsertTicket | app/src/main/java/com/example/eventhive/data/local/dao/TicketDao.java:20-21 | `insertTicket` fails unchanged on a taken code or a missing user or event; on success it adds exactly that ticket under the assigned id |
| RoomDb.Seeded | app/src/main/java/com/example/eventhive/data/local/AppDatabase.java:113-135 | the creation callback leaves one admin user, two "Active" events with positive timestamps and no tickets, a state meeting every schema constraint |
| RoomDb.InsertUserConsistent | app/src/main/java/com/example/eventhive/data/local/entities/UserEntity.java:15 | `insertUser` keeps the unique email index, unique keys and the ticket foreign keys |
| RoomDb.UpdateUserConsistent | app/src/main/java/com/example/eventhive/data/local/dao/UserDao.java:24-25 | `updateUser` keeps every schema constraint |
| RoomDb.DeleteUserConsistent | app/src/main/java/com/example/eventhive/data/local/entities/TicketEntity.java:14-16 | deleting a user keeps every schema constraint, because its tickets go with it |
| RoomDb.InsertEventConsistent | app/src/main/java/com/example/eventhive/data/local/dao/EventDao.java:21-22 | `insertEvent` keeps every schema constraint |
| RoomDb.UpdateEventConsistent | app/src/main/java/com/example/eventhive/data/local/dao/EventDao.java:24-25 | `updateEvent` keeps every schema constraint |
| RoomDb.DeleteEventConsistent | app/src/main/java/com/example/eventhive/data/local/entities/TicketEntity.java:14-16 | deleting an event keeps every schema constraint, because its tickets go with it |
| RoomDb.InsertTicketConsistent | app/src/main/java/com/example/eventhive/data/local/entities/TicketEntity.java:14-21 | `insertTicket` keeps the unique code index and both foreign keys |
| RoomDb.AutoTicketAppends | app/src/main/java/com/example/eventhive/data/local/dao/TicketDao.java:20-21 | a ticket inserted with id 0 gets the next rowid and is appended at the end of the table |
| RoomDb.DeleteUserCascades | app/src/main/java/com/example/eventhive/data/local/entities/TicketEntity.java:15 | after deleting a user none of its tickets remain, and every other ticket and user does |
| RoomDb.DeleteEventCascades | app/src/main/java/com/example/eventhive/data/local/entities/TicketEntity.java:16 | after deleting an event none of its tickets remain, and every other ticket and event does |
| RoomDb.RoomStore.Create | app/src/main/java/com/example/eventhive/data/local/AppDatabase.java:40-56 | a database built fresh holds the seeded state and meets the schema constraints |
| RoomDb.RoomStore.InsertUser | app/src/main/java/com/example/eventhive/data/local/dao/UserDao.java:21-22 | the store moves to `DbInsertUser` of its state and stays valid |
| RoomDb.RoomStore.UpdateUser | app/src/main/java/com/example/eventhive/data/local/dao/UserDao.java:24-25 | the store moves to `DbUpdateUser` of its state and stays valid |
| RoomDb.RoomStore.DeleteUserById | app/src/main/java/com/example/eventhive/data/local/dao/UserDao.java:30-31 | the store moves to `DbDeleteUser` of its state and stays valid |
| RoomDb.RoomStore.InsertEvent | app/src/main/java/com/example/eventhive/data/local/dao/EventDao.java:21-22 | the store moves to `DbInsertEvent` of its state and stays valid |
| RoomDb.RoomStore.UpdateEvent | app/src/main/java/com/example/eventhive/data/local/dao/EventDao.java:24-25 | the store moves to `DbUpdateEvent` of its state and stays valid |
| RoomDb.RoomStore.DeleteEventById | app/src/main/java/com/example/eventhive/data/local/dao/EventDao.java:30-31 | the store moves to `DbDeleteEvent` of its state and stays valid |
| RoomDb.RoomStore.InsertTicket | app/src/main/java/com/example/eventhive/data/local/dao/TicketDao.java:20-21 | the store moves to `DbInsertTicket` of its state and stays valid |
| Repositories.Candidates | app/src/main/java/com/example/eventhive/data/repository/TicketRepository.java:48-57 | the retry loop draws exactly ten candidate codes, the k-th one from the k-th clock reading and random draw |
| Repositories.FirstFree | app/src/main/java/com/example/eventhive/data/repository/TicketRepository.java:48-57 | the chosen candidate is the first one `ticketCodeExists` reports free; every earlier one was taken, and none is chosen only when all are taken |
| Repositories.PurchaseOutcome | app/src/main/java/com/example/eventhive/data/repository/TicketRepository.java:42-76 | a reported code is one of the ten candidates and was free; when all ten are taken the store is unchanged and the error is "Failed to generate unique ticket code" |
| Repositories.PurchaseTicket | app/src/main/java/com/example/eventhive/data/repository/TicketRepository.java:42-76 | `purchaseTicket` checks candidates one at a time against the live table (a loop with invariants) and ends in the state and callback of the purchase outcome, keeping the store's integrity |
| Repositories.PurchaseGivesUpIff | app/src/main/java/com/example/eventhive/data/repository/TicketRepository.java:47-56 | "Failed to generate unique ticket code" is reported exactly when all ten candidates are taken, and then nothing is inserted |
| Repositories.PurchaseEffect | app/src/main/java/com/example/eventhive/data/repository/TicketRepository.java:58-75 | a purchase keeps the store consistent; it succeeds iff a free code exists and the user and event rows exist; success appends exactly one ticket with the given user, event and a code no ticket held, and leaves users and events alone; any failure changes nothing and is never "Failed to purchase ticket" |
| Repositories.PurchasedCodeValid | app/src/main/java/com/example/eventhive/data/repository/TicketRepository.java:50-62 | with a non-negative event id and clock, the code a successful purchase reports passes `isValidFormat` |
| Repositories.TicketsForUser | app/src/main/java/com/example/eventhive/data/repository/TicketRepository.java:81-84 | `getTicketsForUser` returns exactly one ticket per joined row of the user (ownership and order: the lemma below) |
| Repositories.SearchTickets | app/src/main/java/com/example/eventhive/data/repository/TicketRepository.java:106-110 | `searchTickets` returns exactly one ticket per row of the DAO search |
| Repositories.TicketsForUserOwnedAndNewestFirst | app/src/main/java/com/example/eventhive/data/repository/TicketRepository.java:81-84 | every ticket listed belongs to the user and the list is in strictly descending id order |
| Repositories.ParseDateToTimestamp | app/src/main/java/com/example/eventhive/data/repository/EventRepository.java:181-201 | the date string gets the current year appended before parsing; any parse failure yields 0 |
| Repositories.EntityToWrite | app/src/main/java/com/example/eventhive/data/repository/EventRepository.java:47-54 | the stored entity is `fromEvent(event)` with the timestamp parsed from the date, or 0 when the date is null |
| Repositories.CreateEvent | app/src/main/java/com/example/eventhive/data/repository/EventRepository.java:44-60 | `createEvent` inserts that entity and reports the insert's id or error |
| Repositories.UpdateEvent | app/src/main/java/com/example/eventhive/data/repository/EventRepository.java:65-81 | `updateEvent` recomputes the timestamp the same way, updates the row and reports success iff rowsAffected > 0 |
| Repositories.DeleteEvent | app/src/main/java/com/example/eventhive/data/repository/EventRepository.java:86-95 | `deleteEvent` deletes the event by id (with its tickets) and reports success |
| Repositories.GetEventById | app/src/main/java/com/example/eventhive/data/repository/EventRepository.java:115-128 | "Event not found" exactly when no row has the id; otherwise the converted row with that id |
| Repositories.Backfilled | app/src/main/java/com/example/eventhive/data/repository/EventRepository.java:168-177 | only the timestamp can change, only for a row with timestamp 0 and a date, and only to a positive value |
| Repositories.BackfillAll | app/src/main/java/com/example/eventhive/data/repository/EventRepository.java:166-179 | the backfill treats each event on its own, keeping the number and order of rows |
| Repositories.EnsureTimestampsPopulated | app/src/main/java/com/example/eventhive/data/repository/EventRepository.java:166-179 | the loop over all events, updating the rows that change, leaves the events table equal to the backfill of the old table and nothing else changed |
| Repositories.BackfillStep | app/src/main/java/com/example/eventhive/data/repository/EventRepository.java:168-177 | one loop step: an unchanged row is not written; a changed row is written by `updateEvent`, which touches exactly that one row |
| Repositories.BackfillIdempotent | app/src/main/java/com/example/eventhive/data/repository/EventRepository.java:166-178 | with a fixed parser, a second backfill changes nothing |
| Repositories.BackfillChangesOnlyZeroTimestamps | app/src/main/java/com/example/eventhive/data/repository/EventRepository.java:168-177 | only the timestamp can change, and only for a row with timestamp 0 and a date, to the parsed value when that is > 0 |
| Repositories.UserToRegister | app/src/main/java/com/example/eventhive/data/repository/UserRepository.java:49-52 | the inserted user is the given user except that the password is replaced by a `salt:hash` string whose first part decodes to the salt, never the plaintext |
| Repositories.RegisteredPasswordVerifies | app/src/main/java/com/example/eventhive/data/repository/UserRepository.java:49-52 | the stored hash verifies against the password that was registered |
| Repositories.RegisterUser | app/src/main/java/com/example/eventhive/data/repository/UserRepository.java:45-60 | `registerUser` inserts the hashed user; a duplicate email is reported as an error with nothing changed |
| Repositories.LoginUser | app/src/main/java/com/example/eventhive/data/repository/UserRepository.java:69-89 | no user with the email gives "User not found"; success returns a stored user with that email whose password verifies; any other failure is "Invalid password" |
| Repositories.LoginOutcome | app/src/main/java/com/example/eventhive/data/repository/UserRepository.java:72-84 | for the stored user with that email, login succeeds with that user iff the password verifies, otherwise "Invalid password" |
| Repositories.RegisterThenLogin | app/src/main/java/com/example/eventhive/data/repository/UserRepository.java:45-89 | after a successful registration, logging in with the same email and password returns the registered user with its new id |
| Repositories.SeededAdminCannotLogIn | app/src/main/java/com/example/eventhive/data/local/AppDatabase.java:119-120 | the seeded admin's plaintext password has no ':', so the repository's login rejects it with "Invalid password" for every password |
| Repositories.GetUserById | app/src/main/java/com/example/eventhive/data/repository/UserRepository.java:101-114 | "User not found" exactly when no row has the id; otherwise the stored user with that id |
| Repositories.UpdateUser | app/src/main/java/com/example/eventhive/data/repository/UserRepository.java:119-129 | `updateUser` writes `fromUser(user)` through the DAO update and reports its success or error |
| Repositories.UpdateUserReplaces | app/src/main/java/com/example/eventhive/data/repository/UserRepository.java:122-123 | after an update of an existing id, looking the id up gives the new user, other users stay, and events and tickets are untouched |
| Repositories.DeleteUser | app/src/main/java/com/example/eventhive/data/repository/UserRepository.java:134-143 | `deleteUser` deletes the user by id (with its tickets) and reports success |
| Base64.DecodeEncode | app/src/main/java/com/example/eventhive/utils/PasswordHasher.java:37-38 | decoding the standard Base64 encoding of any bytes gives those bytes back (section 4 of RFC 4648, with padding) |
| Base64.EncodeShape | app/src/main/java/com/example/eventhive/utils/PasswordHasher.java:37-40 | an encoding has 4 characters per started group of 3 bytes and never contains ':' |
| Base64.EncodeInjective | app/src/main/java/com/example/eventhive/utils/PasswordHasher.java:37-38 | distinct byte strings have distinct encodings |
| Base64.Encode | app/src/main/java/com/example/eventhive/utils/PasswordHasher.java:37-38 | `encodeToString` gives four characters per started group of three bytes, all from the alphabet or '=' |
| Base64.Decode | app/src/main/java/com/example/eventhive/utils/PasswordHasher.java:61-62 | `decode` accepts only strings of alphabet characters and '=' |
| Base64.Chars | app/src/main/java/com/example/eventhive/utils/PasswordHasher.java:37-38 | each 6-bit symbol becomes its alphabet character, position by position |
| Base64.SymbolsReadable | app/src/main/java/com/example/eventhive/utils/PasswordHasher.java:61-62 | a string whose symbols all read back is made of alphabet characters and '=' |
| Base64.NoColon | app/src/main/java/com/example/eventhive/utils/PasswordHasher.java:40 | no character of the Base64 alphabet is ':' |
| PasswordHashing.HashPassword | app/src/main/java/com/example/eventhive/utils/PasswordHasher.java:24-44 | the stored value is the 24-character encoding of the 16-byte salt, a ':', then the encoded digest; its first part decodes to the salt |
| PasswordHashing.VerifyPassword | app/src/main/java/com/example/eventhive/utils/PasswordHasher.java:53-74 | a stored value without ':' never verifies; a value that verifies splits into exactly two parts that decode, the second equal to the digest of the first part's salt with the password |
| PasswordHashing.VerifyHashed | app/src/main/java/com/example/eventhive/utils/PasswordHasher.java:24-70 | a password verifies against its own hash when the digest has SHA-256's 32 bytes |
| PasswordHashing.VerifyHashedSha | app/src/main/java/com/example/eventhive/utils/PasswordHasher.java:24-70 | for a digest that always yields 32 bytes, every password verifies against its own hash |
| PasswordHashing.DistinctSaltsDistinctHashes | app/src/main/java/com/example/eventhive/utils/PasswordHasher.java:27-40 | two hashes of the same password with different salts are different strings |
| PasswordHashing.WrongPasswordFails | app/src/main/java/com/example/eventhive/utils/PasswordHasher.java:61-70 | a password whose digest differs under the stored salt does not verify |
| RoomMigrations.Migrate3To4 | app/src/main/java/com/example/eventhive/data/local/AppDatabase.java:62-92 | running `MIGRATION_3_4` on the file either succeeds with the tables its statements produce or fails with the statement's error |
| RoomMigrations.Migrate4To5 | app/src/main/java/com/example/eventhive/data/local/AppDatabase.java:97-108 | running `MIGRATION_4_5` on the file either succeeds with the tables its statement produces or fails with that statement's error |
| RoomMigrations.Open | app/src/main/java/com/example/eventhive/data/local/AppDatabase.java:40-56 | opening at a stored version runs that version's steps (create and seed, the migration path, nothing, or the destructive rebuild); after a migration path the schema is validated, a table whose columns or unique keys differ from the entity's failing with "Migration didn't properly handle: <table>"; on any failure the file is left as it was |
| RoomMigrations.Migration34Outcome | app/src/main/java/com/example/eventhive/data/local/AppDatabase.java:62-92 | on a version-3 users table, the migration yields the rebuilt table with the email index when emails are unique, and the unique-constraint failure otherwise |
| RoomMigrations.Migration34Effect | app/src/main/java/com/example/eventhive/data/local/AppDatabase.java:68-90 | the migration succeeds iff emails were unique; it keeps every other table, gives users the seven Room columns and the unique email index, and keeps every row in place with the same id and values in all seven columns |
| RoomMigrations.CopiedKeepsValues | app/src/main/java/com/example/eventhive/data/local/AppDatabase.java:79-83 | the `INSERT INTO users_new SELECT` copy keeps the number of rows and the value of every copied column |
| RoomMigrations.CopiedEmailsUnique | app/src/main/java/com/example/eventhive/data/local/AppDatabase.java:90 | the copied rows have unique emails iff the old rows did |
| RoomMigrations.Migration45Effect | app/src/main/java/com/example/eventhive/data/local/AppDatabase.java:97-108 | adding the timestamp column fails without an events table or when the column exists; otherwise every event row gets timestamp 0 and all other columns, rows and tables are unchanged |
| RoomMigrations.OpenFromThree | app/src/main/java/com/example/eventhive/data/local/AppDatabase.java:23-48 | opening a version-3 file applies 3 to 4 and then 4 to 5, stopping at the first failure, and validates the schema the two leave |
| RoomMigrations.OpenSteps | app/src/main/java/com/example/eventhive/data/local/AppDatabase.java:40-56 | only a new file (version 0) gets the seed inserts, and a file at the current version runs nothing |
| RoomMigrations.CreatedValidates | app/src/main/java/com/example/eventhive/data/local/AppDatabase.java:23 | the schema Room creates passes its own validation |
| RoomMigrations.OpenFromThreeValidates | app/src/main/java/com/example/eventhive/data/local/AppDatabase.java:62-108 | a version-3 file with unique emails, Room's events columns except `timestamp`, and Room's tickets table opens successfully and validates |
| RoomMigrations.MissingTicketsRefused | app/src/main/java/com/example/eventhive/data/local/AppDatabase.java:46-47 | a version-3 or version-4 file without a tickets table fails validation, since neither migration creates it |
| RoomMigrations.DropAllEffect | app/src/main/java/com/example/eventhive/data/local/AppDatabase.java:49 | the destructive fallback drops exactly the users, events and tickets tables |
| RoomMigrations.CreateAllEffect | app/src/main/java/com/example/eventhive/data/local/AppDatabase.java:23 | creating the schema adds the three entity tables empty, with the id, email and unique_code indexes |
| RoomMigrations.DestructiveOpen | app/src/main/java/com/example/eventhive/data/local/AppDatabase.java:48-49 | a stored version with no migration path is rebuilt: it always succeeds, keeps unrelated tables and leaves users, events and tickets empty |
| RoomMigrations.SeedEffect | app/src/main/java/com/example/eventhive/data/local/AppDatabase.java:113-135 | the creation callback's inserts on empty tables give exactly one admin user and two Active events with their non-zero timestamps, and nothing else changes |
| RoomMigrations.FreshOpen | app/src/main/java/com/example/eventhive/data/local/AppDatabase.java:40-56 | creating a new file builds the schema and seeds it: one admin, two Active events with non-zero timestamps, no tickets |
| LegacyDatabase.EventColumnsSplit | app/src/main/java/com/example/eventhive/databases/DatabaseHelper.java:82-94 | the version-6 events columns are the version-3 columns followed by the five columns the v4 upgrade adds |
| LegacyDatabase.OnCreate | app/src/main/java/com/example/eventhive/databases/DatabaseHelper.java:71-121 | `onCreate` runs the four CREATE TABLE statements and the two event inserts, then inserts the default user; if a statement fails nothing is changed |
| LegacyDatabase.OnCreateSql | app/src/main/java/com/example/eventhive/databases/DatabaseHelper.java:71-121 | the `execSQL` part of `onCreate` adds the four tables; users and tickets start empty and events holds the two dummy rows |
| LegacyDatabase.OnCreateSqlTables | app/src/main/java/com/example/eventhive/databases/DatabaseHelper.java:72-115 | creation adds exactly the users (unique email), events, tickets and notifications tables, empty except events, and keeps every other table |
| LegacyDatabase.OnCreateSqlEvents | app/src/main/java/com/example/eventhive/databases/DatabaseHelper.java:134-139 | the two seeded events get ids 1 and 2 and the column defaults: status 'Active', price 0.0, quantity 0, type 'Other' |
| LegacyDatabase.EventColumnsDefaults | app/src/main/java/com/example/eventhive/databases/DatabaseHelper.java:89-94 | the events schema declares the defaults 'Active', 0.0, 0 and 'Other' |
| LegacyDatabase.DefaultUserInserted | app/src/main/java/com/example/eventhive/databases/DatabaseHelper.java:123-132 | the default user is the only users row, the admin with email admin@eventhive.com, password admin123 and role Admin |
| LegacyDatabase.AddColumns | app/src/main/java/com/example/eventhive/databases/DatabaseHelper.java:145-153 | the v4 block issues one ALTER TABLE ADD COLUMN per new column, in order |
| LegacyDatabase.AddColumnsRun | app/src/main/java/com/example/eventhive/databases/DatabaseHelper.java:145-153 | adding fresh, distinct columns to a table always succeeds, appends exactly those columns and changes no other table |
| LegacyDatabase.BlockLog | app/src/main/java/com/example/eventhive/databases/DatabaseHelper.java:154-156 | a block logs one error line exactly when it runs and one of its statements fails |
| LegacyDatabase.Block | app/src/main/java/com/example/eventhive/databases/DatabaseHelper.java:143-157 | a block that does not run leaves the file alone; one whose statements all succeed leaves their result; one that cannot drop or rename keeps every table |
| LegacyDatabase.RunBlock | app/src/main/java/com/example/eventhive/databases/DatabaseHelper.java:143-157 | a block runs only when its version test holds; its statements stop at the first failure, which is caught and logged |
| LegacyDatabase.OnUpgrade | app/src/main/java/com/example/eventhive/databases/DatabaseHelper.java:142-183 | `onUpgrade` runs the v4, v5 and v6 blocks in that order, each exactly when oldVersion is below its number, and the file and log are the result |
| LegacyDatabase.Upgraded | app/src/main/java/com/example/eventhive/databases/DatabaseHelper.java:142-183 | the upgrade never loses a table, and changes nothing from version 6 on |
| LegacyDatabase.UpgradeLog | app/src/main/java/com/example/eventhive/databases/DatabaseHelper.java:154-181 | at most one error line per block, and none from version 6 on |
| LegacyDatabase.UpgradeCurrent | app/src/main/java/com/example/eventhive/databases/DatabaseHelper.java:142-183 | from version 6 or later nothing runs and nothing is logged |
| LegacyDatabase.AddsOnlyKeeps | app/src/main/java/com/example/eventhive/databases/DatabaseHelper.java:144-181 | statements that only add columns keep the set of tables and never add the named column elsewhere, even when one fails part way |
| LegacyDatabase.V4FromV3 | app/src/main/java/com/example/eventhive/databases/DatabaseHelper.java:143-157 | from the version-3 schema the v4 block succeeds, giving events the full version-6 columns and tickets the purchase timestamp |
| LegacyDatabase.V5V6Run | app/src/main/java/com/example/eventhive/databases/DatabaseHelper.java:159-182 | without notifications or user_uid, the v5 and v6 blocks create notifications and add user_uid to it and to tickets, changing nothing else |
| LegacyDatabase.LaterBlocksStillRun | app/src/main/java/com/example/eventhive/databases/DatabaseHelper.java:143-182 | even when the v4 block fails part way, the v5 and v6 blocks still run and add user_uid to tickets and notifications; only the v4 error is logged |
| LegacyDatabase.UpgradeFromV3 | app/src/main/java/com/example/eventhive/databases/DatabaseHelper.java:72-182 | upgrading the version-3 schema logs nothing and ends with the tables and column sets that `onCreate` builds at version 6 |
| LegacyDatabase.TicketColumnsUpgraded | app/src/main/java/com/example/eventhive/databases/DatabaseHelper.java:97-103 | the upgraded tickets columns are those `onCreate` declares, up to order |
| LegacyDatabase.NotificationColumnsUpgraded | app/src/main/java/com/example/eventhive/databases/DatabaseHelper.java:106-114 | the upgraded notifications columns are those `onCreate` declares, up to order |
| LegacyDatabase.RoomWipesVersionSix | app/src/main/java/com/example/eventhive/databases/DatabaseHelper.java:17-18 | Room finds the helper's version 6 on `EventHive.db` above its own 5, has no path down, and drops and re-creates users, events and tickets empty, keeping notifications |
| LegacyDatabase.LegacyV3RefusedByRoom | app/src/main/java/com/example/eventhive/data/local/AppDatabase.java:62-108 | a version-3 file in the helper's layout, whose tickets have no unique code index, runs both migrations but fails Room's validation |
| LegacyQueries.GetString | app/src/main/java/com/example/eventhive/databases/DatabaseHelper.java:292-295 | a cursor's `getString` reads a TEXT cell as that text and a NULL cell as null |
| LegacyQueries.GetInt | app/src/main/java/com/example/eventhive/databases/DatabaseHelper.java:291 | a cursor's `getInt` reads an INTEGER cell as that integer and a NULL cell as 0 |
| LegacyQueries.GetDouble | app/src/main/java/com/example/eventhive/databases/DatabaseHelper.java:305 | a cursor's `getDouble` reads a REAL cell as that value and a NULL cell as 0.0 |
| LegacyQueries.RequireColumns | app/src/main/java/com/example/eventhive/databases/DatabaseHelper.java:291-295 | `getColumnIndexOrThrow` succeeds exactly when every required column exists |
| LegacyQueries.UserOfRow | app/src/main/java/com/example/eventhive/databases/DatabaseHelper.java:225-232 | an INTEGER id and stored email, password and role come through; a NULL or missing id reads 0 and NULL names and phone read as null |
| LegacyQueries.RegisterUser | app/src/main/java/com/example/eventhive/databases/DatabaseHelper.java:186-197 | `registerUser` returns true iff the insert succeeds, and only then changes the file |
| LegacyQueries.DuplicateEmailRefused | app/src/main/java/com/example/eventhive/databases/DatabaseHelper.java:76 | an insert whose email is already stored fails under the UNIQUE email column, so `registerUser` returns false |
| LegacyQueries.LoginUser | app/src/main/java/com/example/eventhive/databases/DatabaseHelper.java:199-217 | a user is returned only from a stored row whose email and password equal the arguments exactly |
| LegacyQueries.CredentialsRead | app/src/main/java/com/example/eventhive/databases/DatabaseHelper.java:205-212 | the user read from a matching row carries the email and password that were asked for |
| LegacyQueries.LoginFinds | app/src/main/java/com/example/eventhive/databases/DatabaseHelper.java:201-204 | when some row holds exactly that email and password, a user is returned |
| LegacyQueries.LoginRefuses | app/src/main/java/com/example/eventhive/databases/DatabaseHelper.java:201-216 | when no row holds exactly that email and password, null is returned |
| LegacyQueries.RegisterThenLogin | app/src/main/java/com/example/eventhive/databases/DatabaseHelper.java:186-217 | after a successful `registerUser`, `loginUser` with the same email and plaintext password returns a user |
| LegacyQueries.AllUsers | app/src/main/java/com/example/eventhive/databases/DatabaseHelper.java:219-237 | `getAllUsers` lists one user per row, in row order; it throws only when a column is missing and some row is read |
| LegacyQueries.DeleteEffect | app/src/main/java/com/example/eventhive/databases/DatabaseHelper.java:239-242 | deleting by id removes exactly the rows with that id, keeps the others in order and touches no other table |
| LegacyQueries.DeleteUser | app/src/main/java/com/example/eventhive/databases/DatabaseHelper.java:239-242 | `deleteUser` runs the delete by id on users |
| LegacyQueries.DeleteEvent | app/src/main/java/com/example/eventhive/databases/DatabaseHelper.java:280-283 | `deleteEvent` runs the delete by id on events |
| LegacyQueries.StringOr | app/src/main/java/com/example/eventhive/databases/DatabaseHelper.java:297-331 | a text column read with a fallback gives the fallback when the column is absent or NULL, and the stored text otherwise |
| LegacyQueries.EventOfRow | app/src/main/java/com/example/eventhive/databases/DatabaseHelper.java:297-331 | id, title, date and location come through; NULL title and description read as null; without the price or quantity column they read 0 |
| LegacyQueries.EventDefaults | app/src/main/java/com/example/eventhive/databases/DatabaseHelper.java:297-331 | `getAllEvents` substitutes 'Active', 0.0, 0, '', '' and 'Other' for a missing or NULL status, price, quantity, cover path, gallery paths and type |
| LegacyQueries.EventStoredValues | app/src/main/java/com/example/eventhive/databases/DatabaseHelper.java:297-331 | stored status, price, quantity and type values are read back unchanged |
| LegacyQueries.AllEvents | app/src/main/java/com/example/eventhive/databases/DatabaseHelper.java:285-340 | `getAllEvents` lists one event per row; it throws only when a required column is missing and some row is read |
| LegacyQueries.GetAllEvents | app/src/main/java/com/example/eventhive/databases/DatabaseHelper.java:285-340 | the cursor loop builds exactly the k-th event from the k-th row |
| LegacyQueries.RegisterTicket | app/src/main/java/com/example/eventhive/databases/DatabaseHelper.java:343-371 | `registerTicket` (by integer id or by uid) returns true iff the insert succeeds, and only then changes the file |
| LegacyQueries.TicketValues | app/src/main/java/com/example/eventhive/databases/DatabaseHelper.java:343-371 | the insert sets exactly the owner column (user_id or user_uid), event_id, unique_code and purchase_timestamp; a null code is stored as NULL |
| LegacyQueries.DuplicateCodeAccepted | app/src/main/java/com/example/eventhive/databases/DatabaseHelper.java:97-103 | the legacy tickets table has no unique index on unique_code, so a duplicate code is inserted as a new row |
| LegacyQueries.OwnedJoin | app/src/main/java/com/example/eventhive/databases/DatabaseHelper.java:376-381 | the join pairs only tickets of the owner with the event whose id is the ticket's event_id |
| LegacyQueries.OwnedJoinComplete | app/src/main/java/com/example/eventhive/databases/DatabaseHelper.java:380-381 | every owned ticket whose event exists appears in the join with that event |
| LegacyQueries.QueryError | app/src/main/java/com/example/eventhive/databases/DatabaseHelper.java:376-384 | the query fails exactly when a table or a selected column is missing |
| LegacyQueries.CursorRows | app/src/main/java/com/example/eventhive/databases/DatabaseHelper.java:376-384 | the rows come back ordered by purchase timestamp, newest first, and are a permutation of the join |
| LegacyQueries.ReadTickets | app/src/main/java/com/example/eventhive/databases/DatabaseHelper.java:385-400 | the cursor loop builds the k-th ticket from the k-th joined row |
| LegacyQueries.GetTicketsForUser | app/src/main/java/com/example/eventhive/databases/DatabaseHelper.java:373-437 | `getTicketsForUser` fails with the query's error, or returns one ticket per joined row in cursor order |
| LegacyQueries.TicketsNewestFirst | app/src/main/java/com/example/eventhive/databases/DatabaseHelper.java:382 | the tickets returned are ordered by purchase timestamp, descending |
| LegacyQueries.CursorOwned | app/src/main/java/com/example/eventhive/databases/DatabaseHelper.java:376-382 | every ticket of the owner whose event exists is in the result |
| LegacyQueries.UidTicketUserId | app/src/main/java/com/example/eventhive/databases/DatabaseHelper.java:393 | a ticket registered by uid has NULL user_id, which the reader turns into the user id "0" |
| ViewModels.Bounds | app/src/main/java/com/example/eventhive/viewmodel/EventViewModel.java:47-55 | each bound is 0 or now; with a clock other than 0, the lower bound is set iff the type is "UPCOMING" and the upper iff it is "PAST" |
| ViewModels.BoundsSelect | app/src/main/java/com/example/eventhive/viewmodel/EventViewModel.java:47-55 | "UPCOMING" keeps exactly the events at or after now, "PAST" exactly those at or before now, and any other filter type keeps every event |
| ViewModels.Unset | app/src/main/java/com/example/eventhive/viewmodel/EventViewModel.java:58-59 | a null or empty filter string is stored as null; any other string is kept |
| ViewModels.CreateEventError | app/src/main/java/com/example/eventhive/viewmodel/EventViewModel.java:71-91 | creation is refused with the first of "Title/Date/Location/Description is required" whose field is null or blank, and accepted iff all four are filled |
| ViewModels.UpdateOutcome | app/src/main/java/com/example/eventhive/viewmodel/EventViewModel.java:127-140 | an update reports success iff the repository answered true; false gives "Failed to update event" and an error gives its message |
| ViewModels.DoneOutcome | app/src/main/java/com/example/eventhive/viewmodel/EventViewModel.java:100-109 | a create or delete reports success with its fixed message iff the repository succeeded, otherwise the error text |
| ViewModels.EventViewModel.constructor | app/src/main/java/com/example/eventhive/viewmodel/EventViewModel.java:22-36 | a new view model has empty filters, no result and is not loading, and its construction has run `ensureTimestampsPopulated`: the events table is the backfill of the old one, the rest of the store is unchanged and stays valid |
| ViewModels.EventViewModel.SetFilters | app/src/main/java/com/example/eventhive/viewmodel/EventViewModel.java:46-64 | `setFilters` stores the normalised query and location and the bounds of the filter type, and changes nothing else |
| ViewModels.EventViewModel.CreateEvent | app/src/main/java/com/example/eventhive/viewmodel/EventViewModel.java:71-113 | an invalid form posts its message and sends nothing; a valid one sends a new Active event and starts loading |
| ViewModels.EventViewModel.OnEventCreated | app/src/main/java/com/example/eventhive/viewmodel/EventViewModel.java:98-110 | the repository's answer stops loading and posts the created-or-error result |
| ViewModels.EventViewModel.UpdateEvent | app/src/main/java/com/example/eventhive/viewmodel/EventViewModel.java:116-124 | a null event posts "Invalid event" and sends nothing; otherwise it is sent and loading starts |
| ViewModels.EventViewModel.OnEventUpdated | app/src/main/java/com/example/eventhive/viewmodel/EventViewModel.java:125-141 | the repository's answer stops loading and posts the update result |
| ViewModels.EventViewModel.DeleteEvent | app/src/main/java/com/example/eventhive/viewmodel/EventViewModel.java:147-150 | a delete sends the id and starts loading |
| ViewModels.EventViewModel.OnEventDeleted | app/src/main/java/com/example/eventhive/viewmodel/EventViewModel.java:151-163 | the repository's answer stops loading and posts the deleted-or-error result |
| ViewModels.PurchaseError | app/src/main/java/com/example/eventhive/viewmodel/TicketViewModel.java:63-66 | a purchase is refused with "Invalid user or event" iff the user id or event id is not positive |
| ViewModels.PurchaseMessage | app/src/main/java/com/example/eventhive/viewmodel/TicketViewModel.java:73-82 | success carries the ticket code, and only success does; an error carries its message |
| ViewModels.ShownCodeValid | app/src/main/java/com/example/eventhive/viewmodel/TicketViewModel.java:62-84 | any ticket code the view model shows after a guarded purchase passes `isValidFormat` |
| ViewModels.TicketViewModel.constructor | app/src/main/java/com/example/eventhive/viewmodel/TicketViewModel.java:22-25 | a new view model has no filter, no result and is not loading |
| ViewModels.TicketViewModel.SetFilters | app/src/main/java/com/example/eventhive/viewmodel/TicketViewModel.java:39-57 | `setFilters` stores the user, the normalised query and the bounds of the filter type, and changes nothing else |
| ViewModels.TicketViewModel.PurchaseTicket | app/src/main/java/com/example/eventhive/viewmodel/TicketViewModel.java:62-70 | a refused purchase posts the refusal and sends nothing; an accepted one sends (user, event) and starts loading |
| ViewModels.TicketViewModel.OnPurchased | app/src/main/java/com/example/eventhive/viewmodel/TicketViewModel.java:71-84 | the repository's answer stops loading and posts the purchase result |
| ViewModels.TicketViewModel.GetTicketsForUser | app/src/main/java/com/example/eventhive/viewmodel/TicketViewModel.java:91-98 | the filter is reset to that user with no query and no bounds unless it already belongs to that user, in which case it is kept |
| ViewModels.LoginError | app/src/main/java/com/example/eventhive/viewmodel/AuthViewModel.java:32-47 | login is refused with "Email is required", "Password is required" or "Invalid email format", in that order, and accepted iff none applies |
| ViewModels.RegisterError | app/src/main/java/com/example/eventhive/viewmodel/AuthViewModel.java:69-105 | registration is refused with the first failing check of the seven-step chain, and accepted iff all pass; the password length is counted in UTF-16 units, as `String.length` counts |
| ViewModels.BlankPasswordRegisters | app/src/main/java/com/example/eventhive/viewmodel/AuthViewModel.java:39-41 | a password of six or more spaces is accepted by registration, yet login with it is refused as "Password is required" |
| ViewModels.PasswordLengthInUnits | app/src/main/java/com/example/eventhive/viewmodel/AuthViewModel.java:92 | three emoji (six UTF-16 units) pass the six-character minimum and five letters do not |
| Strings.Utf16Length | app/src/main/java/com/example/eventhive/viewmodel/AuthViewModel.java:92 | `String.length` counts UTF-16 units: at least one and at most two per character, one each when all are in the basic plane |
| ViewModels.IntValue | app/src/main/java/com/example/eventhive/viewmodel/AuthViewModel.java:118 | `Long.intValue` keeps the value modulo 2^32 in the 32-bit signed range |
| ViewModels.IntValueInRange | app/src/main/java/com/example/eventhive/viewmodel/AuthViewModel.java:118 | a value already in the int range is unchanged |
| ViewModels.RegisteredUser | app/src/main/java/com/example/eventhive/viewmodel/AuthViewModel.java:116-123 | the posted user is the entered user with the returned id truncated to int |
| ViewModels.AuthOutcome | app/src/main/java/com/example/eventhive/viewmodel/AuthViewModel.java:53-62 | login success carries the user and "Login successful"; an error carries its message and no user |
| ViewModels.AuthViewModel.constructor | app/src/main/java/com/example/eventhive/viewmodel/AuthViewModel.java:20-22 | a new view model has no results and is not loading |
| ViewModels.AuthViewModel.Login | app/src/main/java/com/example/eventhive/viewmodel/AuthViewModel.java:32-64 | an invalid login posts its message and sends nothing; a valid one sends (email, password) and starts loading |
| ViewModels.AuthViewModel.OnLoggedIn | app/src/main/java/com/example/eventhive/viewmodel/AuthViewModel.java:50-63 | the repository's answer stops loading and posts the login result |
| ViewModels.AuthViewModel.Register | app/src/main/java/com/example/eventhive/viewmodel/AuthViewModel.java:69-111 | an invalid form posts its message and sends nothing; a valid one sends the new user with id 0 and starts loading |
| ViewModels.AuthViewModel.OnRegistered | app/src/main/java/com/example/eventhive/viewmodel/AuthViewModel.java:111-132 | success posts "Registration successful" with the entered user and its new id; an error posts its message |
| Session.IsLoggedIn | app/src/main/java/com/example/eventhive/utils/SessionManager.java:35-37 | true exactly when a true flag is stored |
| Session.UserId | app/src/main/java/com/example/eventhive/utils/SessionManager.java:39-41 | the stored id, or -1 when none is stored |
| Session.UserRole | app/src/main/java/com/example/eventhive/utils/SessionManager.java:43-45 | the stored role, or "User" when none is stored |
| Session.UserName | app/src/main/java/com/example/eventhive/utils/SessionManager.java:47-49 | the stored name, or "" when none is stored |
| Session.UserEmail | app/src/main/java/com/example/eventhive/utils/SessionManager.java:51-53 | the stored email, or "" when none is stored |
| Session.UserPhone | app/src/main/java/com/example/eventhive/utils/SessionManager.java:55-57 | the stored phone, or "" when none is stored |
| Session.View | app/src/main/java/com/example/eventhive/utils/SessionManager.java:35-57 | an empty file reads as signed out: not logged in, id -1, role "User", empty strings |
| Session.KeyNamesDistinct | app/src/main/java/com/example/eventhive/utils/SessionManager.java:12-17 | the six keys are stored under six distinct names, so writing one never touches another |
| Session.PutString | app/src/main/java/com/example/eventhive/utils/SessionManager.java:28-31 | `putString` sets the key to the text, or removes it when the value is null, and leaves every other key as it was |
| Session.LoginPrefs | app/src/main/java/com/example/eventhive/utils/SessionManager.java:25-33 | after `createLoginSession` the getters read logged in, the given id, and the given role, name and email (or their defaults "User" and "" when null) and the phone or "" |
| Session.UpdatedPrefs | app/src/main/java/com/example/eventhive/utils/SessionManager.java:59-64 | after `updateSession` the getters read the new name, email and phone, every other getter reads what it read before, and only those three keys change |
| Session.UpdateKeepsIdentity | app/src/main/java/com/example/eventhive/utils/SessionManager.java:59-64 | updating the details keeps the logged-in flag, the user id and the role |
| Session.SessionManager.constructor | app/src/main/java/com/example/eventhive/utils/SessionManager.java:19-23 | the manager works on the stored preferences file as it is |
| Session.SessionManager.CreateLoginSession | app/src/main/java/com/example/eventhive/utils/SessionManager.java:25-33 | the file becomes the login session with the values the getters then read |
| Session.SessionManager.UpdateSession | app/src/main/java/com/example/eventhive/utils/SessionManager.java:59-64 | the file becomes the updated session; only name, email and phone read differently |
| Session.SessionManager.LogoutUser | app/src/main/java/com/example/eventhive/utils/SessionManager.java:66-69 | `logoutUser` clears every key, so every getter returns its default: not logged in, id -1, role "User", empty strings |
| Screens.SearchResults | app/src/main/java/com/example/eventhive/activities/MyTicketsActivity.java:150-169 | never longer than the list; the whole list for a null or blank query; otherwise list tickets that match the trimmed lower-cased query, every matching one included |
| Screens.SearchResultsSpec | app/src/main/java/com/example/eventhive/activities/MyTicketsActivity.java:150-169 | the filtered list is a subsequence of the original list; a null or blank query gives the whole list; otherwise a ticket is kept iff its title, location or date, lower-cased, contains the trimmed lower-cased query |
| Screens.TicketAdapter.constructor | app/src/main/java/com/example/eventhive/activities/MyTicketsActivity.java:144-147 | the adapter keeps the given list, or an empty one for null, and starts by showing all of it |
| Screens.TicketAdapter.Search | app/src/main/java/com/example/eventhive/activities/MyTicketsActivity.java:150-170 | `filter` replaces the shown list with the search results over the original list |
| Screens.MatchingTickets | app/src/main/java/com/example/eventhive/activities/MyTicketsActivity.java:156-168 | the loop keeps exactly the matching tickets, in their original order |
| Screens.JavaDiv | app/src/main/java/com/example/eventhive/activities/NotificationsActivity.java:182-185 | Java's long division truncates: it agrees with floor division for a non-negative dividend and never goes above 0 for a negative one |
| Screens.RelativeTime | app/src/main/java/com/example/eventhive/activities/NotificationsActivity.java:178-199 | minutes shown are 1 to 59, hours 1 to 23, days 1 to 6, and the date only for a week or more |
| Screens.RelativeTimeBuckets | app/src/main/java/com/example/eventhive/activities/NotificationsActivity.java:178-199 | "Just now" iff less than a minute elapsed (a future timestamp included); otherwise whole minutes below an hour, whole hours below a day, whole days below a week, and the formatted date from a week on |
| Screens.MinuteDivision | app/src/main/java/com/example/eventhive/activities/NotificationsActivity.java:182-183 | dividing milliseconds by 1000 and then by 60 counts whole minutes |
| Screens.HourDivision | app/src/main/java/com/example/eventhive/activities/NotificationsActivity.java:182-184 | the chained divisions count whole hours |
| Screens.DayDivision | app/src/main/java/com/example/eventhive/activities/NotificationsActivity.java:182-185 | the chained divisions count whole days |
| Screens.AgoText | app/src/main/java/com/example/eventhive/activities/NotificationsActivity.java:190-194 | a count of 1 reads in the singular ("1 minute ago") and any other count in the plural |
| Screens.PurchaseRefusal | app/src/main/java/com/example/eventhive/activities/EventDetailsActivity.java:190-217 | a purchase goes ahead iff the user is logged in, the role is neither Admin nor Organizer (ignoring case), the event is loaded and its status is neither Hold nor Cancelled; the checks are made in that order, each failure with its own message: "Please Login First", "Organizers/Admins cannot purchase tickets", "Event details not loaded.", "Ticket sales temporarily on hold", "Event has been cancelled" |
| Screens.LegacyTicketCode | app/src/main/java/com/example/eventhive/activities/EventDetailsActivity.java:220 | the code starts with "TICKET-" and so never passes `isValidFormat` |
| Screens.LegacyCodeInvalid | app/src/main/java/com/example/eventhive/activities/EventDetailsActivity.java:220 | the "TICKET-" code this screen makes never passes `isValidFormat` |
| Screens.PurchaseButton | app/src/main/java/com/example/eventhive/activities/EventDetailsActivity.java:186-232 | a refused tap shows its message and changes nothing; otherwise it inserts the legacy ticket for the session's user id and confirms the code iff `registerTicket` succeeded, and changes nothing on failure |
| Screens.GalleryPaths | app/src/main/java/com/example/eventhive/activities/EventDetailsActivity.java:129-142 | the paths shown are the comma-separated parts, trimmed, that are not blank; a null or empty string gives none |
| Screens.TrimAll | app/src/main/java/com/example/eventhive/activities/EventDetailsActivity.java:135-137 | each part is trimmed in place |
| Screens.KeepPaths | app/src/main/java/com/example/eventhive/activities/EventDetailsActivity.java:135-137 | only non-empty trimmed parts are kept, never more than there were |
| Screens.AllTrimmed | app/src/main/java/com/example/eventhive/activities/EventDetailsActivity.java:137 | every trimmed part starts and ends with a character above a space |
| Screens.GalleryPathsNoComma | app/src/main/java/com/example/eventhive/activities/EventDetailsActivity.java:131 | no path read back contains the separator |
| Screens.ParseInt | app/src/main/java/com/example/eventhive/activities/CreateEventActivity.java:225 | `Integer.parseInt` accepts only a signed decimal within the 32-bit range |
| Screens.ParseIntDecimal | app/src/main/java/com/example/eventhive/activities/CreateEventActivity.java:225 | the decimal form of a non-negative int parses back to it |
| Screens.SaveEventError | app/src/main/java/com/example/eventhive/activities/CreateEventActivity.java:184-233 | on the trimmed inputs, saving goes ahead iff title, date, location, price and quantity are filled, the price parses and is not negative and the quantity parses and is positive; the checks run in source order, each failure giving its own message: the missing-fields message, "Please enter ticket price", "Please enter ticket quantity", "Invalid ticket price format", "Ticket price must be positive", "Invalid ticket quantity format", "Ticket quantity must be greater than 0" |
| Screens.SavedPaths | app/src/main/java/com/example/eventhive/activities/CreateEventActivity.java:249-255 | the gallery keeps exactly the paths that were saved, dropping failed saves |
| Screens.GalleryString | app/src/main/java/com/example/eventhive/activities/CreateEventActivity.java:256 | no saved path gives "", one gives that path, and clean comma-free paths are read back by the details screen exactly |
| Screens.GalleryRoundTrip | app/src/main/java/com/example/eventhive/activities/CreateEventActivity.java:256 | joining clean, comma-free paths with ',' and splitting them as the details screen does gives the same paths back |
| Screens.SavedGalleryRoundTrip | app/src/main/java/com/example/eventhive/activities/CreateEventActivity.java:249-256 | the gallery string written on save is read back by the details screen as exactly the saved paths |
| Screens.AddPicked | app/src/main/java/com/example/eventhive/activities/CreateEventActivity.java:95-107 | a multiple pick adds at most its first 10 images, a single pick adds one, a cancelled pick adds nothing; order is kept |
| Screens.FirstKnown | app/src/main/java/com/example/eventhive/auth/AuthManager.java:198-212 | the first known error text the message contains selects the user message; none is selected iff the message contains none of them |
| Screens.ErrorMessage | app/src/main/java/com/example/eventhive/auth/AuthManager.java:187-214 | a missing message gives "An unknown error occurred"; an unknown one gives "Authentication failed: " followed by the message |
| Screens.ErrorMessageKnown | app/src/main/java/com/example/eventhive/auth/AuthManager.java:198-211 | a message whose first known text is the k-th maps to the k-th user message |

## Left out

- Threads and LiveData: repository executors, `postValue` and the `switchMap` pipelines are not modelled. Each asynchronous call is one atomic method, and a view model's request and callback are separate methods. The LiveData getters (`getAllEvents`, `getEventsByStatus`, `getActiveEventCount`, `getTicketCountForUser`, `UserRepository.getAllUsers`) only convert the DAO queries with `toEvent`/`toUser` and have no members of their own.
- `EventRepository.getAllEvents`, `getEventsByStatus`, `searchEvents`, `getActiveEventCount` and `getEventCountByStatus`, and `TicketRepository`'s two counts, pass `RoomQueries` results through unchanged or mapped by `toEvent`. They are covered by the `RoomQueries` members and `Entities.ToEventValue`.
- Repositories.TicketsForUser: its contract gives only the length; what each ticket holds comes from `RoomQueries.ToTicket`, and ownership and order from `Repositories.TicketsForUserOwnedAndNewestFirst`.
- Repositories.SearchTickets: its contract gives only the length; membership is stated by `RoomQueries.SearchTicketsKeeps` on the DAO result it maps.
- `TicketWithEventInfo.toTicket` calls a seven-argument `Ticket` constructor with integer ids, which `models/Ticket.java` does not declare. The Room ticket is modelled with the seven values exactly as `toTicket` passes them.
- The legacy `DatabaseHelper.createEvent` and `updateEvent` read ticket price, quantity, image paths and type through getters that `models/Event.java` does not declare, so they are not modelled. `getAllEvents` is modelled with its own event value, because it only builds that value from a cursor.
- Exceptions other than the modelled error paths are not modelled. `SQLiteException` on a missing table or column is an `Err`; out-of-memory and I/O failures are not.
- Integer widths: ids, timestamps and counts are unbounded integers. Java `long` overflow in `getRelativeTime` and the `int` truncation of cursor `getInt` are not modelled. `ViewModels.IntValue` does model the `Long.intValue` truncation the register callback performs.
- Screens.JavaDiv: for a negative dividend it states only that the quotient is not positive, which is all `getRelativeTime` relies on.
- LegacyQueries.GetString: an INTEGER cell is printed as its decimal text, as Android does. A REAL cell reads as null here, whereas Android prints the real, because the printing of doubles is not modelled.
- LegacyQueries.GetInt: a TEXT cell reads as 0 here, whereas Android parses the text's leading number.
- LegacyQueries.GetDouble: a TEXT cell reads as 0.0 here, whereas Android parses the text's leading number.
- `SharedPreferences` read with the wrong type throws `ClassCastException`; here such a key reads as the getter's default.
- Lower-casing (`toLowerCase`, `LIKE`) and case-insensitive comparison (`equalsIgnoreCase`, used for the role check in `Screens.PurchaseRefusal`) fold ASCII letters only; other scripts are compared as they are. Java's `equalsIgnoreCase` also folds non-ASCII letters such as U+0130 and U+0131, so it takes the role "ADMİN" for "Admin" where the model does not.
- TicketCodes.GenerateTicketCode: `String.format` without a `Locale` prints `%d` and `%04d` in the default locale's digits. The model assumes a locale whose digits are ASCII 0-9. Under a locale with other digits (Arabic or Persian, for instance), a generated code fails `isValidFormat`, whose `\d` matches ASCII only. The lemmas that rely on the assumption are `TicketCodes.Pad4` (its digits), `TicketCodes.GenerateTicketCode`, `TicketCodes.GeneratedIsValid`, `Repositories.PurchasedCodeValid` and `ViewModels.ShownCodeValid`.
- `LIKE` wildcards inside the user's query (`%`, `_`) are treated as plain characters.
- `ORDER BY` ties (two events with the same timestamp, two legacy tickets with the same purchase time) may come out in any order in SQLite. The model sorts ties stably by rowid, and `LegacyQueries.CursorRows` states the order and the permutation, not the tie order.
- The SQLite engine gives a new legacy row the largest id plus one. That is SQLite's AUTOINCREMENT value unless rows with higher ids were deleted earlier; the `sqlite_sequence` counter is not modelled. The Room store does keep a per-table counter.
- The SQLite engine checks tables at the level of column names, defaults and unique indexes. Column types, NOT NULL and the foreign keys of the migrated Room schema (as opposed to the Room store's cascade rules) are not checked statement by statement.
- RoomMigrations.Open: the schema validation after a migration path compares each entity table's column names and unique keys only. Column types, NOT NULL, foreign keys and non-unique indexes (those on the tickets' `user_id` and `event_id`) are not compared, so a file Room would refuse for those reasons opens here. The validation message stops after the table name; Room's expected and found schemas are not part of it. The identity-hash check on a file already at version 5 is not modelled.
- SQLite error messages: errors carry SQLite's own text ("no such table: users", "UNIQUE constraint failed: users.email"). The suffix Android appends, such as " (code 1 SQLITE_ERROR): , while compiling: …", is left out.
- The legacy upgrade starts from the version-3 schema that `onCreate` implies before `user_uid` and the v4 columns existed. That version-3 schema is reconstructed, since the repository does not contain it.
- Nullable user fields: `User` fields (names, email, password, role, phone) are plain strings. A null one, such as a null role at registration, is not modelled.
- Entities: `Event`, `EventEntity`, `UserEntity` and `TicketEntity` are classes, but a `User` or `Ticket` handed between layers is a value. Aliasing between a view model's request and the caller's object is not modelled.
- Screens.TicketAdapter.constructor: in Java `originalList` is the caller's own list object. Here it is a value, so changes the caller makes to that list later are not seen by the adapter.
- Screens.AgoText: the contract states the minute, hour and day texts. "Just now" and the date formatted with `SimpleDateFormat("MMM dd, yyyy")` (a parameter) are not in it.
- Screens.SavedPaths: it states which paths are kept, not their order. `Screens.SavedGalleryRoundTrip` ties the gallery string to it exactly.
- Screens.GalleryPaths: its own contract states only that every path is clean. The exact split is stated by `Screens.GalleryRoundTrip`.
- Screens.ParseInt: the contract bounds the value; that decimal strings parse back is `Screens.ParseIntDecimal`. Rejection of other strings is not stated. Only the ASCII digits 0-9 are accepted, whereas `Integer.parseInt` also accepts other Unicode decimal digits (such as "٣" for 3), so such a quantity is refused here with "Invalid ticket quantity format".
- Screen I/O is not modelled: toasts, view visibility (including the "No Search Results" view), image loading and `ImageStorageHelper` saving. A failed image save is modelled as a `None` path.
- Firebase (`AuthManager` sign-in and Firestore) is not part of this model; only `getErrorMessage` is.
- Password digests: SHA-256 is an abstract function of the salt and the password, assumed to yield 32 bytes (`PasswordHashing.IsSha256Like`). UTF-8 encoding is folded into it.
- Two stores on one file: `AppDatabase` (version 5) and `DatabaseHelper` (version 6) both open `EventHive.db`. Room opening the helper's version-6 file is modelled (`LegacyDatabase.RoomWipesVersionSix`); the helper opening a file Room last wrote, and the two open at the same time, are not.
- Screens.SaveEventError: `Double.parseDouble` is a parameter returning an optional real. It can also return NaN or an infinity (for "NaN" or "Infinity"); NaN and positive infinity pass the `< 0` check and are saved as the price. An optional real cannot hold those values, so that case is not modelled.
