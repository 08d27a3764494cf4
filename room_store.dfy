/** The Room database of `AppDatabase` (version 5) as a value: the `users`,
    `events` and `tickets` tables, each kept in rowid order, with their
    AUTOINCREMENT counters, and the effect of every DAO write on it.

    SQLite checks an insert's constraints in a fixed order: the primary key,
    then the unique indexes, then (at the end of the statement) the foreign
    keys. Room opens the database with foreign keys enforced, so deleting a
    user or an event also deletes the tickets that refer to it. */
module RoomDb {
  import opened Strings
  import opened Entities
  import opened Tables

  // The messages of the `SQLiteConstraintException`s an insert or update can raise.
  const ERR_USERS_ID: string := "UNIQUE constraint failed: users.id"
  const ERR_USERS_EMAIL: string := "UNIQUE constraint failed: users.email"
  const ERR_EVENTS_ID: string := "UNIQUE constraint failed: events.id"
  const ERR_TICKETS_ID: string := "UNIQUE constraint failed: tickets.id"
  const ERR_TICKETS_CODE: string := "UNIQUE constraint failed: tickets.unique_code"
  const ERR_FOREIGN_KEY: string := "FOREIGN KEY constraint failed"

  function UserKey(u: User): int { u.id }
  function EventKey(e: EventRecord): int { e.id }
  function TicketKey(t: TicketRecord): int { t.id }

  /** The three tables and the next rowid each AUTOINCREMENT key hands out. */
  datatype Db = Db(users: seq<User>, events: seq<EventRecord>, tickets: seq<TicketRecord>,
                   nextUserId: int, nextEventId: int, nextTicketId: int)

  predicate EmailTaken(users: seq<User>, email: string) {
    exists i :: 0 <= i < |users| && users[i].email == email
  }

  /** Some user other than the one with id `id` has this email. */
  predicate EmailTakenByOther(users: seq<User>, email: string, id: int) {
    exists i :: 0 <= i < |users| && users[i].email == email && users[i].id != id
  }

  predicate CodeTaken(tickets: seq<TicketRecord>, code: string) {
    exists i :: 0 <= i < |tickets| && tickets[i].uniqueCode == Some(code)
  }

  /** The unique index `index_users_email`. */
  predicate EmailsUnique(users: seq<User>) {
    forall x, y :: x in users && y in users && x.email == y.email ==> x == y
  }

  /** The unique index on `tickets.unique_code`; SQLite treats NULLs as distinct. */
  predicate CodesUnique(tickets: seq<TicketRecord>) {
    forall x, y :: x in tickets && y in tickets && x.uniqueCode.Some? && x.uniqueCode == y.uniqueCode ==> x == y
  }

  /** Both foreign keys of every ticket refer to an existing row. */
  predicate RefsValid(db: Db) {
    forall t :: t in db.tickets ==>
      HasKey(db.users, UserKey, t.userId) && HasKey(db.events, EventKey, t.eventId)
  }

  /** Room writes the status column through `getStatus`, which is never null. */
  predicate StatusesStored(events: seq<EventRecord>) {
    forall e :: e in events ==> e.status.Some?
  }

  /** The invariants the schema declares and every DAO write keeps. */
  predicate Consistent(db: Db) {
    && Ascending(db.users, UserKey) && Ascending(db.events, EventKey) && Ascending(db.tickets, TicketKey)
    && 1 <= db.nextUserId && AllBelow(db.users, UserKey, db.nextUserId)
    && 1 <= db.nextEventId && AllBelow(db.events, EventKey, db.nextEventId)
    && 1 <= db.nextTicketId && AllBelow(db.tickets, TicketKey, db.nextTicketId)
    && EmailsUnique(db.users) && CodesUnique(db.tickets) && StatusesStored(db.events)
    && RefsValid(db)
  }

  // ---------------------------------------------------------------- rowids

  /** Room binds an autogenerated key through `nullif(id, 0)`: an id of 0 asks
      for the next AUTOINCREMENT value, any other id is stored as given. */
  function AssignedId(requested: int, next: int): (id: int)
    ensures requested != 0 ==> id == requested
    ensures requested == 0 ==> id == next
  {
    if requested == 0 then next else requested
  }

  /** The AUTOINCREMENT counter after a row with rowid `id` was stored: it
      never goes down and always exceeds every rowid used. */
  function Advance(next: int, id: int): (n: int)
    ensures n >= next && n > id
    ensures id < next ==> n == next
  {
    if id >= next then id + 1 else next
  }

  // ---------------------------------------------------------------- users

  /** `UserDao.insertUser`: the new rowid, or the constraint that failed. */
  function DbInsertUser(db: Db, u: User): (r: (Db, Result<int>))
    ensures r.1.Err? ==> r.0 == db
    ensures EmailTaken(db.users, u.email) ==> r.1.Err?
    ensures r.1.Ok? ==> r.1.value == AssignedId(u.id, db.nextUserId)
    ensures r.1.Ok? ==>
      && u.(id := r.1.value) in r.0.users && |r.0.users| == |db.users| + 1
      && (forall x :: x in db.users ==> x in r.0.users)
      && (forall x :: x in r.0.users ==> x in db.users || x == u.(id := r.1.value))
      && r.0.events == db.events && r.0.tickets == db.tickets
  {
    var id := AssignedId(u.id, db.nextUserId);
    if HasKey(db.users, UserKey, id) then (db, Err(ERR_USERS_ID))
    else if EmailTaken(db.users, u.email) then (db, Err(ERR_USERS_EMAIL))
    else (db.(users := InsertByKey(db.users, u.(id := id), UserKey),
              nextUserId := Advance(db.nextUserId, id)), Ok(id))
  }

  /** `UserDao.updateUser`: the row with the same id is replaced; the result is
      the number of rows changed, or the unique email constraint that failed. */
  function DbUpdateUser(db: Db, u: User): (r: (Db, Result<nat>))
    ensures r.1.Err? ==> r.0 == db && r.1.error == ERR_USERS_EMAIL
    ensures !HasKey(db.users, UserKey, u.id) ==> r == (db, Ok(0))
    ensures r.1.Ok? && r.1.value == 1 ==>
      && u in r.0.users && |r.0.users| == |db.users|
      && (forall x :: x in db.users && x.id != u.id ==> x in r.0.users)
      && (forall x :: x in r.0.users ==> x == u || (x in db.users && x.id != u.id))
      && r.0.events == db.events && r.0.tickets == db.tickets
  {
    if !HasKey(db.users, UserKey, u.id) then (db, Ok(0))
    else if EmailTakenByOther(db.users, u.email, u.id) then (db, Err(ERR_USERS_EMAIL))
    else (db.(users := ReplaceByKey(db.users, u, UserKey)), Ok(1))
  }

  /** `UserDao.deleteUserById` (and `deleteUser`, which deletes by primary key):
      the user's row goes, and with it, by the cascading foreign key, every
      ticket of that user. */
  function DbDeleteUser(db: Db, id: int): (r: Db)
    ensures !HasKey(r.users, UserKey, id)
    ensures forall t :: t in r.tickets ==> t.userId != id || !HasKey(db.users, UserKey, id)
    ensures forall x :: x in db.users && x.id != id ==> x in r.users
    ensures forall x :: x in r.users ==> x in db.users
    ensures forall t :: t in db.tickets && t.userId != id ==> t in r.tickets
    ensures forall t :: t in r.tickets ==> t in db.tickets
    ensures r.events == db.events
  {
    if !HasKey(db.users, UserKey, id) then db
    else db.(users := Filter(db.users, (x: User) => x.id != id),
             tickets := Filter(db.tickets, (t: TicketRecord) => t.userId != id))
  }

  // ---------------------------------------------------------------- events

  /** `EventDao.insertEvent`: the row written is the entity read through its
      getters; the result is the new rowid or the primary key conflict. */
  function DbInsertEvent(db: Db, e: EventRecord): (r: (Db, Result<int>))
    ensures r.1.Err? ==> r.0 == db && r.1.error == ERR_EVENTS_ID
    ensures r.1.Ok? ==> r.1.value == AssignedId(e.id, db.nextEventId)
    ensures r.1.Ok? ==>
      && StoredEvent(e.(id := r.1.value)) in r.0.events && |r.0.events| == |db.events| + 1
      && (forall x :: x in db.events ==> x in r.0.events)
      && (forall x :: x in r.0.events ==> x in db.events || x == StoredEvent(e.(id := r.1.value)))
      && r.0.users == db.users && r.0.tickets == db.tickets
  {
    var id := AssignedId(e.id, db.nextEventId);
    if HasKey(db.events, EventKey, id) then (db, Err(ERR_EVENTS_ID))
    else (db.(events := InsertByKey(db.events, StoredEvent(e.(id := id)), EventKey),
              nextEventId := Advance(db.nextEventId, id)),
          Ok(id))
  }

  /** `EventDao.updateEvent`: the number of rows whose id matched (0 or 1); the
      matched row is replaced by the entity read through its getters. */
  function DbUpdateEvent(db: Db, e: EventRecord): (r: (Db, nat))
    ensures r.1 <= 1
    ensures r.1 == 0 <==> !HasKey(db.events, EventKey, e.id)
    ensures r.1 == 0 ==> r.0 == db
    ensures r.1 == 1 ==>
      && StoredEvent(e) in r.0.events && |r.0.events| == |db.events|
      && (forall x :: x in db.events && x.id != e.id ==> x in r.0.events)
      && (forall x :: x in r.0.events ==> x == StoredEvent(e) || (x in db.events && x.id != e.id))
      && r.0.users == db.users && r.0.tickets == db.tickets
  {
    if !HasKey(db.events, EventKey, e.id) then (db, 0)
    else (db.(events := ReplaceByKey(db.events, StoredEvent(e), EventKey)), 1)
  }

  /** `EventDao.deleteEventById` (and `deleteEvent`, which deletes by primary
      key): the event's row goes, and every ticket for it by the cascade. */
  function DbDeleteEvent(db: Db, id: int): (r: Db)
    ensures !HasKey(r.events, EventKey, id)
    ensures forall t :: t in r.tickets ==> t.eventId != id || !HasKey(db.events, EventKey, id)
    ensures forall x :: x in db.events && x.id != id ==> x in r.events
    ensures forall x :: x in r.events ==> x in db.events
    ensures forall t :: t in db.tickets && t.eventId != id ==> t in r.tickets
    ensures forall t :: t in r.tickets ==> t in db.tickets
    ensures r.users == db.users
  {
    if !HasKey(db.events, EventKey, id) then db
    else db.(events := Filter(db.events, (x: EventRecord) => x.id != id),
             tickets := Filter(db.tickets, (t: TicketRecord) => t.eventId != id))
  }

  // ---------------------------------------------------------------- tickets

  /** `TicketDao.insertTicket`: the new rowid, or the first constraint that
      failed: primary key, then the unique code, then a foreign key. */
  function DbInsertTicket(db: Db, t: TicketRecord): (r: (Db, Result<int>))
    ensures r.1.Err? ==> r.0 == db
    ensures t.uniqueCode.Some? && CodeTaken(db.tickets, t.uniqueCode.value) ==> r.1.Err?
    ensures !HasKey(db.users, UserKey, t.userId) || !HasKey(db.events, EventKey, t.eventId) ==> r.1.Err?
    ensures r.1.Ok? ==> r.1.value == AssignedId(t.id, db.nextTicketId)
    ensures r.1.Ok? ==>
      && t.(id := r.1.value) in r.0.tickets && |r.0.tickets| == |db.tickets| + 1
      && (forall x :: x in db.tickets ==> x in r.0.tickets)
      && (forall x :: x in r.0.tickets ==> x in db.tickets || x == t.(id := r.1.value))
      && r.0.users == db.users && r.0.events == db.events
  {
    var id := AssignedId(t.id, db.nextTicketId);
    if HasKey(db.tickets, TicketKey, id) then (db, Err(ERR_TICKETS_ID))
    else if t.uniqueCode.Some? && CodeTaken(db.tickets, t.uniqueCode.value) then (db, Err(ERR_TICKETS_CODE))
    else if !HasKey(db.users, UserKey, t.userId) || !HasKey(db.events, EventKey, t.eventId) then
      (db, Err(ERR_FOREIGN_KEY))
    else (db.(tickets := InsertByKey(db.tickets, t.(id := id), TicketKey),
              nextTicketId := Advance(db.nextTicketId, id)), Ok(id))
  }

  // ---------------------------------------------------------------- the seed

  const ADMIN: User := User(1, "Admin", "User", "admin@eventhive.com", "admin123", "Admin", "0000000000")

  const WAVEFEST: EventRecord := EventRecord(
    1, Some("WaveFest - Feel The Winter"), Some("12 Dec - 10 PM"), Some("Bashundhara R/A, Dhaka"),
    Some("A music event bringing people together with electric energy."), 0, Some(STATUS_ACTIVE),
    1734000000000)

  const TECH_SUMMIT: EventRecord := EventRecord(
    2, Some("Tech Summit 2024"), Some("15 Jan - 9 AM"), Some("ICCB, Dhaka"),
    Some("The biggest tech conference in the city."), 0, Some(STATUS_ACTIVE), 1736932800000)

  /** A store just created by Room, before its callback runs. */
  const EMPTY: Db := Db([], [], [], 1, 1, 1)

  /** `roomCallback.onCreate`: the admin user and the two demo events, inserted
      into the empty tables with autogenerated ids. */
  function Seeded(): (db: Db)
    ensures Consistent(db)
    ensures |db.users| == 1 && db.users[0].role == "Admin"
    ensures |db.events| == 2 && forall e :: e in db.events ==> e.status == Some(STATUS_ACTIVE) && e.timestamp > 0
    ensures db.tickets == []
  {
    Db([ADMIN], [WAVEFEST, TECH_SUMMIT], [], 2, 3, 1)
  }

  // ---------------------------------------------------------------- invariants kept

  lemma {:induction false} InsertUserConsistent(db: Db, u: User)
    requires Consistent(db)
    ensures Consistent(DbInsertUser(db, u).0)
  {
    var (db', r) := DbInsertUser(db, u);
    if r.Ok? {
      var x := u.(id := r.value);
      InsertByKeyAscending(db.users, x, UserKey);
      assert !EmailTaken(db.users, u.email);
      forall a, b | a in db'.users && b in db'.users && a.email == b.email ensures a == b {
      }
      forall t | t in db'.tickets
        ensures HasKey(db'.users, UserKey, t.userId)
      {
        var i :| 0 <= i < |db.users| && db.users[i].id == t.userId;
        assert db.users[i] in db'.users;
      }
    }
  }

  lemma {:induction false} UpdateUserConsistent(db: Db, u: User)
    requires Consistent(db)
    ensures Consistent(DbUpdateUser(db, u).0)
  {
    var (db', r) := DbUpdateUser(db, u);
    if r.Ok? && r.value == 1 {
      ReplaceByKeyAscending(db.users, u, UserKey);
      assert !EmailTakenByOther(db.users, u.email, u.id);
      forall a, b | a in db'.users && b in db'.users && a.email == b.email ensures a == b {
      }
      forall t | t in db'.tickets
        ensures HasKey(db'.users, UserKey, t.userId)
      {
        ReplaceByKeyHasKey(db.users, u, UserKey, t.userId);
      }
    }
  }

  lemma {:induction false} DeleteUserConsistent(db: Db, id: int)
    requires Consistent(db)
    ensures Consistent(DbDeleteUser(db, id))
  {
    var db' := DbDeleteUser(db, id);
    if HasKey(db.users, UserKey, id) {
      FilterAscending(db.users, (x: User) => x.id != id, UserKey);
      FilterAscending(db.tickets, (t: TicketRecord) => t.userId != id, TicketKey);
      forall t | t in db'.tickets
        ensures HasKey(db'.users, UserKey, t.userId)
      {
        var i :| 0 <= i < |db.users| && db.users[i].id == t.userId;
        assert db.users[i] in db'.users;
      }
    }
  }

  lemma {:induction false} InsertEventConsistent(db: Db, e: EventRecord)
    requires Consistent(db)
    ensures Consistent(DbInsertEvent(db, e).0)
  {
    var (db', r) := DbInsertEvent(db, e);
    if r.Ok? {
      InsertByKeyAscending(db.events, StoredEvent(e.(id := r.value)), EventKey);
      forall t | t in db'.tickets
        ensures HasKey(db'.events, EventKey, t.eventId)
      {
        var i :| 0 <= i < |db.events| && db.events[i].id == t.eventId;
        assert db.events[i] in db'.events;
      }
    }
  }

  lemma {:induction false} UpdateEventConsistent(db: Db, e: EventRecord)
    requires Consistent(db)
    ensures Consistent(DbUpdateEvent(db, e).0)
  {
    var (db', n) := DbUpdateEvent(db, e);
    if n == 1 {
      ReplaceByKeyAscending(db.events, StoredEvent(e), EventKey);
      forall t | t in db'.tickets
        ensures HasKey(db'.events, EventKey, t.eventId)
      {
        ReplaceByKeyHasKey(db.events, StoredEvent(e), EventKey, t.eventId);
      }
    }
  }

  lemma {:induction false} DeleteEventConsistent(db: Db, id: int)
    requires Consistent(db)
    ensures Consistent(DbDeleteEvent(db, id))
  {
    var db' := DbDeleteEvent(db, id);
    if HasKey(db.events, EventKey, id) {
      FilterAscending(db.events, (x: EventRecord) => x.id != id, EventKey);
      FilterAscending(db.tickets, (t: TicketRecord) => t.eventId != id, TicketKey);
      forall t | t in db'.tickets
        ensures HasKey(db'.events, EventKey, t.eventId)
      {
        var i :| 0 <= i < |db.events| && db.events[i].id == t.eventId;
        assert db.events[i] in db'.events;
      }
    }
  }

  lemma {:induction false} InsertTicketConsistent(db: Db, t: TicketRecord)
    requires Consistent(db)
    ensures Consistent(DbInsertTicket(db, t).0)
  {
    var (db', r) := DbInsertTicket(db, t);
    if r.Ok? {
      var x := t.(id := r.value);
      InsertByKeyAscending(db.tickets, x, TicketKey);
      forall a, b | a in db'.tickets && b in db'.tickets && a.uniqueCode.Some? && a.uniqueCode == b.uniqueCode
        ensures a == b
      {
      }
    }
  }

  /** With a consistent store, an autogenerated ticket goes at the end of the
      table with a positive id, so `insertTicket` never returns 0 or less. */
  lemma AutoTicketAppends(db: Db, t: TicketRecord)
    requires Consistent(db) && t.id == 0
    requires DbInsertTicket(db, t).1.Ok?
    ensures DbInsertTicket(db, t).1.value == db.nextTicketId >= 1
    ensures DbInsertTicket(db, t).0.tickets == db.tickets + [t.(id := db.nextTicketId)]
  {
    InsertAboveAppends(db.tickets, t.(id := db.nextTicketId), TicketKey);
  }

  /** After a cascade no ticket refers to the deleted user, and all other
      users and tickets are still there. */
  lemma DeleteUserCascades(db: Db, id: int)
    requires Consistent(db)
    ensures forall t :: t in DbDeleteUser(db, id).tickets ==> t.userId != id
    ensures forall t :: t in db.tickets && t.userId != id ==> t in DbDeleteUser(db, id).tickets
    ensures forall x :: x in db.users && x.id != id ==> x in DbDeleteUser(db, id).users
  {
    if !HasKey(db.users, UserKey, id) {
      forall t | t in db.tickets ensures t.userId != id {
        assert HasKey(db.users, UserKey, t.userId);
      }
    }
  }

  /** After a cascade no ticket refers to the deleted event. */
  lemma DeleteEventCascades(db: Db, id: int)
    requires Consistent(db)
    ensures forall t :: t in DbDeleteEvent(db, id).tickets ==> t.eventId != id
    ensures forall t :: t in db.tickets && t.eventId != id ==> t in DbDeleteEvent(db, id).tickets
    ensures forall x :: x in db.events && x.id != id ==> x in DbDeleteEvent(db, id).events
  {
    if !HasKey(db.events, EventKey, id) {
      forall t | t in db.tickets ensures t.eventId != id {
        assert HasKey(db.events, EventKey, t.eventId);
      }
    }
  }

  // ---------------------------------------------------------------- the store

  /** The open database: the three tables and their counters, updated in place
      by the DAO methods, which keep `Valid`. */
  class RoomStore {
    var users: seq<User>
    var events: seq<EventRecord>
    var tickets: seq<TicketRecord>
    var nextUserId: int
    var nextEventId: int
    var nextTicketId: int

    function State(): Db
      reads this
    {
      Db(users, events, tickets, nextUserId, nextEventId, nextTicketId)
    }

    predicate Valid()
      reads this
    {
      Consistent(State())
    }

    /** A database Room has just created and seeded through its callback. */
    constructor Create()
      ensures Valid() && State() == Seeded()
    {
      var db := Seeded();
      users, events, tickets := db.users, db.events, db.tickets;
      nextUserId, nextEventId, nextTicketId := db.nextUserId, db.nextEventId, db.nextTicketId;
    }

    method Store(db: Db)
      modifies this
      ensures State() == db
    {
      users, events, tickets := db.users, db.events, db.tickets;
      nextUserId, nextEventId, nextTicketId := db.nextUserId, db.nextEventId, db.nextTicketId;
    }

    method InsertUser(u: User) returns (r: Result<int>)
      requires Valid()
      modifies this
      ensures Valid() && (State(), r) == DbInsertUser(old(State()), u)
    {
      InsertUserConsistent(State(), u);
      var next := DbInsertUser(State(), u);
      Store(next.0);
      r := next.1;
    }

    method UpdateUser(u: User) returns (r: Result<nat>)
      requires Valid()
      modifies this
      ensures Valid() && (State(), r) == DbUpdateUser(old(State()), u)
    {
      UpdateUserConsistent(State(), u);
      var next := DbUpdateUser(State(), u);
      Store(next.0);
      r := next.1;
    }

    method DeleteUserById(id: int)
      requires Valid()
      modifies this
      ensures Valid() && State() == DbDeleteUser(old(State()), id)
    {
      DeleteUserConsistent(State(), id);
      Store(DbDeleteUser(State(), id));
    }

    method InsertEvent(e: EventRecord) returns (r: Result<int>)
      requires Valid()
      modifies this
      ensures Valid() && (State(), r) == DbInsertEvent(old(State()), e)
    {
      InsertEventConsistent(State(), e);
      var next := DbInsertEvent(State(), e);
      Store(next.0);
      r := next.1;
    }

    method UpdateEvent(e: EventRecord) returns (rows: nat)
      requires Valid()
      modifies this
      ensures Valid() && (State(), rows) == DbUpdateEvent(old(State()), e)
    {
      UpdateEventConsistent(State(), e);
      var next := DbUpdateEvent(State(), e);
      Store(next.0);
      rows := next.1;
    }

    method DeleteEventById(id: int)
      requires Valid()
      modifies this
      ensures Valid() && State() == DbDeleteEvent(old(State()), id)
    {
      DeleteEventConsistent(State(), id);
      Store(DbDeleteEvent(State(), id));
    }

    method InsertTicket(t: TicketRecord) returns (r: Result<int>)
      requires Valid()
      modifies this
      ensures Valid() && (State(), r) == DbInsertTicket(old(State()), t)
    {
      InsertTicketConsistent(State(), t);
      var next := DbInsertTicket(State(), t);
      Store(next.0);
      r := next.1;
    }
  }
}
