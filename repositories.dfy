/** The repositories over the Room store: `TicketRepository`,
    `EventRepository` and `UserRepository`. Each Java method runs one task on
    a single-thread executor and reports through exactly one of `onSuccess` /
    `onError`; here a call runs to completion and returns that report as a
    `Result`. An exception caught by the submitted job (a constraint failure of the
    store) becomes `Err` with its message. The clock, `Random`, `SecureRandom`,
    SHA-256 and `SimpleDateFormat` are parameters. */
module Repositories {
  import opened Strings
  import opened Entities
  import opened Tables
  import opened TicketCodes
  import opened PasswordHashing
  import Base64
  import opened RoomDb
  import Q = RoomQueries

  // ================================================================ TicketRepository

  const MAX_ATTEMPTS: nat := 10
  const ERR_NO_UNIQUE_CODE: string := "Failed to generate unique ticket code"
  const ERR_PURCHASE_FAILED: string := "Failed to purchase ticket"

  /** The codes attempts 0 .. MAX_ATTEMPTS - 1 generate, each from that
      attempt's clock reading and random draw. */
  function Candidates(eventId: int, clock: nat -> int, draws: nat -> Draw): (c: seq<string>)
    ensures |c| == MAX_ATTEMPTS
  {
    seq(MAX_ATTEMPTS, k requires 0 <= k < MAX_ATTEMPTS => GenerateTicketCode(eventId, clock(k), draws(k)))
  }

  /** The first attempt among `k ..` whose code no ticket holds. */
  function FirstFree(tickets: seq<TicketRecord>, codes: seq<string>, k: nat): (a: Option<nat>)
    ensures a.Some? ==> k <= a.value < |codes| && !CodeTaken(tickets, codes[a.value])
    ensures a.Some? ==> forall m :: k <= m < a.value ==> CodeTaken(tickets, codes[m])
    ensures a.None? ==> forall m :: k <= m < |codes| ==> CodeTaken(tickets, codes[m])
    decreases |codes| - k
  {
    if k >= |codes| then None
    else if !CodeTaken(tickets, codes[k]) then Some(k)
    else FirstFree(tickets, codes, k + 1)
  }

  /** What `purchaseTicket` does to the store and what it reports. */
  function PurchaseOutcome(db: Db, userId: int, eventId: int, clock: nat -> int, draws: nat -> Draw)
    : (r: (Db, Result<string>))
    ensures r.1.Ok? ==> r.1.value in Candidates(eventId, clock, draws) && !CodeTaken(db.tickets, r.1.value)
    ensures (forall m :: 0 <= m < MAX_ATTEMPTS ==> CodeTaken(db.tickets, Candidates(eventId, clock, draws)[m])) ==>
      r == (db, Err(ERR_NO_UNIQUE_CODE))
  {
    var codes := Candidates(eventId, clock, draws);
    match FirstFree(db.tickets, codes, 0)
    case None => (db, Err(ERR_NO_UNIQUE_CODE))
    case Some(k) =>
      var (db', res) := DbInsertTicket(db, TicketRecord(0, userId, eventId, Some(codes[k])));
      match res
      case Err(msg) => (db, Err(msg))
      case Ok(id) => if id > 0 then (db', Ok(codes[k])) else (db', Err(ERR_PURCHASE_FAILED))
  }

  /** `TicketRepository.purchaseTicket`: generate a code, retry while it is
      taken, give up on the eleventh generation, then insert the ticket. */
  method PurchaseTicket(store: RoomStore, userId: int, eventId: int, clock: nat -> int, draws: nat -> Draw)
    returns (r: Result<string>)
    requires store.Valid()
    modifies store
    ensures store.Valid()
    ensures (store.State(), r) == PurchaseOutcome(old(store.State()), userId, eventId, clock, draws)
  {
    ghost var codes := Candidates(eventId, clock, draws);
    var attempts: nat := 0;
    var code: string;
    while true
      invariant attempts <= MAX_ATTEMPTS
      invariant store.State() == old(store.State()) && store.Valid()
      invariant FirstFree(store.tickets, codes, attempts) == FirstFree(store.tickets, codes, 0)
      decreases MAX_ATTEMPTS - attempts
    {
      code := GenerateTicketCode(eventId, clock(attempts), draws(attempts));
      attempts := attempts + 1;
      if attempts > MAX_ATTEMPTS {
        return Err(ERR_NO_UNIQUE_CODE);
      }
      assert code == codes[attempts - 1];
      if !Q.TicketCodeExists(store.State(), code) {
        break;
      }
    }
    var ticket := new TicketEntity.Empty();
    ticket.SetUserId(userId);
    ticket.SetEventId(eventId);
    ticket.SetUniqueCode(Some(code));
    var inserted := store.InsertTicket(ticket.Record());
    match inserted {
      case Err(msg) => r := Err(msg);
      case Ok(id) => if id > 0 { r := Ok(code); } else { r := Err(ERR_PURCHASE_FAILED); }
    }
  }

  /** The purchase gives up, changing nothing, exactly when all ten candidates
      are taken. */
  lemma PurchaseGivesUpIff(db: Db, userId: int, eventId: int, clock: nat -> int, draws: nat -> Draw)
    ensures PurchaseOutcome(db, userId, eventId, clock, draws).1 == Err(ERR_NO_UNIQUE_CODE) <==>
            forall m :: 0 <= m < MAX_ATTEMPTS ==> CodeTaken(db.tickets, Candidates(eventId, clock, draws)[m])
    ensures PurchaseOutcome(db, userId, eventId, clock, draws).1 == Err(ERR_NO_UNIQUE_CODE) ==>
            PurchaseOutcome(db, userId, eventId, clock, draws).0 == db
  {
    var codes := Candidates(eventId, clock, draws);
    var a := FirstFree(db.tickets, codes, 0);
    if a.Some? {
      var res := DbInsertTicket(db, TicketRecord(0, userId, eventId, Some(codes[a.value]))).1;
      if res.Err? {
        assert res.error in {ERR_TICKETS_ID, ERR_TICKETS_CODE, ERR_FOREIGN_KEY};
      }
    }
  }

  /** On a consistent store a purchase succeeds exactly when some candidate is
      free and both the user and the event exist. On success it appends one
      ticket with the next id, the given user and event and a code no earlier
      ticket held, and changes nothing else. On failure the store is unchanged,
      and "Failed to purchase ticket" is never reported. */
  lemma PurchaseEffect(db: Db, userId: int, eventId: int, clock: nat -> int, draws: nat -> Draw)
    requires Consistent(db)
    ensures var (db', r) := PurchaseOutcome(db, userId, eventId, clock, draws);
      && Consistent(db')
      && (r.Ok? <==> FirstFree(db.tickets, Candidates(eventId, clock, draws), 0).Some? &&
                     HasKey(db.users, UserKey, userId) && HasKey(db.events, EventKey, eventId))
      && (r.Ok? ==> && !CodeTaken(db.tickets, r.value)
                    && db'.tickets == db.tickets + [TicketRecord(db.nextTicketId, userId, eventId, Some(r.value))]
                    && db'.users == db.users && db'.events == db.events)
      && (r.Err? ==> db' == db && r.error != ERR_PURCHASE_FAILED)
  {
    var codes := Candidates(eventId, clock, draws);
    var a := FirstFree(db.tickets, codes, 0);
    if a.Some? {
      var t := TicketRecord(0, userId, eventId, Some(codes[a.value]));
      InsertTicketConsistent(db, t);
      if DbInsertTicket(db, t).1.Ok? {
        AutoTicketAppends(db, t);
      } else {
        var res := DbInsertTicket(db, t).1;
        assert res.error in {ERR_TICKETS_ID, ERR_TICKETS_CODE, ERR_FOREIGN_KEY};
      }
    }
  }

  /** A purchased code has the documented format when the event id and the
      clock readings are not negative. */
  lemma PurchasedCodeValid(db: Db, userId: int, eventId: int, clock: nat -> int, draws: nat -> Draw)
    requires eventId >= 0 && forall k: nat :: clock(k) >= 0
    requires PurchaseOutcome(db, userId, eventId, clock, draws).1.Ok?
    ensures IsValidFormat(Some(PurchaseOutcome(db, userId, eventId, clock, draws).1.value))
  {
    var a := FirstFree(db.tickets, Candidates(eventId, clock, draws), 0);
    GeneratedIsValid(eventId, clock(a.value), draws(a.value));
  }

  /** `TicketRepository.getTicketsForUser`: the joined rows mapped through `toTicket`. */
  function TicketsForUser(db: Db, userId: int): (r: seq<Q.Ticket>)
    ensures |r| == |Q.TicketsWithEventInfo(db, userId)|
  {
    var infos := Q.TicketsWithEventInfo(db, userId);
    seq(|infos|, i requires 0 <= i < |infos| => Q.ToTicket(infos[i]))
  }

  /** `TicketRepository.searchTickets`: the search mapped through `toTicket`. */
  function SearchTickets(db: Db, userId: int, query: Option<string>, minDate: int, maxDate: int)
    : (r: seq<Q.Ticket>)
    ensures |r| == |Q.SearchTickets(db, userId, query, minDate, maxDate)|
  {
    var infos := Q.SearchTickets(db, userId, query, minDate, maxDate);
    seq(|infos|, i requires 0 <= i < |infos| => Q.ToTicket(infos[i]))
  }

  /** Every ticket the repository lists belongs to the user, newest id first. */
  lemma TicketsForUserOwnedAndNewestFirst(db: Db, userId: int)
    requires Consistent(db)
    ensures forall i :: 0 <= i < |TicketsForUser(db, userId)| ==> TicketsForUser(db, userId)[i].userId == userId
    ensures forall i, j :: 0 <= i < j < |TicketsForUser(db, userId)| ==>
              TicketsForUser(db, userId)[i].id > TicketsForUser(db, userId)[j].id
  {
    var infos := Q.TicketsWithEventInfo(db, userId);
    Q.TicketListsDescending(db, userId, None, 0, 0);
    InfosOwned(db.tickets, db.events, userId);
    MappedTickets(infos, TicketsForUser(db, userId), userId);
  }

  /** `toTicket` keeps each row's owner and id, so it keeps their order. */
  lemma MappedTickets(infos: seq<Q.TicketWithEventInfo>, r: seq<Q.Ticket>, userId: int)
    requires |r| == |infos| && forall i :: 0 <= i < |infos| ==> r[i] == Q.ToTicket(infos[i])
    requires forall i :: 0 <= i < |infos| ==> infos[i].userId == userId
    requires Descending(infos, Q.InfoKey)
    ensures forall i :: 0 <= i < |r| ==> r[i].userId == userId
    ensures forall i, j :: 0 <= i < j < |r| ==> r[i].id > r[j].id
  {
    forall i, j | 0 <= i < j < |r| ensures r[i].id > r[j].id {
      assert Q.InfoKey(infos[i]) > Q.InfoKey(infos[j]);
    }
  }

  lemma InfosOwned(tickets: seq<TicketRecord>, events: seq<EventRecord>, userId: int)
    ensures var infos := Reverse(Q.Project(Q.JoinForUser(tickets, events, userId)));
            forall i :: 0 <= i < |infos| ==> infos[i].userId == userId
  {
    var j := Q.JoinForUser(tickets, events, userId);
    var pr := Q.Project(j);
    forall i | 0 <= i < |pr| ensures Reverse(pr)[i].userId == userId {
      assert Reverse(pr)[i] == pr[|pr| - 1 - i] == Q.Info(j[|pr| - 1 - i]);
    }
  }

  // ================================================================ EventRepository

  const ERR_EVENT_NOT_FOUND: string := "Event not found"

  /** `SimpleDateFormat("d MMM - h a yyyy", Locale.ENGLISH).parse`: epoch
      milliseconds, or `None` where it throws. */
  type DateParser = string -> Option<int>

  /** `parseDateStringToTimestamp`: the date with " <year>" appended, parsed;
      0 on any failure. */
  function ParseDateToTimestamp(date: string, year: int, parse: DateParser): (t: int)
    ensures parse(date + " " + IntToDecimal(year)).None? ==> t == 0
    ensures parse(date + " " + IntToDecimal(year)).Some? ==> t == parse(date + " " + IntToDecimal(year)).value
  {
    match parse(date + " " + IntToDecimal(year))
    case Some(ms) => ms
    case None => 0
  }

  /** The entity `createEvent` and `updateEvent` write: `fromEvent`, then the
      parsed timestamp when the date is not null. */
  function EntityToWrite(e: EventValue, year: int, parse: DateParser): (r: EventRecord)
    ensures r.(timestamp := 0) == FromEventValue(e)
    ensures e.date.None? ==> r.timestamp == 0
    ensures e.date.Some? ==> r.timestamp == ParseDateToTimestamp(e.date.value, year, parse)
  {
    var r := FromEventValue(e);
    if e.date.Some? then r.(timestamp := ParseDateToTimestamp(e.date.value, year, parse)) else r
  }

  /** `EventRepository.createEvent`. */
  method CreateEvent(store: RoomStore, event: Event, year: int, parse: DateParser)
    returns (r: Result<int>)
    requires store.Valid()
    modifies store
    ensures store.Valid()
    ensures (store.State(), r) == DbInsertEvent(old(store.State()), EntityToWrite(event.Value(), year, parse))
  {
    var entity := EventEntity.FromEvent(event);
    if event.date.Some? {
      entity.SetTimestamp(ParseDateToTimestamp(event.date.value, year, parse));
    }
    r := store.InsertEvent(entity.Record());
  }

  /** `EventRepository.updateEvent`: success is `rowsAffected > 0`. */
  method UpdateEvent(store: RoomStore, event: Event, year: int, parse: DateParser)
    returns (r: Result<bool>)
    requires store.Valid()
    modifies store
    ensures store.Valid()
    ensures var (db', rows) := DbUpdateEvent(old(store.State()), EntityToWrite(event.Value(), year, parse));
            store.State() == db' && r == Ok(rows > 0)
  {
    var entity := EventEntity.FromEvent(event);
    if event.date.Some? {
      entity.SetTimestamp(ParseDateToTimestamp(event.date.value, year, parse));
    }
    var rows := store.UpdateEvent(entity.Record());
    r := Ok(rows > 0);
  }

  /** `EventRepository.deleteEvent`: delete by id, then report success. */
  method DeleteEvent(store: RoomStore, eventId: int) returns (r: Result<()>)
    requires store.Valid()
    modifies store
    ensures store.Valid() && store.State() == DbDeleteEvent(old(store.State()), eventId) && r == Ok(())
  {
    store.DeleteEventById(eventId);
    r := Ok(());
  }

  /** `EventRepository.getEventById`. */
  function GetEventById(db: Db, eventId: int): (r: Result<EventValue>)
    ensures r.Err? <==> !HasKey(db.events, EventKey, eventId)
    ensures r.Err? ==> r.error == ERR_EVENT_NOT_FOUND
    ensures r.Ok? ==> r.value.id == eventId && exists e :: e in db.events && r.value == ToEventValue(e)
  {
    match Q.GetEventById(db, eventId)
    case Some(e) => Ok(ToEventValue(e))
    case None => Err(ERR_EVENT_NOT_FOUND)
  }

  /** The row `ensureTimestampsPopulated` leaves for one event. */
  function Backfilled(e: EventRecord, year: int, parse: DateParser): (r: EventRecord)
    ensures r == e.(timestamp := r.timestamp)
    ensures e.timestamp != 0 || e.date.None? ==> r == e
    ensures r.timestamp != e.timestamp ==> r.timestamp > 0
  {
    if e.timestamp == 0 && e.date.Some? && ParseDateToTimestamp(e.date.value, year, parse) > 0
    then e.(timestamp := ParseDateToTimestamp(e.date.value, year, parse))
    else e
  }

  function BackfillAll(events: seq<EventRecord>, year: int, parse: DateParser): (r: seq<EventRecord>)
    ensures |r| == |events|
    ensures forall i :: 0 <= i < |events| ==> r[i] == Backfilled(events[i], year, parse)
  {
    seq(|events|, i requires 0 <= i < |events| => Backfilled(events[i], year, parse))
  }

  /** The table after the first `i` rows of `events` have been backfilled. */
  function PartlyBackfilled(events: seq<EventRecord>, i: nat, year: int, parse: DateParser)
    : (r: seq<EventRecord>)
    ensures |r| == |events|
    ensures forall k :: 0 <= k < |events| ==> EventKey(r[k]) == EventKey(events[k])
  {
    seq(|events|, k requires 0 <= k < |events| =>
      if k < i then Backfilled(events[k], year, parse) else events[k])
  }

  /** `EventRepository.ensureTimestampsPopulated`: every event read at the start
      whose timestamp is 0 and whose date parses to a positive time is updated
      with that time. */
  method EnsureTimestampsPopulated(store: RoomStore, year: int, parse: DateParser)
    requires store.Valid()
    modifies store
    ensures store.Valid()
    ensures store.State() == old(store.State()).(events := BackfillAll(old(store.State()).events, year, parse))
  {
    ghost var db0 := store.State();
    var events := store.events;
    var i := 0;
    while i < |events|
      invariant 0 <= i <= |events|
      invariant store.Valid()
      invariant store.State() == db0.(events := PartlyBackfilled(events, i, year, parse))
    {
      var e := events[i];
      BackfillStep(store.State(), events, i, year, parse);
      if e.timestamp == 0 && e.date.Some? {
        var t := ParseDateToTimestamp(e.date.value, year, parse);
        if t > 0 {
          var _ := store.UpdateEvent(e.(timestamp := t));
        }
      }
      i := i + 1;
    }
    assert PartlyBackfilled(events, i, year, parse) == BackfillAll(events, year, parse);
  }

  /** One step of the loop: a row left alone leaves the table as it is, and a
      row backfilled is written back by an update of its id that replaces
      exactly that row. */
  lemma BackfillStep(db: Db, events: seq<EventRecord>, i: nat, year: int, parse: DateParser)
    requires i < |events| && db.events == PartlyBackfilled(events, i, year, parse)
    requires Ascending(db.events, EventKey) && StatusesStored(db.events)
    ensures Backfilled(events[i], year, parse) == events[i] ==>
            PartlyBackfilled(events, i + 1, year, parse) == db.events
    ensures Backfilled(events[i], year, parse) != events[i] ==>
            DbUpdateEvent(db, Backfilled(events[i], year, parse)) ==
            (db.(events := PartlyBackfilled(events, i + 1, year, parse)), 1)
  {
    var cur := db.events;
    var b := Backfilled(events[i], year, parse);
    var next := PartlyBackfilled(events, i + 1, year, parse);
    assert cur[i] == events[i];
    if b != events[i] {
      assert cur[i] in cur;
      assert StoredEvent(b) == b;
      assert EventKey(cur[i]) == b.id;
      var rep := ReplaceByKey(cur, b, EventKey);
      forall k | 0 <= k < |cur| ensures rep[k] == next[k] {
      }
      assert rep == next;
      assert HasKey(cur, EventKey, b.id);
    }
  }

  /** Backfilling twice with the same parser changes nothing more. */
  lemma BackfillIdempotent(events: seq<EventRecord>, year: int, parse: DateParser)
    ensures BackfillAll(BackfillAll(events, year, parse), year, parse) == BackfillAll(events, year, parse)
  {
  }

  /** Only rows with timestamp 0, a date and a positive parse change, and only in
      their timestamp, which becomes the parsed time. */
  lemma BackfillChangesOnlyZeroTimestamps(events: seq<EventRecord>, year: int, parse: DateParser, i: nat)
    requires i < |events|
    ensures var b := BackfillAll(events, year, parse)[i];
      && b.(timestamp := events[i].timestamp) == events[i]
      && (b != events[i] ==> events[i].timestamp == 0 && events[i].date.Some? && b.timestamp > 0 &&
                             b.timestamp == ParseDateToTimestamp(events[i].date.value, year, parse))
  {
  }

  // ================================================================ UserRepository

  const ERR_USER_NOT_FOUND: string := "User not found"
  const ERR_INVALID_PASSWORD: string := "Invalid password"

  /** The row `registerUser` inserts: the user with its password replaced by the salted hash. */
  function UserToRegister(user: User, salt: Salt, h: Hash): (u: User)
    ensures u.(password := user.password) == user
    ensures |u.password| > 24 && u.password[24] == ':' && Base64.Decode(u.password[..24]) == Some(salt)
  {
    user.(password := HashPassword(user.password, salt, h))
  }

  /** The stored hash verifies against the password it was made from. */
  lemma RegisteredPasswordVerifies(user: User, salt: Salt, h: Hash)
    requires |h(salt, user.password)| == DIGEST_LENGTH
    ensures VerifyPassword(user.password, UserToRegister(user, salt, h).password, h)
  {
    VerifyHashed(user.password, salt, h);
  }

  /** `UserRepository.registerUser`: hash, then insert; the new id or the insert's error. */
  method RegisterUser(store: RoomStore, user: User, salt: Salt, h: Hash) returns (r: Result<int>)
    requires store.Valid()
    modifies store
    ensures store.Valid()
    ensures (store.State(), r) == DbInsertUser(old(store.State()), UserToRegister(user, salt, h))
  {
    var entity := UserEntity.FromUser(user);
    var hashed := HashPassword(user.password, salt, h);
    entity.SetPassword(hashed);
    r := store.InsertUser(entity.Record());
  }

  /** `UserRepository.loginUser`. */
  function LoginUser(db: Db, email: string, password: string, h: Hash): (r: Result<User>)
    ensures !EmailTaken(db.users, email) ==> r == Err(ERR_USER_NOT_FOUND)
    ensures r.Ok? ==> r.value in db.users && r.value.email == email &&
                      VerifyPassword(password, r.value.password, h)
    ensures r.Err? ==> r.error == ERR_USER_NOT_FOUND || r.error == ERR_INVALID_PASSWORD
  {
    match Q.GetUserByEmail(db, email)
    case None => Err(ERR_USER_NOT_FOUND)
    case Some(u) => if VerifyPassword(password, u.password, h) then Ok(u) else Err(ERR_INVALID_PASSWORD)
  }

  /** On a consistent store, a login either finds the one user with the email
      and reports whether the password verifies against that user's hash, or
      reports that no user has the email. */
  lemma LoginOutcome(db: Db, email: string, password: string, h: Hash, u: User)
    requires Consistent(db) && u in db.users && u.email == email
    ensures VerifyPassword(password, u.password, h) ==> LoginUser(db, email, password, h) == Ok(u)
    ensures !VerifyPassword(password, u.password, h) ==> LoginUser(db, email, password, h) == Err(ERR_INVALID_PASSWORD)
  {
    Q.GetUserByEmailUnique(db, u);
  }

  /** Registering and then logging in with the same email and password succeeds,
      with the stored user. */
  lemma RegisterThenLogin(db: Db, user: User, salt: Salt, h: Hash)
    requires Consistent(db) && |h(salt, user.password)| == DIGEST_LENGTH
    requires DbInsertUser(db, UserToRegister(user, salt, h)).1.Ok?
    ensures var (db', r) := DbInsertUser(db, UserToRegister(user, salt, h));
            LoginUser(db', user.email, user.password, h) == Ok(UserToRegister(user, salt, h).(id := r.value))
  {
    var u := UserToRegister(user, salt, h);
    Q.InsertThenFindByEmail(db, u);
    VerifyHashed(user.password, salt, h);
  }

  /** The seeded admin's password is stored in plain text and holds no ':', so
      no password ever logs the admin in. */
  lemma SeededAdminCannotLogIn(password: string, h: Hash)
    ensures LoginUser(Seeded(), ADMIN.email, password, h) == Err(ERR_INVALID_PASSWORD)
  {
    LoginOutcome(Seeded(), ADMIN.email, password, h, ADMIN);
  }

  /** `UserRepository.getUserById`. */
  function GetUserById(db: Db, userId: int): (r: Result<User>)
    ensures r.Err? <==> !HasKey(db.users, UserKey, userId)
    ensures r.Err? ==> r.error == ERR_USER_NOT_FOUND
    ensures r.Ok? ==> r.value in db.users && r.value.id == userId
  {
    match Q.GetUserById(db, userId)
    case Some(u) => Ok(u)
    case None => Err(ERR_USER_NOT_FOUND)
  }

  /** `UserRepository.updateUser`: `fromUser`, then the DAO update; success
      whatever the number of rows, an error only from a constraint. */
  method UpdateUser(store: RoomStore, user: User) returns (r: Result<()>)
    requires store.Valid()
    modifies store
    ensures store.Valid()
    ensures var (db', res) := DbUpdateUser(old(store.State()), user);
            store.State() == db' && (r.Ok? <==> res.Ok?) && (r.Err? ==> r.error == res.error)
  {
    var entity := UserEntity.FromUser(user);
    var res := store.UpdateUser(entity.Record());
    match res {
      case Err(msg) => r := Err(msg);
      case Ok(_) => r := Ok(());
    }
  }

  /** An update of an existing user with an email no other user holds replaces
      that user's row by the new values and leaves every other row alone. */
  lemma UpdateUserReplaces(db: Db, user: User)
    requires Consistent(db) && HasKey(db.users, UserKey, user.id)
    requires !EmailTakenByOther(db.users, user.email, user.id)
    ensures var db' := DbUpdateUser(db, user).0;
            && GetUserById(db', user.id) == Ok(user)
            && (forall x :: x in db.users && x.id != user.id ==> x in db'.users)
            && db'.tickets == db.tickets && db'.events == db.events
  {
    UpdateUserConsistent(db, user);
    Q.GetUserByIdUnique(DbUpdateUser(db, user).0, user);
  }

  /** `UserRepository.deleteUser`: delete by id, then report success. */
  method DeleteUser(store: RoomStore, userId: int) returns (r: Result<()>)
    requires store.Valid()
    modifies store
    ensures store.Valid() && store.State() == DbDeleteUser(old(store.State()), userId) && r == Ok(())
  {
    store.DeleteUserById(userId);
    r := Ok(());
  }
}
