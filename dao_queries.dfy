/** The `@Query` selects of `UserDao`, `EventDao` and `TicketDao` over a
    store: lookups by key, filtered selections and their counts, the
    optional-predicate searches and the ticket/event inner join.

    `LIKE '%q%'` is SQLite's substring match, case-insensitive for ASCII
    letters only; a NULL column never matches. */
module RoomQueries {
  import opened Strings
  import opened Entities
  import opened Tables
  import opened RoomDb

  // ---------------------------------------------------------------- users

  function HasEmail(email: string): User -> bool {
    (u: User) => u.email == email
  }

  function HasUserId(id: int): User -> bool {
    (u: User) => u.id == id
  }

  function HasRole(role: string): User -> bool {
    (u: User) => u.role == role
  }

  /** `UserDao.getUserByEmail`: a row whose email equals the argument exactly, or null. */
  function GetUserByEmail(db: Db, email: string): (r: Option<User>)
    ensures r.Some? ==> r.value in db.users && r.value.email == email
    ensures r.None? <==> !EmailTaken(db.users, email)
  {
    FindFirst(db.users, HasEmail(email))
  }

  /** `UserDao.getUserById`: the row with that id, or null. */
  function GetUserById(db: Db, id: int): (r: Option<User>)
    ensures r.Some? ==> r.value in db.users && r.value.id == id
    ensures r.None? <==> !HasKey(db.users, UserKey, id)
  {
    FindFirst(db.users, HasUserId(id))
  }

  /** `UserDao.getUserCount`. */
  function UserCount(db: Db): (n: nat)
    ensures n == |db.users|
  {
    |db.users|
  }

  /** `UserDao.getUserCountByRole`: the number of users with exactly that role. */
  function UserCountByRole(db: Db, role: string): (n: nat)
    ensures n == |Filter(db.users, HasRole(role))|
    ensures n <= UserCount(db)
  {
    CountIsFilterSize(db.users, HasRole(role));
    Count(db.users, HasRole(role))
  }

  /** With unique emails the lookup finds the one user holding the email. */
  lemma GetUserByEmailUnique(db: Db, u: User)
    requires Consistent(db) && u in db.users
    ensures GetUserByEmail(db, u.email) == Some(u)
  {
  }

  /** With unique ids the lookup finds the one user holding the id. */
  lemma GetUserByIdUnique(db: Db, u: User)
    requires Consistent(db) && u in db.users
    ensures GetUserById(db, u.id) == Some(u)
  {
    var r := GetUserById(db, u.id);
    var i :| 0 <= i < |db.users| && db.users[i] == u;
    var j :| 0 <= j < |db.users| && db.users[j] == r.value;
    AscendingKeyUnique(db.users, UserKey, i, j);
  }

  /** A user inserted with a fresh email is then found by that email. */
  lemma InsertThenFindByEmail(db: Db, u: User)
    requires Consistent(db) && DbInsertUser(db, u).1.Ok?
    ensures GetUserByEmail(DbInsertUser(db, u).0, u.email) ==
            Some(u.(id := DbInsertUser(db, u).1.value))
  {
    InsertUserConsistent(db, u);
    GetUserByEmailUnique(DbInsertUser(db, u).0, u.(id := DbInsertUser(db, u).1.value));
  }

  // ---------------------------------------------------------------- events

  function HasEventId(id: int): EventRecord -> bool {
    (e: EventRecord) => e.id == id
  }

  function HasStatus(status: string): EventRecord -> bool {
    (e: EventRecord) => e.status == Some(status)
  }

  /** `EventDao.getEventById`: the row with that id, or null. */
  function GetEventById(db: Db, id: int): (r: Option<EventRecord>)
    ensures r.Some? ==> r.value in db.events && r.value.id == id
    ensures r.None? <==> !HasKey(db.events, EventKey, id)
  {
    FindFirst(db.events, HasEventId(id))
  }

  /** With unique ids `getEventById` finds the one event holding the id, so it
      returns at most one row. */
  lemma GetEventByIdUnique(db: Db, e: EventRecord)
    requires Consistent(db) && e in db.events
    ensures GetEventById(db, e.id) == Some(e)
  {
    var r := GetEventById(db, e.id);
    var i :| 0 <= i < |db.events| && db.events[i] == e;
    var j :| 0 <= j < |db.events| && db.events[j] == r.value;
    AscendingKeyUnique(db.events, EventKey, i, j);
  }

  /** `EventDao.getEventsByStatus`: the events whose status equals the argument, in table order. */
  function EventsByStatus(db: Db, status: string): (r: seq<EventRecord>)
    ensures forall e :: e in r <==> e in db.events && e.status == Some(status)
    ensures IsSubsequence(r, db.events)
  {
    FilterSubsequence(db.events, HasStatus(status));
    Filter(db.events, HasStatus(status))
  }

  /** `EventDao.getEventCount`. */
  function EventCount(db: Db): (n: nat)
    ensures n == |db.events|
  {
    |db.events|
  }

  /** `EventDao.getEventCountByStatus`: the size of `getEventsByStatus`. */
  function EventCountByStatus(db: Db, status: string): (n: nat)
    ensures n == |EventsByStatus(db, status)|
    ensures n <= EventCount(db)
  {
    CountIsFilterSize(db.events, HasStatus(status));
    Count(db.events, HasStatus(status))
  }

  /** `EventDao.getActiveEventCountSync`: the events whose status is 'Active'. */
  function ActiveEventCount(db: Db): (n: nat)
    ensures n == |EventsByStatus(db, STATUS_ACTIVE)|
  {
    EventCountByStatus(db, STATUS_ACTIVE)
  }

  // ---------------------------------------------------------------- event search

  /** `column LIKE '%' || q || '%'`: false for a NULL column, otherwise an
      ASCII case-insensitive substring test. */
  predicate Like(column: Option<string>, q: string) {
    column.Some? && Contains(Lower(column.value), Lower(q))
  }

  /** The WHERE clause of `EventDao.searchEvents`: a null text or a 0 bound is
      "unset"; set bounds are inclusive. */
  predicate EventMatches(e: EventRecord, query: Option<string>, location: Option<string>,
                         minDate: int, maxDate: int): (matches: bool)
    ensures query.None? && location.None? && minDate == 0 && maxDate == 0 ==> matches
    ensures matches && query.Some? ==> e.title.Some?
    ensures matches && location.Some? ==> e.location.Some?
  {
    && (query.None? || Like(e.title, query.value))
    && (location.None? || Like(e.location, location.value))
    && (minDate == 0 || e.timestamp >= minDate)
    && (maxDate == 0 || e.timestamp <= maxDate)
  }

  function SearchFilter(query: Option<string>, location: Option<string>, minDate: int, maxDate: int)
    : EventRecord -> bool
  {
    (e: EventRecord) => EventMatches(e, query, location, minDate, maxDate)
  }

  function EventTimestamp(e: EventRecord): int { e.timestamp }

  /** `EventDao.searchEvents`. */
  function SearchEvents(db: Db, query: Option<string>, location: Option<string>,
                        minDate: int, maxDate: int): (r: seq<EventRecord>)
    ensures SortedBy(r, EventTimestamp)
    ensures forall e :: e in r <==> e in db.events && EventMatches(e, query, location, minDate, maxDate)
  {
    var kept := Filter(db.events, SearchFilter(query, location, minDate, maxDate));
    var r := SortBy(kept, EventTimestamp);
    assert forall e :: e in r <==> e in multiset(kept);
    r
  }

  /** With every filter unset the search returns every event, each once. */
  lemma SearchEventsUnset(db: Db)
    ensures multiset(SearchEvents(db, None, None, 0, 0)) == multiset(db.events)
  {
    FilterKeepsAll(db.events, SearchFilter(None, None, 0, 0));
  }

  /** The 0 sentinel: an event whose timestamp is 0 passes every upper bound
      that is not negative, and no lower bound above 0. */
  lemma ZeroTimestampQuirk(e: EventRecord, query: Option<string>, location: Option<string>,
                           minDate: int, maxDate: int)
    requires e.timestamp == 0
    ensures minDate > 0 ==> !EventMatches(e, query, location, minDate, maxDate)
    ensures maxDate >= 0 && minDate <= 0 ==>
      (EventMatches(e, query, location, minDate, maxDate) <==>
       EventMatches(e, query, location, 0, 0))
  {
  }

  /** The dashboard's omni-search passes its text as both query and location, so
      it keeps only events whose title and location both contain the text. */
  lemma OmniSearchNeedsBoth(db: Db, text: string, e: EventRecord)
    ensures e in SearchEvents(db, Some(text), Some(text), 0, 0) <==>
            e in db.events && Like(e.title, text) && Like(e.location, text)
  {
  }

  // ---------------------------------------------------------------- tickets

  function OfUser(userId: int): TicketRecord -> bool {
    (t: TicketRecord) => t.userId == userId
  }

  function ForEvent(eventId: int): TicketRecord -> bool {
    (t: TicketRecord) => t.eventId == eventId
  }

  /** `TicketDao.ticketCodeExists`. */
  function TicketCodeExists(db: Db, code: string): (b: bool)
    ensures b <==> exists t :: t in db.tickets && t.uniqueCode == Some(code)
  {
    CodeTaken(db.tickets, code)
  }

  /** With the unique index, a code that exists belongs to exactly one ticket. */
  lemma CodeBelongsToOneTicket(db: Db, code: string, t1: TicketRecord, t2: TicketRecord)
    requires Consistent(db)
    requires t1 in db.tickets && t1.uniqueCode == Some(code)
    requires t2 in db.tickets && t2.uniqueCode == Some(code)
    ensures t1 == t2
  {
  }

  /** `TicketDao.getTicketsForUser`: that user's tickets in table order. */
  function TicketsOfUser(db: Db, userId: int): (r: seq<TicketRecord>)
    ensures forall t :: t in r <==> t in db.tickets && t.userId == userId
    ensures IsSubsequence(r, db.tickets)
  {
    FilterSubsequence(db.tickets, OfUser(userId));
    Filter(db.tickets, OfUser(userId))
  }

  /** `TicketDao.getTicketCountForUser`. */
  function TicketCountForUser(db: Db, userId: int): (n: nat)
    ensures n == |TicketsOfUser(db, userId)|
  {
    CountIsFilterSize(db.tickets, OfUser(userId));
    Count(db.tickets, OfUser(userId))
  }

  /** `TicketDao.getTicketCountForEvent`: the number of tickets with that event id. */
  function TicketCountForEvent(db: Db, eventId: int): (n: nat)
    ensures n == |Filter(db.tickets, ForEvent(eventId))|
    ensures n <= |db.tickets|
  {
    CountIsFilterSize(db.tickets, ForEvent(eventId));
    Count(db.tickets, ForEvent(eventId))
  }

  /** `TicketDao.TicketWithEventInfo`: a ticket row with three columns of its event. */
  datatype TicketWithEventInfo = TicketWithEventInfo(
    id: int, userId: int, eventId: int, uniqueCode: Option<string>,
    eventTitle: Option<string>, eventDate: Option<string>, eventLocation: Option<string>)

  /** The ticket model the repositories hand out. */
  datatype Ticket = Ticket(
    id: int, userId: int, eventId: int, uniqueCode: Option<string>,
    eventTitle: Option<string>, eventDate: Option<string>, eventLocation: Option<string>)

  /** `TicketWithEventInfo.toTicket`. */
  function ToTicket(info: TicketWithEventInfo): (t: Ticket)
    ensures t.id == info.id && t.userId == info.userId && t.eventId == info.eventId
    ensures t.uniqueCode == info.uniqueCode
    ensures t.eventTitle == info.eventTitle && t.eventDate == info.eventDate
    ensures t.eventLocation == info.eventLocation
  {
    Ticket(info.id, info.userId, info.eventId, info.uniqueCode,
           info.eventTitle, info.eventDate, info.eventLocation)
  }

  type JoinedRow = (TicketRecord, EventRecord)

  function JoinedKey(p: JoinedRow): int { p.0.id }

  function InfoKey(i: TicketWithEventInfo): int { i.id }

  /** One row of the join projected onto the selected columns. */
  function Info(p: JoinedRow): TicketWithEventInfo {
    TicketWithEventInfo(p.0.id, p.0.userId, p.0.eventId, p.0.uniqueCode,
                        p.1.title, p.1.date, p.1.location)
  }

  /** `tickets t INNER JOIN events e ON t.event_id = e.id WHERE t.user_id = ?`,
      in ticket rowid order; a ticket whose event is missing is dropped. */
  function JoinForUser(tickets: seq<TicketRecord>, events: seq<EventRecord>, userId: int)
    : (r: seq<JoinedRow>)
    ensures forall k :: 0 <= k < |r| ==>
      r[k].0 in tickets && r[k].0.userId == userId && r[k].1 in events && r[k].1.id == r[k].0.eventId
    decreases |tickets|
  {
    if tickets == [] then []
    else
      var t := tickets[0];
      var rest := JoinForUser(tickets[1..], events, userId);
      match FindFirst(events, HasEventId(t.eventId))
      case Some(e) => if t.userId == userId then [(t, e)] + rest else rest
      case None => rest
  }

  /** Every ticket of the user whose event exists is in the join. */
  lemma {:induction false} JoinComplete(tickets: seq<TicketRecord>, events: seq<EventRecord>,
                                        userId: int, t: TicketRecord)
    requires t in tickets && t.userId == userId && HasKey(events, EventKey, t.eventId)
    ensures exists k :: 0 <= k < |JoinForUser(tickets, events, userId)| &&
                        JoinForUser(tickets, events, userId)[k].0 == t
    decreases |tickets|
  {
    var r := JoinForUser(tickets, events, userId);
    if tickets[0] == t {
      assert FindFirst(events, HasEventId(t.eventId)).Some?;
      assert r[0].0 == t;
    } else {
      JoinComplete(tickets[1..], events, userId, t);
      var rest := JoinForUser(tickets[1..], events, userId);
      var k :| 0 <= k < |rest| && rest[k].0 == t;
      if |r| == |rest| + 1 {
        assert r[k + 1] == rest[k];
      } else {
        assert r == rest;
      }
    }
  }

  /** The join keeps the ticket rowid order. */
  lemma {:induction false} JoinAscending(tickets: seq<TicketRecord>, events: seq<EventRecord>, userId: int)
    requires Ascending(tickets, TicketKey)
    ensures Ascending(JoinForUser(tickets, events, userId), JoinedKey)
    decreases |tickets|
  {
    if tickets != [] {
      var t := tickets[0];
      AscendingTail(tickets, TicketKey);
      JoinAscending(tickets[1..], events, userId);
      var rest := JoinForUser(tickets[1..], events, userId);
      var f := FindFirst(events, HasEventId(t.eventId));
      if f.Some? && t.userId == userId {
        forall m | 0 <= m < |rest| ensures JoinedKey((t, f.value)) < JoinedKey(rest[m]) {
          assert rest[m].0 in tickets[1..];
        }
        AscendingCons((t, f.value), rest, JoinedKey);
      }
    }
  }

  /** The rows projected onto the selected columns. */
  function Project(rows: seq<JoinedRow>): (r: seq<TicketWithEventInfo>)
    ensures |r| == |rows|
    ensures forall k :: 0 <= k < |rows| ==> r[k] == Info(rows[k])
  {
    seq(|rows|, k requires 0 <= k < |rows| => Info(rows[k]))
  }

  /** A listed row: one of the user's tickets, carrying the title, date and
      location of an event stored under the ticket's event id. */
  predicate ListedFor(db: Db, userId: int, i: TicketWithEventInfo) {
    && i.userId == userId
    && (exists t :: t in db.tickets && t == TicketRecord(i.id, i.userId, i.eventId, i.uniqueCode))
    && (exists e :: e in db.events && e.id == i.eventId &&
          e.title == i.eventTitle && e.date == i.eventDate && e.location == i.eventLocation)
  }

  /** Joined rows of the user, projected and reversed, are listed rows. */
  lemma JoinedRowsListed(db: Db, userId: int, j: seq<JoinedRow>)
    requires forall k :: 0 <= k < |j| ==>
      j[k].0 in db.tickets && j[k].0.userId == userId && j[k].1 in db.events && j[k].1.id == j[k].0.eventId
    ensures |Reverse(Project(j))| == |j|
    ensures forall k :: 0 <= k < |j| ==> ListedFor(db, userId, Reverse(Project(j))[k])
  {
    var r := Reverse(Project(j));
    forall k | 0 <= k < |j| ensures ListedFor(db, userId, r[k]) {
      var n := |j| - 1 - k;
      assert r[k] == Info(j[n]);
      assert j[n].0 == TicketRecord(r[k].id, r[k].userId, r[k].eventId, r[k].uniqueCode);
    }
  }

  /** `TicketDao.getTicketsWithEventInfo`: the join, `ORDER BY t.id DESC`. */
  function TicketsWithEventInfo(db: Db, userId: int): (r: seq<TicketWithEventInfo>)
    ensures forall k :: 0 <= k < |r| ==> ListedFor(db, userId, r[k])
  {
    var j := JoinForUser(db.tickets, db.events, userId);
    JoinedRowsListed(db, userId, j);
    Reverse(Project(j))
  }

  /** The WHERE clause of `TicketDao.searchTickets` on the joined event. */
  predicate TicketEventMatches(e: EventRecord, query: Option<string>, minDate: int, maxDate: int) {
    && (query.None? || Like(e.title, query.value) || Like(e.location, query.value))
    && (minDate == 0 || e.timestamp >= minDate)
    && (maxDate == 0 || e.timestamp <= maxDate)
  }

  function TicketFilter(query: Option<string>, minDate: int, maxDate: int): JoinedRow -> bool {
    (p: JoinedRow) => TicketEventMatches(p.1, query, minDate, maxDate)
  }

  /** Kept rows, projected and reversed, carry an event that passed the filter. */
  lemma KeptRowsMatch(db: Db, j: seq<JoinedRow>, query: Option<string>, minDate: int, maxDate: int)
    requires forall k :: 0 <= k < |j| ==>
      j[k].1 in db.events && j[k].1.id == j[k].0.eventId && TicketEventMatches(j[k].1, query, minDate, maxDate)
    ensures forall k :: 0 <= k < |j| ==>
      (exists e :: e in db.events && e.id == Reverse(Project(j))[k].eventId &&
                   e.title == Reverse(Project(j))[k].eventTitle && TicketEventMatches(e, query, minDate, maxDate))
  {
    var r := Reverse(Project(j));
    forall k | 0 <= k < |j|
      ensures exists e :: e in db.events && e.id == r[k].eventId && e.title == r[k].eventTitle &&
                          TicketEventMatches(e, query, minDate, maxDate)
    {
      var n := |j| - 1 - k;
      assert r[k] == Info(j[n]);
      assert j[n].1.id == r[k].eventId && j[n].1.title == r[k].eventTitle;
    }
  }

  /** `TicketDao.searchTickets`: the same join, filtered on the event, `ORDER BY t.id DESC`. */
  function SearchTickets(db: Db, userId: int, query: Option<string>, minDate: int, maxDate: int)
    : (r: seq<TicketWithEventInfo>)
    ensures forall k :: 0 <= k < |r| ==> ListedFor(db, userId, r[k])
    ensures forall k :: 0 <= k < |r| ==>
      (exists e :: e in db.events && e.id == r[k].eventId &&
                   e.title == r[k].eventTitle && TicketEventMatches(e, query, minDate, maxDate))
  {
    var j := JoinForUser(db.tickets, db.events, userId);
    var f := Filter(j, TicketFilter(query, minDate, maxDate));
    assert forall k :: 0 <= k < |f| ==> f[k] in j && TicketFilter(query, minDate, maxDate)(f[k]);
    JoinedRowsListed(db, userId, f);
    KeptRowsMatch(db, f, query, minDate, maxDate);
    Reverse(Project(f))
  }

  /** With the query null and both bounds 0 the search is `getTicketsWithEventInfo`. */
  lemma SearchTicketsUnset(db: Db, userId: int)
    ensures SearchTickets(db, userId, None, 0, 0) == TicketsWithEventInfo(db, userId)
  {
    FilterKeepsAll(JoinForUser(db.tickets, db.events, userId), TicketFilter(None, 0, 0));
  }

  lemma ProjectAscending(rows: seq<JoinedRow>)
    requires Ascending(rows, JoinedKey)
    ensures Ascending(Project(rows), InfoKey)
  {
    var r := Project(rows);
    forall i, j | 0 <= i < j < |r| ensures InfoKey(r[i]) < InfoKey(r[j]) {
      assert JoinedKey(rows[i]) < JoinedKey(rows[j]);
    }
  }

  /** Both ticket lists come in strictly descending ticket id. */
  lemma TicketListsDescending(db: Db, userId: int, query: Option<string>, minDate: int, maxDate: int)
    requires Consistent(db)
    ensures Descending(TicketsWithEventInfo(db, userId), InfoKey)
    ensures Descending(SearchTickets(db, userId, query, minDate, maxDate), InfoKey)
  {
    var j := JoinForUser(db.tickets, db.events, userId);
    JoinAscending(db.tickets, db.events, userId);
    ProjectAscending(j);
    ReverseAscending(Project(j), InfoKey);
    FilterAscending(j, TicketFilter(query, minDate, maxDate), JoinedKey);
    ProjectAscending(Filter(j, TicketFilter(query, minDate, maxDate)));
    ReverseAscending(Project(Filter(j, TicketFilter(query, minDate, maxDate))), InfoKey);
  }

  /** `getTicketsWithEventInfo` lists exactly the user's tickets whose event exists. */
  lemma TicketsWithEventInfoMembers(db: Db, userId: int, t: TicketRecord)
    requires Consistent(db) && t in db.tickets
    ensures (exists k :: 0 <= k < |TicketsWithEventInfo(db, userId)| &&
                         TicketsWithEventInfo(db, userId)[k].id == t.id) <==>
            t.userId == userId
  {
    if t.userId == userId {
      ListedWhenOwned(db, userId, t);
    }
    if exists k :: 0 <= k < |TicketsWithEventInfo(db, userId)| && TicketsWithEventInfo(db, userId)[k].id == t.id {
      var k :| 0 <= k < |TicketsWithEventInfo(db, userId)| && TicketsWithEventInfo(db, userId)[k].id == t.id;
      OwnedWhenListed(db.tickets, db.events, userId, t, k);
    }
  }

  lemma ListedWhenOwned(db: Db, userId: int, t: TicketRecord)
    requires RefsValid(db) && t in db.tickets && t.userId == userId
    ensures exists k :: 0 <= k < |TicketsWithEventInfo(db, userId)| &&
                        TicketsWithEventInfo(db, userId)[k].id == t.id
  {
    var j := JoinForUser(db.tickets, db.events, userId);
    var r := TicketsWithEventInfo(db, userId);
    JoinComplete(db.tickets, db.events, userId, t);
    var k :| 0 <= k < |j| && j[k].0 == t;
    assert r[|j| - 1 - k] == Info(j[k]);
  }

  lemma OwnedWhenListed(tickets: seq<TicketRecord>, events: seq<EventRecord>, userId: int,
                        t: TicketRecord, k: nat)
    requires Ascending(tickets, TicketKey) && t in tickets
    requires k < |Reverse(Project(JoinForUser(tickets, events, userId)))|
    requires Reverse(Project(JoinForUser(tickets, events, userId)))[k].id == t.id
    ensures t.userId == userId
  {
    var j := JoinForUser(tickets, events, userId);
    var pr := Project(j);
    var n := |j| - 1 - k;
    assert Reverse(pr)[k] == pr[n] == Info(j[n]);
    var p := j[n];
    assert p.0 in tickets && p.0.userId == userId;
    var a :| 0 <= a < |tickets| && tickets[a] == p.0;
    var b :| 0 <= b < |tickets| && tickets[b] == t;
    AscendingKeyUnique(tickets, TicketKey, a, b);
  }

  /** A joined row survives `searchTickets` exactly when its event matches: the
      title or the location contains the query, within the inclusive bounds. */
  lemma SearchTicketsKeeps(db: Db, userId: int, query: Option<string>, minDate: int, maxDate: int,
                           p: JoinedRow)
    requires Consistent(db) && p in JoinForUser(db.tickets, db.events, userId)
    ensures Info(p) in SearchTickets(db, userId, query, minDate, maxDate) <==>
            TicketEventMatches(p.1, query, minDate, maxDate)
  {
    var j := JoinForUser(db.tickets, db.events, userId);
    var keep := TicketFilter(query, minDate, maxDate);
    if Info(p) in Reverse(Project(Filter(j, keep))) {
      var q := KeptRowOf(j, keep, Info(p));
      SameInfoSameRow(db.tickets, db.events, userId, q, p);
    }
    if keep(p) {
      KeptRowListed(j, keep, p);
    }
  }

  /** A row the filter keeps is listed. */
  lemma KeptRowListed(j: seq<JoinedRow>, keep: JoinedRow -> bool, p: JoinedRow)
    requires p in j && keep(p)
    ensures Info(p) in Reverse(Project(Filter(j, keep)))
  {
    var f := Filter(j, keep);
    var pr := Project(f);
    var k :| 0 <= k < |f| && f[k] == p;
    assert Reverse(pr)[|f| - 1 - k] == pr[k];
  }

  /** A listed entry comes from a row of the join the filter keeps. */
  lemma KeptRowOf(j: seq<JoinedRow>, keep: JoinedRow -> bool, i: TicketWithEventInfo) returns (q: JoinedRow)
    requires i in Reverse(Project(Filter(j, keep)))
    ensures q in j && keep(q) && Info(q) == i
  {
    var f := Filter(j, keep);
    var pr := Project(f);
    var rv := Reverse(pr);
    var k :| 0 <= k < |rv| && rv[k] == i;
    var n := |f| - 1 - k;
    assert rv[k] == pr[n] == Info(f[n]);
    q := f[n];
  }

  /** Two rows of the join with the same projection are the same row. */
  lemma SameInfoSameRow(tickets: seq<TicketRecord>, events: seq<EventRecord>, userId: int,
                        p: JoinedRow, q: JoinedRow)
    requires Ascending(tickets, TicketKey) && Ascending(events, EventKey)
    requires p in JoinForUser(tickets, events, userId) && q in JoinForUser(tickets, events, userId)
    requires Info(p) == Info(q)
    ensures p == q
  {
    var a :| 0 <= a < |tickets| && tickets[a] == q.0;
    var b :| 0 <= b < |tickets| && tickets[b] == p.0;
    AscendingKeyUnique(tickets, TicketKey, a, b);
    var c :| 0 <= c < |events| && events[c] == q.1;
    var d :| 0 <= d < |events| && events[d] == p.1;
    AscendingKeyUnique(events, EventKey, c, d);
  }
}
