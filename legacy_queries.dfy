/** The raw-SQL user, event and ticket operations of the legacy
    `DatabaseHelper`, over the same `Sqlite` file model as its schema. */
module LegacyQueries {
  import opened Strings
  import opened Tables
  import opened Sqlite
  import opened Entities

  // ---------------------------------------------------------------- cursor

  /** The value a cursor sees in a column the row lacks. */
  function Cell(row: Row, column: string): Value {
    if column in row then row[column] else Null
  }

  /** `Cursor.getString`: NULL reads as null and an INTEGER as its decimal text. */
  function GetString(v: Value): (s: Option<string>)
    ensures v.Text? ==> s == Some(v.s)
    ensures v.Null? ==> s.None?
  {
    match v
    case Null => None
    case Text(s) => Some(s)
    case Integer(i) => Some(IntToDecimal(i))
    case Real(_) => None
  }

  /** `Cursor.getInt` and `getLong`: NULL reads as 0 and a REAL is truncated toward zero. */
  function GetInt(v: Value): (i: int)
    ensures v.Integer? ==> i == v.i
    ensures v.Null? ==> i == 0
  {
    match v
    case Integer(i) => i
    case Real(r) => if r >= 0.0 then r.Floor else -((-r).Floor)
    case Null => 0
    case Text(_) => 0
  }

  /** `Cursor.getDouble`: NULL reads as 0.0. */
  function GetDouble(v: Value): (d: real)
    ensures v.Real? ==> d == v.r
    ensures v.Null? ==> d == 0.0
  {
    match v
    case Real(r) => r
    case Integer(i) => i as real
    case Null => 0.0
    case Text(_) => 0.0
  }

  /** The message of `getColumnIndexOrThrow` for a column the cursor lacks. */
  function ColumnMissing(column: string): string {
    "column '" + column + "' does not exist"
  }

  /** The first of `required` that the table lacks, as the error it raises. */
  function RequireColumns(t: Table, required: seq<string>): (r: Option<string>)
    ensures r.None? <==> forall k :: 0 <= k < |required| ==> required[k] in Names(t.columns)
  {
    match FirstMissing(required, Names(t.columns))
    case None => None
    case Some(c) => Some(ColumnMissing(c))
  }

  // ---------------------------------------------------------------- users

  /** A user as `loginUser` and `getAllUsers` build it from a row; a NULL
      text column gives a null field. */
  datatype LegacyUser = LegacyUser(
    id: int, firstName: Option<string>, lastName: Option<string>, email: Option<string>,
    password: Option<string>, role: Option<string>, phone: Option<string>)

  /** The columns both read through `getColumnIndexOrThrow`. */
  const USER_FIELDS: seq<string> := ["id", "first_name", "last_name", "email", "password", "role", "phone"]

  /** One row of `users`: an INTEGER id and stored text come through, NULL text
      and a column the row lacks give a null field. */
  function UserOfRow(row: Row): (u: LegacyUser)
    ensures Cell(row, "id").Integer? ==> u.id == Cell(row, "id").i
    ensures Cell(row, "id").Null? ==> u.id == 0
    ensures Cell(row, "email").Text? ==> u.email == Some(Cell(row, "email").s)
    ensures Cell(row, "password").Text? ==> u.password == Some(Cell(row, "password").s)
    ensures Cell(row, "role").Text? ==> u.role == Some(Cell(row, "role").s)
    ensures Cell(row, "first_name").Null? ==> u.firstName.None?
    ensures Cell(row, "last_name").Null? ==> u.lastName.None?
    ensures Cell(row, "phone").Null? ==> u.phone.None?
  {
    LegacyUser(GetInt(Cell(row, "id")), GetString(Cell(row, "first_name")), GetString(Cell(row, "last_name")),
      GetString(Cell(row, "email")), GetString(Cell(row, "password")), GetString(Cell(row, "role")),
      GetString(Cell(row, "phone")))
  }

  /** The values `registerUser` puts: every field but the id. */
  function UserValues(u: User): map<string, Value> {
    map["first_name" := Text(u.firstName), "last_name" := Text(u.lastName), "email" := Text(u.email),
        "password" := Text(u.password), "role" := Text(u.role), "phone" := Text(u.phone)]
  }

  /** `registerUser`: `insert` reports a failure as -1 instead of throwing. */
  method RegisterUser(db: SqliteFile, u: User) returns (ok: bool)
    modifies db
    ensures ok <==> Exec(old(db.tables), Insert("users", UserValues(u))).Ok?
    ensures ok ==> db.tables == Exec(old(db.tables), Insert("users", UserValues(u))).value
    ensures !ok ==> db.tables == old(db.tables)
  {
    var r := db.ExecSQL(Insert("users", UserValues(u)));
    ok := r.Ok?;
  }

  /** A row whose email and password are exactly the given strings. */
  function Credentials(email: string, password: string): Row -> bool {
    (row: Row) => Matching("email", Text(email))(row) && Matching("password", Text(password))(row)
  }

  /** `loginUser`: the first row, in table order, whose email and password
      both equal the arguments; an error where the query or a getter throws. */
  function LoginUser(ts: Database, email: string, password: string): (r: Result<Option<LegacyUser>>)
    ensures r.Ok? && r.value.Some? ==> r.value.value.email == Some(email) && r.value.value.password == Some(password)
    ensures r.Ok? && r.value.Some? ==> "users" in ts
    ensures r.Ok? && r.value.Some? ==>
      exists row :: row in ts["users"].rows && Credentials(email, password)(row) && r.value.value == UserOfRow(row)
  {
    if "users" !in ts then Err(NoSuchTable("users"))
    else
      var t := ts["users"];
      if "email" !in Names(t.columns) then Err("no such column: email")
      else if "password" !in Names(t.columns) then Err("no such column: password")
      else
        match FindFirst(t.rows, Credentials(email, password))
        case None => Ok(None)
        case Some(row) =>
          if RequireColumns(t, USER_FIELDS).Some? then Err(RequireColumns(t, USER_FIELDS).value)
          else CredentialsRead(row, email, password); Ok(Some(UserOfRow(row)))
  }

  /** The user read from a row with those credentials carries them. */
  lemma CredentialsRead(row: Row, email: string, password: string)
    requires Credentials(email, password)(row)
    ensures UserOfRow(row).email == Some(email) && UserOfRow(row).password == Some(password)
  {
    assert Matching("email", Text(email))(row) && Matching("password", Text(password))(row);
  }

  /** A table with every column the user getters read. */
  predicate UserColumns(ts: Database) {
    "users" in ts && forall k :: 0 <= k < |USER_FIELDS| ==> USER_FIELDS[k] in Names(ts["users"].columns)
  }

  /** Any row with matching credentials lets the login through. */
  lemma LoginFinds(ts: Database, email: string, password: string, k: nat)
    requires UserColumns(ts) && k < |ts["users"].rows|
    requires Credentials(email, password)(ts["users"].rows[k])
    ensures LoginUser(ts, email, password).Ok? && LoginUser(ts, email, password).value.Some?
  {
    assert USER_FIELDS[3] == "email" && USER_FIELDS[4] == "password";
    assert FindFirst(ts["users"].rows, Credentials(email, password)).Some?;
  }

  /** With no row matching both, the login yields no user. */
  lemma LoginRefuses(ts: Database, email: string, password: string)
    requires "users" in ts
    requires forall k :: 0 <= k < |ts["users"].rows| ==> !Credentials(email, password)(ts["users"].rows[k])
    ensures !(LoginUser(ts, email, password).Ok? && LoginUser(ts, email, password).value.Some?)
  {
  }

  /** An insert whose email equals a stored email fails under `UNIQUE(email)`. */
  lemma DuplicateEmailRefused(ts: Database, u: User, k: nat)
    requires "users" in ts && "email" in ts["users"].unique && k < |ts["users"].rows|
    requires "email" in ts["users"].rows[k] && ts["users"].rows[k]["email"] == Text(u.email)
    ensures Exec(ts, Insert("users", UserValues(u))).Err?
  {
    var t := ts["users"];
    var values := UserValues(u);
    if values.Keys <= Names(t.columns) {
      var row := NewRow(t, values);
      NewRowListed(t, values, "email");
      var rows := t.rows + [row];
      assert rows[k] == t.rows[k] && rows[|t.rows|] == row;
      assert !UniqueIn(rows, "email");
    }
  }

  /** A user that registers can log in with the same email and password. */
  lemma RegisterThenLogin(ts: Database, u: User)
    requires UserColumns(ts) && Exec(ts, Insert("users", UserValues(u))).Ok?
    ensures var after := Exec(ts, Insert("users", UserValues(u))).value;
      LoginUser(after, u.email, u.password).Ok? && LoginUser(after, u.email, u.password).value.Some?
  {
    var t := ts["users"];
    var values := UserValues(u);
    var row := NewRow(t, values);
    assert values.Keys <= Names(t.columns);
    NewRowListed(t, values, "email");
    NewRowListed(t, values, "password");
    var after := Exec(ts, Insert("users", values)).value;
    assert after["users"] == t.(rows := t.rows + [row]);
    assert after["users"].rows[|t.rows|] == row;
    assert UserColumns(after);
    assert Matching("email", Text(u.email))(row) && Matching("password", Text(u.password))(row);
    LoginFinds(after, u.email, u.password, |t.rows|);
  }

  /** `getAllUsers`: every row in table order; the getters throw only once
      there is a row to read. */
  function AllUsers(ts: Database): (r: Result<seq<LegacyUser>>)
    ensures r.Ok? ==> "users" in ts && |r.value| == |ts["users"].rows|
    ensures r.Ok? ==> forall k :: 0 <= k < |r.value| ==> r.value[k] == UserOfRow(ts["users"].rows[k])
    ensures r.Err? <==> "users" !in ts || (ts["users"].rows != [] && RequireColumns(ts["users"], USER_FIELDS).Some?)
  {
    if "users" !in ts then Err(NoSuchTable("users"))
    else
      var t := ts["users"];
      if t.rows == [] then Ok([])
      else if RequireColumns(t, USER_FIELDS).Some? then Err(RequireColumns(t, USER_FIELDS).value)
      else Ok(seq(|t.rows|, k requires 0 <= k < |t.rows| => UserOfRow(t.rows[k])))
  }

  // ---------------------------------------------------------------- deletes

  /** `delete(table, "id=?", id)`: every row with that rowid goes, the other
      rows stay in order, and no other table changes (no cascade). */
  lemma DeleteEffect(ts: Database, name: string, id: int)
    requires name in ts
    ensures Exec(ts, DeleteWhere(name, "id", Integer(id))).Ok?
    ensures var after := Exec(ts, DeleteWhere(name, "id", Integer(id))).value;
      && after.Keys == ts.Keys
      && (forall n :: n in ts && n != name ==> after[n] == ts[n])
      && (forall k :: 0 <= k < |after[name].rows| ==> !Matching("id", Integer(id))(after[name].rows[k]))
      && IsSubsequence(after[name].rows, ts[name].rows)
      && (forall k :: 0 <= k < |ts[name].rows| && !Matching("id", Integer(id))(ts[name].rows[k]) ==>
            ts[name].rows[k] in after[name].rows)
  {
    FilterSubsequence(ts[name].rows, NotMatching("id", Integer(id)));
  }

  /** `deleteUser`. */
  method DeleteUser(db: SqliteFile, userId: int) returns (r: Result<()>)
    modifies db
    ensures r.Ok? <==> "users" in old(db.tables)
    ensures r.Ok? ==> db.tables == Exec(old(db.tables), DeleteWhere("users", "id", Integer(userId))).value
    ensures r.Err? ==> db.tables == old(db.tables)
  {
    r := db.ExecSQL(DeleteWhere("users", "id", Integer(userId)));
  }

  /** `deleteEvent`; the event's tickets stay behind. */
  method DeleteEvent(db: SqliteFile, eventId: int) returns (r: Result<()>)
    modifies db
    ensures r.Ok? <==> "events" in old(db.tables)
    ensures r.Ok? ==> db.tables == Exec(old(db.tables), DeleteWhere("events", "id", Integer(eventId))).value
    ensures r.Err? ==> db.tables == old(db.tables)
  {
    r := db.ExecSQL(DeleteWhere("events", "id", Integer(eventId)));
  }

  // ---------------------------------------------------------------- events

  /** An event as `getAllEvents` builds it. */
  datatype LegacyEvent = LegacyEvent(
    id: int, title: Option<string>, date: Option<string>, location: Option<string>,
    description: Option<string>, status: string, ticketPrice: real, ticketQuantity: int,
    coverImagePath: string, galleryImagePaths: string, eventType: string)

  /** The columns read through `getColumnIndexOrThrow`; the rest are optional. */
  const EVENT_FIELDS: seq<string> := ["id", "title", "date", "location", "description"]

  /** A column the cursor has, read as a string, or `fallback` when it is
      absent or reads as null. */
  function StringOr(names: set<string>, row: Row, column: string, fallback: string): (s: string)
    ensures column !in names || Cell(row, column).Null? ==> s == fallback
    ensures column in names && Cell(row, column).Text? ==> s == Cell(row, column).s
  {
    if column in names && GetString(Cell(row, column)).Some? then GetString(Cell(row, column)).value else fallback
  }

  /** One row of `SELECT * FROM events`, with the defaults for optional
      columns that are missing or NULL. */
  function EventOfRow(names: set<string>, row: Row): (e: LegacyEvent)
    ensures Cell(row, "id").Integer? ==> e.id == Cell(row, "id").i
    ensures Cell(row, "title").Text? ==> e.title == Some(Cell(row, "title").s)
    ensures Cell(row, "date").Text? ==> e.date == Some(Cell(row, "date").s)
    ensures Cell(row, "location").Text? ==> e.location == Some(Cell(row, "location").s)
    ensures Cell(row, "title").Null? ==> e.title.None?
    ensures Cell(row, "description").Null? ==> e.description.None?
    ensures "ticket_price" !in names ==> e.ticketPrice == 0.0
    ensures "ticket_quantity" !in names ==> e.ticketQuantity == 0
  {
    LegacyEvent(
      GetInt(Cell(row, "id")), GetString(Cell(row, "title")), GetString(Cell(row, "date")),
      GetString(Cell(row, "location")), GetString(Cell(row, "description")),
      StringOr(names, row, "status", "Active"),
      if "ticket_price" in names then GetDouble(Cell(row, "ticket_price")) else 0.0,
      if "ticket_quantity" in names then GetInt(Cell(row, "ticket_quantity")) else 0,
      StringOr(names, row, "cover_image_path", ""),
      StringOr(names, row, "gallery_image_paths", ""),
      StringOr(names, row, "event_type", "Other"))
  }

  /** Missing or NULL optional columns give the documented defaults; stored
      text and numbers come through unchanged. */
  lemma EventDefaults(names: set<string>, row: Row)
    ensures var e := EventOfRow(names, row);
      && (("status" !in names || Cell(row, "status").Null?) ==> e.status == "Active")
      && (("ticket_price" !in names || Cell(row, "ticket_price").Null?) ==> e.ticketPrice == 0.0)
      && (("ticket_quantity" !in names || Cell(row, "ticket_quantity").Null?) ==> e.ticketQuantity == 0)
      && (("cover_image_path" !in names || Cell(row, "cover_image_path").Null?) ==> e.coverImagePath == "")
      && (("gallery_image_paths" !in names || Cell(row, "gallery_image_paths").Null?) ==> e.galleryImagePaths == "")
      && (("event_type" !in names || Cell(row, "event_type").Null?) ==> e.eventType == "Other")
  {
    StringOrFallback(names, row, "status", "Active");
    StringOrFallback(names, row, "cover_image_path", "");
    StringOrFallback(names, row, "gallery_image_paths", "");
    StringOrFallback(names, row, "event_type", "Other");
  }

  lemma StringOrFallback(names: set<string>, row: Row, column: string, fallback: string)
    ensures column !in names || Cell(row, column).Null? ==> StringOr(names, row, column, fallback) == fallback
  {
  }

  /** Stored values of present columns come through. */
  lemma EventStoredValues(names: set<string>, row: Row)
    ensures var e := EventOfRow(names, row);
      && ("status" in names && Cell(row, "status").Text? ==> e.status == Cell(row, "status").s)
      && ("ticket_price" in names && Cell(row, "ticket_price").Real? ==> e.ticketPrice == Cell(row, "ticket_price").r)
      && ("ticket_quantity" in names && Cell(row, "ticket_quantity").Integer? ==> e.ticketQuantity == Cell(row, "ticket_quantity").i)
      && ("event_type" in names && Cell(row, "event_type").Text? ==> e.eventType == Cell(row, "event_type").s)
  {
    StringOrStored(names, row, "status", "Active");
    StringOrStored(names, row, "event_type", "Other");
  }

  lemma StringOrStored(names: set<string>, row: Row, column: string, fallback: string)
    ensures column in names && Cell(row, column).Text? ==> StringOr(names, row, column, fallback) == Cell(row, column).s
  {
  }

  /** `getAllEvents`: one event per row, in table order. */
  function AllEvents(ts: Database): (r: Result<seq<LegacyEvent>>)
    ensures r.Ok? ==> "events" in ts && |r.value| == |ts["events"].rows|
    ensures r.Err? <==> "events" !in ts || (ts["events"].rows != [] && RequireColumns(ts["events"], EVENT_FIELDS).Some?)
  {
    if "events" !in ts then Err(NoSuchTable("events"))
    else
      var t := ts["events"];
      if t.rows == [] then Ok([])
      else if RequireColumns(t, EVENT_FIELDS).Some? then Err(RequireColumns(t, EVENT_FIELDS).value)
      else Ok(seq(|t.rows|, k requires 0 <= k < |t.rows| => EventOfRow(Names(t.columns), t.rows[k])))
  }

  /** `getAllEvents` as the cursor loop runs it: the required columns are
      looked up inside the loop, so an empty table reads fine without them. */
  method GetAllEvents(db: SqliteFile) returns (r: Result<seq<LegacyEvent>>)
    ensures r == AllEvents(db.tables)
    ensures r.Ok? ==> "events" in db.tables && forall k :: 0 <= k < |r.value| ==>
      r.value[k] == EventOfRow(Names(db.tables["events"].columns), db.tables["events"].rows[k])
  {
    if "events" !in db.tables {
      return Err(NoSuchTable("events"));
    }
    var t := db.tables["events"];
    var names := Names(t.columns);
    var list: seq<LegacyEvent> := [];
    var k := 0;
    while k < |t.rows|
      invariant 0 <= k <= |t.rows|
      invariant k > 0 ==> RequireColumns(t, EVENT_FIELDS).None?
      invariant |list| == k && forall i :: 0 <= i < k ==> list[i] == EventOfRow(names, t.rows[i])
    {
      var missing := RequireColumns(t, EVENT_FIELDS);
      if missing.Some? {
        return Err(missing.value);
      }
      list := list + [EventOfRow(names, t.rows[k])];
      k := k + 1;
    }
    assert list == seq(|t.rows|, i requires 0 <= i < |t.rows| => EventOfRow(names, t.rows[i]));
    r := Ok(list);
  }

  // ---------------------------------------------------------------- tickets

  /** Who a ticket is registered to: the legacy integer user id, or the
      account uid. */
  datatype TicketOwner = LegacyId(userId: int) | Uid(uid: string)

  function OwnerColumn(owner: TicketOwner): string {
    match owner
    case LegacyId(_) => "user_id"
    case Uid(_) => "user_uid"
  }

  function OwnerValue(owner: TicketOwner): Value {
    match owner
    case LegacyId(id) => Integer(id)
    case Uid(uid) => Text(uid)
  }

  /** A null code is stored as NULL. */
  function CodeValue(code: Option<string>): Value {
    match code
    case None => Null
    case Some(c) => Text(c)
  }

  /** The values `registerTicket` puts; the timestamp is the caller's or the clock's. */
  function TicketValues(owner: TicketOwner, eventId: int, code: Option<string>, timestamp: int): (r: map<string, Value>)
    ensures owner.LegacyId? ==> r.Keys == {"user_id", "event_id", "unique_code", "purchase_timestamp"} && r["user_id"] == Integer(owner.userId)
    ensures owner.Uid? ==> r.Keys == {"user_uid", "event_id", "unique_code", "purchase_timestamp"} && r["user_uid"] == Text(owner.uid)
    ensures r["event_id"] == Integer(eventId) && r["purchase_timestamp"] == Integer(timestamp)
    ensures code.None? <==> r["unique_code"] == Null
    ensures code.Some? ==> r["unique_code"] == Text(code.value)
  {
    map[OwnerColumn(owner) := OwnerValue(owner), "event_id" := Integer(eventId),
        "unique_code" := CodeValue(code), "purchase_timestamp" := Integer(timestamp)]
  }

  /** `registerTicket`, all four overloads. */
  method RegisterTicket(db: SqliteFile, owner: TicketOwner, eventId: int, code: Option<string>, timestamp: int)
    returns (ok: bool)
    modifies db
    ensures ok <==> Exec(old(db.tables), Insert("tickets", TicketValues(owner, eventId, code, timestamp))).Ok?
    ensures ok ==> db.tables == Exec(old(db.tables), Insert("tickets", TicketValues(owner, eventId, code, timestamp))).value
    ensures !ok ==> db.tables == old(db.tables)
  {
    var r := db.ExecSQL(Insert("tickets", TicketValues(owner, eventId, code, timestamp)));
    ok := r.Ok?;
  }

  /** The legacy `tickets` table constrains only its rowid, so a ticket goes in
      whatever codes are already stored, a duplicate included. */
  lemma DuplicateCodeAccepted(ts: Database, owner: TicketOwner, eventId: int, code: Option<string>, timestamp: int)
    requires "tickets" in ts && ts["tickets"].unique == ["id"] && UniqueIn(ts["tickets"].rows, "id")
    requires "id" in Names(ts["tickets"].columns)
    requires TicketValues(owner, eventId, code, timestamp).Keys <= Names(ts["tickets"].columns)
    ensures var after := Exec(ts, Insert("tickets", TicketValues(owner, eventId, code, timestamp)));
      && after.Ok?
      && after.value["tickets"].rows[..|ts["tickets"].rows|] == ts["tickets"].rows
      && |after.value["tickets"].rows| == |ts["tickets"].rows| + 1
      && after.value["tickets"].rows[|ts["tickets"].rows|]["unique_code"] == CodeValue(code)
  {
    var t := ts["tickets"];
    var values := TicketValues(owner, eventId, code, timestamp);
    assert "id" !in values;
    RowidInsert(ts, "tickets", values);
    NewRowListed(t, values, "unique_code");
    var rows := t.rows + [NewRow(t, values)];
    assert rows[..|t.rows|] == t.rows;
  }

  /** `models.Ticket`, the ticket the screens show; `getTicketsForUser`
      builds it from a joined row. */
  datatype Ticket = Ticket(
    userId: string, eventId: string, uniqueCode: Option<string>, purchaseTimestamp: int,
    eventTitle: Option<string>, eventDate: Option<string>, eventLocation: Option<string>)

  /** A ticket row with the event row it joins. */
  type Joined = (Row, Row)

  /** The events whose rowid equals the ticket's `event_id`. */
  function EventsOf(ticket: Row, events: seq<Row>): seq<Row> {
    Filter(events, Matching("id", Cell(ticket, "event_id")))
  }

  /** `tickets t JOIN events e ON t.event_id = e.id WHERE t.<owner> = ?`, in
      ticket order. */
  function OwnedJoin(tickets: seq<Row>, events: seq<Row>, owner: TicketOwner): (r: seq<Joined>)
    ensures forall k :: 0 <= k < |r| ==> Matching(OwnerColumn(owner), OwnerValue(owner))(r[k].0)
    ensures forall k :: 0 <= k < |r| ==> r[k].0 in tickets && Matching("id", Cell(r[k].0, "event_id"))(r[k].1) && r[k].1 in events
    decreases |tickets|
  {
    if tickets == [] then []
    else
      var t := tickets[0];
      var rest := OwnedJoin(tickets[1..], events, owner);
      if Matching(OwnerColumn(owner), OwnerValue(owner))(t) then
        var es := EventsOf(t, events);
        assert forall k :: 0 <= k < |es| ==> es[k] in events;
        seq(|es|, k requires 0 <= k < |es| => (t, es[k])) + rest
      else rest
  }

  /** Every owned ticket with a matching event is in the join. */
  lemma {:induction false} OwnedJoinComplete(tickets: seq<Row>, events: seq<Row>, owner: TicketOwner, i: nat, j: nat)
    requires i < |tickets| && j < |events|
    requires Matching(OwnerColumn(owner), OwnerValue(owner))(tickets[i])
    requires Matching("id", Cell(tickets[i], "event_id"))(events[j])
    ensures (tickets[i], events[j]) in OwnedJoin(tickets, events, owner)
    decreases |tickets|
  {
    if i == 0 {
      var t := tickets[0];
      var es := EventsOf(t, events);
      assert events[j] in es;
      var m :| 0 <= m < |es| && es[m] == events[j];
      var rest := OwnedJoin(tickets[1..], events, owner);
      var front := seq(|es|, k requires 0 <= k < |es| => (t, es[k]));
      assert OwnedJoin(tickets, events, owner) == front + rest;
      assert (front + rest)[m] == (t, events[j]);
    } else {
      OwnedJoinComplete(tickets[1..], events, owner, i - 1, j);
      var t := tickets[0];
      var rest := OwnedJoin(tickets[1..], events, owner);
      if Matching(OwnerColumn(owner), OwnerValue(owner))(t) {
        var es := EventsOf(t, events);
        var front := seq(|es|, k requires 0 <= k < |es| => (t, es[k]));
        assert OwnedJoin(tickets, events, owner) == front + rest;
      }
    }
  }

  /** `ORDER BY t.purchase_timestamp DESC` as an ascending sort on the negated
      timestamp; ties keep the join order. */
  function NewestFirstKey(p: Joined): int {
    -GetInt(Cell(p.0, "purchase_timestamp"))
  }

  function TicketOfJoined(p: Joined): Ticket {
    Ticket(IntToDecimal(GetInt(Cell(p.0, "user_id"))), IntToDecimal(GetInt(Cell(p.0, "event_id"))),
      GetString(Cell(p.0, "unique_code")), GetInt(Cell(p.0, "purchase_timestamp")),
      GetString(Cell(p.1, "title")), GetString(Cell(p.1, "date")), GetString(Cell(p.1, "location")))
  }

  /** The ticket columns the query names, and the owner column it filters on. */
  function TicketQueryColumns(owner: TicketOwner): seq<string> {
    ["id", "user_id", "event_id", "unique_code", "purchase_timestamp", OwnerColumn(owner)]
  }

  const EVENT_QUERY_COLUMNS: seq<string> := ["title", "date", "location", "id"]

  /** SQLite's error for the query when a table or a column it names is missing. */
  function QueryError(ts: Database, owner: TicketOwner): (e: Option<string>)
    ensures e.None? <==>
      && "tickets" in ts && "events" in ts
      && (forall k :: 0 <= k < |TicketQueryColumns(owner)| ==> TicketQueryColumns(owner)[k] in Names(ts["tickets"].columns))
      && (forall k :: 0 <= k < |EVENT_QUERY_COLUMNS| ==> EVENT_QUERY_COLUMNS[k] in Names(ts["events"].columns))
  {
    if "tickets" !in ts then Some(NoSuchTable("tickets"))
    else if "events" !in ts then Some(NoSuchTable("events"))
    else
      match FirstMissing(TicketQueryColumns(owner), Names(ts["tickets"].columns))
      case Some(c) => Some("no such column: t." + c)
      case None =>
        match FirstMissing(EVENT_QUERY_COLUMNS, Names(ts["events"].columns))
        case Some(c) => Some("no such column: e." + c)
        case None => None
  }

  /** The cursor rows of `getTicketsForUser`: the owned joined rows, newest
      purchase first. */
  function CursorRows(ts: Database, owner: TicketOwner): (r: Result<seq<Joined>>)
    ensures r.Err? <==> QueryError(ts, owner).Some?
    ensures r.Ok? ==> SortedBy(r.value, NewestFirstKey)
    ensures r.Ok? ==> "tickets" in ts && "events" in ts
    ensures r.Ok? ==> multiset(r.value) == multiset(OwnedJoin(ts["tickets"].rows, ts["events"].rows, owner))
  {
    match QueryError(ts, owner)
    case Some(e) => Err(e)
    case None => Ok(SortBy(OwnedJoin(ts["tickets"].rows, ts["events"].rows, owner), NewestFirstKey))
  }

  /** The cursor loop of `getTicketsForUser`: one ticket per joined row, in
      cursor order. */
  method ReadTickets(rows: seq<Joined>) returns (list: seq<Ticket>)
    ensures |list| == |rows|
    ensures forall k :: 0 <= k < |rows| ==> list[k] == TicketOfJoined(rows[k])
  {
    list := [];
    var k := 0;
    while k < |rows|
      invariant 0 <= k <= |rows|
      invariant |list| == k && forall i :: 0 <= i < k ==> list[i] == TicketOfJoined(rows[i])
    {
      list := list + [TicketOfJoined(rows[k])];
      k := k + 1;
    }
  }

  /** `getTicketsForUser`, both overloads. The ticket's `userId` is read from
      the integer `user_id` column in both. */
  method GetTicketsForUser(db: SqliteFile, owner: TicketOwner) returns (r: Result<seq<Ticket>>)
    ensures r.Err? <==> QueryError(db.tables, owner).Some?
    ensures r.Err? ==> r.error == QueryError(db.tables, owner).value
    ensures r.Ok? ==> |r.value| == |CursorRows(db.tables, owner).value|
    ensures r.Ok? ==> forall k :: 0 <= k < |r.value| ==> r.value[k] == TicketOfJoined(CursorRows(db.tables, owner).value[k])
  {
    var cursor := CursorRows(db.tables, owner);
    if cursor.Err? {
      return Err(QueryError(db.tables, owner).value);
    }
    var list := ReadTickets(cursor.value);
    r := Ok(list);
  }

  /** The tickets come newest purchase first. */
  lemma TicketsNewestFirst(ts: Database, owner: TicketOwner, tickets: seq<Ticket>)
    requires CursorRows(ts, owner).Ok?
    requires |tickets| == |CursorRows(ts, owner).value|
    requires forall k :: 0 <= k < |tickets| ==> tickets[k] == TicketOfJoined(CursorRows(ts, owner).value[k])
    ensures forall i, j :: 0 <= i < j < |tickets| ==> tickets[i].purchaseTimestamp >= tickets[j].purchaseTimestamp
  {
    var rows := CursorRows(ts, owner).value;
    forall i, j | 0 <= i < j < |tickets| ensures tickets[i].purchaseTimestamp >= tickets[j].purchaseTimestamp {
      assert NewestFirstKey(rows[i]) <= NewestFirstKey(rows[j]);
    }
  }

  /** The cursor holds exactly the owner's tickets joined with their events:
      each row belongs to the owner, and every owned ticket with an event is there. */
  lemma CursorOwned(ts: Database, owner: TicketOwner, i: nat, j: nat)
    requires CursorRows(ts, owner).Ok?
    requires i < |ts["tickets"].rows| && j < |ts["events"].rows|
    requires Matching(OwnerColumn(owner), OwnerValue(owner))(ts["tickets"].rows[i])
    requires Matching("id", Cell(ts["tickets"].rows[i], "event_id"))(ts["events"].rows[j])
    ensures (ts["tickets"].rows[i], ts["events"].rows[j]) in CursorRows(ts, owner).value
  {
    var join := OwnedJoin(ts["tickets"].rows, ts["events"].rows, owner);
    OwnedJoinComplete(ts["tickets"].rows, ts["events"].rows, owner, i, j);
    assert (ts["tickets"].rows[i], ts["events"].rows[j]) in multiset(join);
  }

  /** A ticket registered by uid leaves `user_id` NULL, so it reads back with
      user id "0". */
  lemma UidTicketUserId(p: Joined)
    requires "user_id" in p.0 && p.0["user_id"] == Null
    ensures TicketOfJoined(p).userId == "0"
  {
  }
}
