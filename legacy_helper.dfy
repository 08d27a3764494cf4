/** The legacy `DatabaseHelper`: a plain `SQLiteOpenHelper` over the file
    "EventHive.db" at schema version 6, with hand-written upgrade blocks and
    raw-SQL user, event and ticket operations. It shares the `Sqlite` file
    model with the Room migrations. */
module LegacyDatabase {
  import opened Strings
  import opened Tables
  import opened Sqlite
  import Room = RoomMigrations

  const DATABASE_VERSION: int := 6

  // ---------------------------------------------------------------- schema

  /** The `users` columns, the same as Room's. */
  const USER_COLUMNS: seq<Column> := Room.USER_COLUMNS

  /** The `events` columns that predate version 4. */
  const EVENT_COLUMNS_V3: seq<Column> := [
    Column("id", Null), Column("title", Null), Column("date", Null), Column("location", Null),
    Column("description", Null), Column("image_res_id", Null), Column("status", Text("Active"))]

  /** The `events` columns the v4 block adds, in its order. */
  const EVENT_COLUMNS_V4: seq<Column> := [
    Column("ticket_price", Real(0.0)), Column("ticket_quantity", Integer(0)),
    Column("cover_image_path", Null), Column("gallery_image_paths", Null), Column("event_type", Text("Other"))]

  const EVENT_COLUMNS: seq<Column> := [
    Column("id", Null), Column("title", Null), Column("date", Null), Column("location", Null),
    Column("description", Null), Column("image_res_id", Null), Column("status", Text("Active")),
    Column("ticket_price", Real(0.0)), Column("ticket_quantity", Integer(0)),
    Column("cover_image_path", Null), Column("gallery_image_paths", Null), Column("event_type", Text("Other"))]

  /** `onCreate` declares the old columns and then the new ones, in the same order. */
  lemma EventColumnsSplit()
    ensures EVENT_COLUMNS == EVENT_COLUMNS_V3 + EVENT_COLUMNS_V4
  {
  }

  const PURCHASE_TIMESTAMP: Column := Column("purchase_timestamp", Integer(0))
  const USER_UID: Column := Column("user_uid", Null)

  const TICKET_COLUMNS: seq<Column> := [
    Column("id", Null), Column("user_id", Null), USER_UID, Column("event_id", Null),
    Column("unique_code", Null), PURCHASE_TIMESTAMP]

  /** The `tickets` columns that predate version 4. */
  const TICKET_COLUMNS_V3: seq<Column> := [
    Column("id", Null), Column("user_id", Null), Column("event_id", Null), Column("unique_code", Null)]

  const NOTIFICATION_COLUMNS: seq<Column> := [
    Column("id", Null), Column("title", Null), Column("message", Null), Column("timestamp", Null),
    Column("is_read", Integer(0)), Column("user_id", Null), USER_UID, Column("related_event_id", Integer(0))]

  /** The `notifications` table as the v5 block creates it: without `user_uid`. */
  const NOTIFICATION_COLUMNS_V5: seq<Column> := [
    Column("id", Null), Column("title", Null), Column("message", Null), Column("timestamp", Null),
    Column("is_read", Integer(0)), Column("user_id", Null), Column("related_event_id", Integer(0))]

  /** The four CREATE TABLE statements of `onCreate`; only `users.email` is
      UNIQUE besides the primary keys. */
  const CREATE_TABLES: seq<Stmt> := [
    CreateTable("users", USER_COLUMNS, ["id", "email"], false),
    CreateTable("events", EVENT_COLUMNS, ["id"], false),
    CreateTable("tickets", TICKET_COLUMNS, ["id"], false),
    CreateTable("notifications", NOTIFICATION_COLUMNS, ["id"], false)]

  /** The values `insertDummyEvents` lists for one event; the image resource
      is 0 for both. */
  function DummyEvent(title: string, date: string, location: string, description: string): map<string, Value> {
    map["title" := Text(title), "date" := Text(date), "location" := Text(location),
        "description" := Text(description), "image_res_id" := Integer(0)]
  }

  const WAVEFEST_VALUES: map<string, Value> := DummyEvent("WaveFest - Feel The Winter", "12 Dec - 10 PM",
    "Bashundhara R/A, Dhaka", "A music event bringing people together with electric energy.")

  const TECH_SUMMIT_VALUES: map<string, Value> := DummyEvent("Tech Summit 2024", "15 Jan - 9 AM",
    "ICCB, Dhaka", "The biggest tech conference in the city.")

  /** `insertDefaultUser` puts the same six values as Room's seed callback. */
  const ADMIN_VALUES: map<string, Value> := Room.ADMIN_VALUES

  /** The statements of `onCreate` that go through `execSQL` and so throw on failure. */
  const ON_CREATE_SQL: seq<Stmt> := CREATE_TABLES + DUMMY_EVENTS

  /** `insertDummyEvents`, through `execSQL`. */
  const DUMMY_EVENTS: seq<Stmt> := [Insert("events", WAVEFEST_VALUES), Insert("events", TECH_SUMMIT_VALUES)]

  /** `insertDefaultUser`, through `insert`, which reports a failure instead of throwing. */
  const DEFAULT_USER: Stmt := Insert("users", ADMIN_VALUES)

  // ---------------------------------------------------------------- onCreate

  /** `onCreate`, inside the transaction `SQLiteOpenHelper` opens around it: a
      throwing statement rolls the file back and escapes; the admin insert
      cannot throw. */
  method OnCreate(db: SqliteFile) returns (r: Result<()>)
    modifies db
    ensures r.Ok? <==> RunAll(old(db.tables), ON_CREATE_SQL).Ok?
    ensures r.Err? ==> db.tables == old(db.tables)
    ensures r.Ok? ==> db.tables == AfterInsert(RunAll(old(db.tables), ON_CREATE_SQL).value, DEFAULT_USER)
  {
    r := InTransaction(db, ON_CREATE_SQL);
    if r.Ok? {
      var _ := db.ExecSQL(DEFAULT_USER);
    }
  }

  /** The tables after a statement whose failure is ignored. */
  function AfterInsert(ts: Database, s: Stmt): Database {
    match Exec(ts, s)
    case Ok(next) => next
    case Err(_) => ts
  }

  /** The four tables `onCreate` creates, empty. */
  function Created(ts: Database): Database {
    ts["users" := Table(USER_COLUMNS, ["id", "email"], [])]
      ["events" := Table(EVENT_COLUMNS, ["id"], [])]
      ["tickets" := Table(TICKET_COLUMNS, ["id"], [])]
      ["notifications" := Table(NOTIFICATION_COLUMNS, ["id"], [])]
  }

  predicate NoLegacyTables(ts: Database) {
    "users" !in ts && "events" !in ts && "tickets" !in ts && "notifications" !in ts
  }

  lemma CreateTablesRun(ts: Database)
    requires NoLegacyTables(ts)
    ensures RunAll(ts, CREATE_TABLES) == Ok(Created(ts))
  {
    var t1 := ts["users" := Table(USER_COLUMNS, ["id", "email"], [])];
    var t2 := t1["events" := Table(EVENT_COLUMNS, ["id"], [])];
    var t3 := t2["tickets" := Table(TICKET_COLUMNS, ["id"], [])];
    var t4 := t3["notifications" := Table(NOTIFICATION_COLUMNS, ["id"], [])];
    var l := CREATE_TABLES;
    assert l[1..][1..][1..] == [l[3]];
    RunAllStep(ts, l, t1);
    RunAllStep(t1, l[1..], t2);
    RunAllStep(t2, l[1..][1..], t3);
    RunOne(t3, l[3]);
  }

  /** An event insert leaves the rowid and the four defaulted columns to the table. */
  predicate LeavesDefaults(values: map<string, Value>) {
    && "id" !in values && "status" !in values && "ticket_price" !in values
    && "ticket_quantity" !in values && "event_type" !in values
  }

  /** The columns an event insert lists exist, and it leaves the defaults alone. */
  predicate SeedEventValues(values: map<string, Value>) {
    values.Keys <= Names(EVENT_COLUMNS) && LeavesDefaults(values)
  }

  lemma DummyEventKeys(title: string, date: string, location: string, description: string)
    ensures DummyEvent(title, date, location, description).Keys <= Names(EVENT_COLUMNS)
  {
    NameListed(EVENT_COLUMNS, 1);
    NameListed(EVENT_COLUMNS, 2);
    NameListed(EVENT_COLUMNS, 3);
    NameListed(EVENT_COLUMNS, 4);
    NameListed(EVENT_COLUMNS, 5);
  }

  lemma WaveFestValues()
    ensures SeedEventValues(WAVEFEST_VALUES)
  {
    DummyEventKeys("WaveFest - Feel The Winter", "12 Dec - 10 PM",
      "Bashundhara R/A, Dhaka", "A music event bringing people together with electric energy.");
  }

  lemma TechSummitValues()
    ensures SeedEventValues(TECH_SUMMIT_VALUES)
  {
    DummyEventKeys("Tech Summit 2024", "15 Jan - 9 AM", "ICCB, Dhaka", "The biggest tech conference in the city.");
  }

  lemma StatusDefault()
    ensures "status" in Names(EVENT_COLUMNS) && Default(EVENT_COLUMNS, "status") == Text("Active")
  {
    NameListed(EVENT_COLUMNS, 6);
    DefaultAt(EVENT_COLUMNS, 6);
  }

  lemma PriceDefault()
    ensures "ticket_price" in Names(EVENT_COLUMNS) && Default(EVENT_COLUMNS, "ticket_price") == Real(0.0)
  {
    NameListed(EVENT_COLUMNS, 7);
    DefaultAt(EVENT_COLUMNS, 7);
  }

  lemma QuantityDefault()
    ensures "ticket_quantity" in Names(EVENT_COLUMNS) && Default(EVENT_COLUMNS, "ticket_quantity") == Integer(0)
  {
    NameListed(EVENT_COLUMNS, 8);
    DefaultAt(EVENT_COLUMNS, 8);
  }

  lemma TypeDefault()
    ensures "event_type" in Names(EVENT_COLUMNS) && Default(EVENT_COLUMNS, "event_type") == Text("Other")
  {
    NameListed(EVENT_COLUMNS, 11);
    DefaultAt(EVENT_COLUMNS, 11);
  }

  /** Columns with a rowid and the `events` defaults for status, price, quantity and type. */
  predicate EventDefaults(cols: seq<Column>) {
    && "id" in Names(cols)
    && "status" in Names(cols) && Default(cols, "status") == Text("Active")
    && "ticket_price" in Names(cols) && Default(cols, "ticket_price") == Real(0.0)
    && "ticket_quantity" in Names(cols) && Default(cols, "ticket_quantity") == Integer(0)
    && "event_type" in Names(cols) && Default(cols, "event_type") == Text("Other")
  }

  /** The `events` table declares the status, price, quantity and type defaults. */
  lemma EventColumnsDefaults()
    ensures EventDefaults(EVENT_COLUMNS)
  {
    NameListed(EVENT_COLUMNS, 0);
    StatusDefault();
    PriceDefault();
    QuantityDefault();
    TypeDefault();
  }

  /** A seeded event: its rowid, and the defaults for what the insert leaves out. */
  predicate IsSeededEvent(e: Row, id: int) {
    && "id" in e && e["id"] == Integer(id)
    && "status" in e && e["status"] == Text("Active")
    && "ticket_price" in e && e["ticket_price"] == Real(0.0)
    && "ticket_quantity" in e && e["ticket_quantity"] == Integer(0)
    && "event_type" in e && e["event_type"] == Text("Other")
  }

  /** An event inserted by `insertDummyEvents` gets the next rowid and the
      declared defaults. */
  lemma SeedEventRow(t: Table, values: map<string, Value>)
    requires EventDefaults(t.columns) && LeavesDefaults(values)
    ensures IsSeededEvent(NewRow(t, values), MaxId(t.rows) + 1)
  {
    NewRowId(t, values);
    NewRowDefault(t, values, "status");
    NewRowDefault(t, values, "ticket_price");
    NewRowDefault(t, values, "ticket_quantity");
    NewRowDefault(t, values, "event_type");
  }

  /** The event inserted after a row with rowid 1 takes rowid 2. */
  lemma SecondRowSeeded(e: Table, w: Row, values: map<string, Value>)
    requires EventDefaults(e.columns) && "id" in w && w["id"] == Integer(1) && LeavesDefaults(values)
    ensures IsSeededEvent(NewRow(e.(rows := [w]), values), 2)
  {
    MaxIdOne(w, 1);
    SeedEventRow(e.(rows := [w]), values);
  }

  /** Two events inserted into an empty table carry rowids 1 and 2 and the declared defaults. */
  lemma TwoRowsSeeded(e: Table, first: map<string, Value>, second: map<string, Value>)
    requires EventDefaults(e.columns) && e.rows == [] && LeavesDefaults(first) && LeavesDefaults(second)
    ensures IsSeededEvent(TwoRows(e, first, second)[0], 1) && IsSeededEvent(TwoRows(e, first, second)[1], 2)
  {
    SeedEventRow(e, first);
    SecondRowSeeded(e, NewRow(e, first), second);
  }

  /** The four tables with the two dummy events in `events`. */
  function OnCreateSql(ts: Database): (r: Database)
    ensures r.Keys == ts.Keys + {"users", "events", "tickets", "notifications"}
    ensures r["events"].columns == EVENT_COLUMNS && |r["events"].rows| == 2
    ensures r["users"].rows == [] && r["tickets"].rows == []
  {
    var c := Created(ts);
    c["events" := c["events"].(rows := TwoRows(c["events"], WAVEFEST_VALUES, TECH_SUMMIT_VALUES))]
  }

  /** The `execSQL` part of `onCreate` runs through on a file without the four tables. */
  lemma OnCreateSqlRuns(ts: Database)
    requires NoLegacyTables(ts)
    ensures RunAll(ts, ON_CREATE_SQL) == Ok(OnCreateSql(ts))
  {
    var c := Created(ts);
    CreateTablesRun(ts);
    WaveFestValues();
    TechSummitValues();
    NameListed(EVENT_COLUMNS, 0);
    TwoRowidInserts(c, "events", WAVEFEST_VALUES, TECH_SUMMIT_VALUES);
    RunThen(ts, CREATE_TABLES, DUMMY_EVENTS, c, OnCreateSql(ts));
  }

  /** What it leaves besides `events`: the empty `users`, `tickets` and
      `notifications` tables, and every other table as it was. */
  lemma OnCreateSqlTables(ts: Database)
    ensures var after := OnCreateSql(ts);
      && after.Keys == ts.Keys + {"users", "events", "tickets", "notifications"}
      && (forall n :: n in ts && n !in {"users", "events", "tickets", "notifications"} ==> after[n] == ts[n])
      && after["users"] == Table(USER_COLUMNS, ["id", "email"], [])
      && after["tickets"] == Table(TICKET_COLUMNS, ["id"], [])
      && after["notifications"] == Table(NOTIFICATION_COLUMNS, ["id"], [])
  {
  }

  /** `events` holds the two dummy events, with rowids 1 and 2. */
  lemma OnCreateSqlEvents(ts: Database)
    ensures var events := OnCreateSql(ts)["events"];
      && events.columns == EVENT_COLUMNS && |events.rows| == 2
      && IsSeededEvent(events.rows[0], 1) && IsSeededEvent(events.rows[1], 2)
  {
    var e := Table(EVENT_COLUMNS, ["id"], []);
    assert OnCreateSql(ts)["events"] == e.(rows := TwoRows(e, WAVEFEST_VALUES, TECH_SUMMIT_VALUES));
    WaveFestValues();
    TechSummitValues();
    EventColumnsDefaults();
    TwoRowsSeeded(e, WAVEFEST_VALUES, TECH_SUMMIT_VALUES);
  }

  /** The admin row goes into the empty `users` table as rowid 1. */
  lemma DefaultUserInserted(ts: Database)
    requires "users" in ts && ts["users"] == Table(USER_COLUMNS, ["id", "email"], [])
    ensures var after := AfterInsert(ts, DEFAULT_USER);
      && after.Keys == ts.Keys && (forall n :: n in ts && n != "users" ==> after[n] == ts[n])
      && |after["users"].rows| == 1 && Room.IsSeededAdmin(after["users"].rows[0])
  {
    Room.InsertAdmin(ts);
    Room.AdminRowFields(ts["users"]);
  }

  // ---------------------------------------------------------------- onUpgrade

  /** `ALTER TABLE name ADD COLUMN` for each column, in order. */
  function AddColumns(name: string, cols: seq<Column>): (stmts: seq<Stmt>)
    ensures |stmts| == |cols|
    ensures forall k :: 0 <= k < |cols| ==> stmts[k] == AddColumn(name, cols[k])
  {
    seq(|cols|, k requires 0 <= k < |cols| => AddColumn(name, cols[k]))
  }

  /** The upgrade blocks of `onUpgrade`, each inside its own try/catch. */
  const V4_BLOCK: seq<Stmt> := AddColumns("events", EVENT_COLUMNS_V4) + [AddColumn("tickets", PURCHASE_TIMESTAMP)]
  const V5_BLOCK: seq<Stmt> := [CreateTable("notifications", NOTIFICATION_COLUMNS_V5, ["id"], false)]
  const V6_BLOCK: seq<Stmt> := [AddColumn("tickets", USER_UID), AddColumn("notifications", USER_UID)]

  /** A guarded block: when it runs, the statements before the first failure
      stay applied and the rest of the block is skipped. */
  function Block(ts: Database, runs: bool, stmts: seq<Stmt>): (r: Database)
    ensures !runs ==> r == ts
    ensures runs && RunAll(ts, stmts).Ok? ==> r == RunAll(ts, stmts).value
    ensures (forall k :: 0 <= k < |stmts| ==> !MayRemove(stmts[k])) ==> ts.Keys <= r.Keys
  {
    if runs then
      RunUntilErrorFacts(ts, stmts);
      RunUntilError(ts, stmts)
    else ts
  }

  /** The line the block's catch clause logs, if any. */
  function BlockLog(ts: Database, runs: bool, stmts: seq<Stmt>, step: string): (log: seq<string>)
    ensures |log| <= 1
    ensures |log| == 1 <==> runs && RunAll(ts, stmts).Err?
  {
    if runs && RunAll(ts, stmts).Err? then ["Error during " + step + " migration: " + RunAll(ts, stmts).error]
    else []
  }

  /** The file after `onUpgrade(oldVersion, 6)`: the v4, v5 and v6 blocks in
      that order, each exactly when `oldVersion` is below its number. */
  function Upgraded(ts: Database, oldVersion: int): (r: Database)
    ensures oldVersion >= DATABASE_VERSION ==> r == ts
    ensures ts.Keys <= r.Keys
  {
    assert forall k :: 0 <= k < |V4_BLOCK| ==> !MayRemove(V4_BLOCK[k]);
    var a := Block(ts, oldVersion < 4, V4_BLOCK);
    var b := Block(a, oldVersion < 5, V5_BLOCK);
    Block(b, oldVersion < 6, V6_BLOCK)
  }

  /** The lines `onUpgrade` logs: at most one per block, none for a file
      already at the current version. */
  function UpgradeLog(ts: Database, oldVersion: int): (log: seq<string>)
    ensures |log| <= 3
    ensures oldVersion >= DATABASE_VERSION ==> log == []
  {
    var a := Block(ts, oldVersion < 4, V4_BLOCK);
    var b := Block(a, oldVersion < 5, V5_BLOCK);
    BlockLog(ts, oldVersion < 4, V4_BLOCK, "v3->v4")
      + BlockLog(a, oldVersion < 5, V5_BLOCK, "v4->v5")
      + BlockLog(b, oldVersion < 6, V6_BLOCK, "v5->v6")
  }

  /** One guarded block in its try/catch: the logged line, if any. */
  method RunBlock(db: SqliteFile, runs: bool, stmts: seq<Stmt>, step: string) returns (log: seq<string>)
    modifies db
    ensures db.tables == Block(old(db.tables), runs, stmts)
    ensures log == BlockLog(old(db.tables), runs, stmts, step)
  {
    log := [];
    if runs {
      var r := ExecAll(db, stmts);
      if r.Err? {
        log := ["Error during " + step + " migration: " + r.error];
      }
    }
  }

  /** `onUpgrade`: the returned lines are what the catch clauses log. */
  method OnUpgrade(db: SqliteFile, oldVersion: int) returns (log: seq<string>)
    modifies db
    ensures db.tables == Upgraded(old(db.tables), oldVersion)
    ensures log == UpgradeLog(old(db.tables), oldVersion)
  {
    var v4 := RunBlock(db, oldVersion < 4, V4_BLOCK, "v3->v4");
    var v5 := RunBlock(db, oldVersion < 5, V5_BLOCK, "v4->v5");
    var v6 := RunBlock(db, oldVersion < 6, V6_BLOCK, "v5->v6");
    log := v4 + v5 + v6;
  }

  /** A file already at version 6 or later is left alone. */
  lemma UpgradeCurrent(ts: Database, oldVersion: int)
    requires oldVersion >= DATABASE_VERSION
    ensures Upgraded(ts, oldVersion) == ts && UpgradeLog(ts, oldVersion) == []
  {
  }

  /** Columns whose names are new to the table and to each other all go in. */
  lemma {:induction false} AddColumnsRun(ts: Database, name: string, cols: seq<Column>)
    requires name in ts
    requires forall k :: 0 <= k < |cols| ==> cols[k].name !in Names(ts[name].columns)
    requires forall i, j :: 0 <= i < j < |cols| ==> cols[i].name != cols[j].name
    ensures RunAll(ts, AddColumns(name, cols)).Ok?
    ensures var after := RunAll(ts, AddColumns(name, cols)).value;
      && after.Keys == ts.Keys
      && after[name].columns == ts[name].columns + cols && after[name].unique == ts[name].unique
      && (forall n :: n in ts && n != name ==> after[n] == ts[n])
    decreases |cols|
  {
    if cols == [] {
      assert ts[name].columns + cols == ts[name].columns;
    } else {
      var stmts := AddColumns(name, cols);
      AddColumnStep(ts, name, cols[0]);
      var next := Exec(ts, AddColumn(name, cols[0])).value;
      RunAllStep(ts, stmts, next);
      assert stmts[1..] == AddColumns(name, cols[1..]);
      NamesAppend(ts[name].columns, cols[0]);
      AddColumnsRun(next, name, cols[1..]);
      assert ts[name].columns + [cols[0]] + cols[1..] == ts[name].columns + cols;
    }
  }

  /** Statements that only add columns, none of them named `banned`. */
  predicate AddsOnly(stmts: seq<Stmt>, banned: string) {
    forall k :: 0 <= k < |stmts| ==> stmts[k].AddColumn? && stmts[k].added.name != banned
  }

  /** Such statements, wherever they stop, keep the set of tables and add no
      column named `banned`. */
  lemma {:induction false} AddsOnlyKeeps(ts: Database, stmts: seq<Stmt>, banned: string)
    requires AddsOnly(stmts, banned)
    ensures RunUntilError(ts, stmts).Keys == ts.Keys
    ensures forall n :: n in ts && banned !in Names(ts[n].columns) ==>
      banned !in Names(RunUntilError(ts, stmts)[n].columns)
    decreases |stmts|
  {
    if stmts != [] {
      var s := stmts[0];
      match AddColumnIn(ts, s.table, s.added) {
        case Err(_) =>
        case Ok(next) =>
          assert Exec(ts, s) == Ok(next);
          NamesAppend(ts[s.table].columns, s.added);
          assert AddsOnly(stmts[1..], banned);
          AddsOnlyKeeps(next, stmts[1..], banned);
      }
    }
  }

  /** The version-3 schema the upgrade blocks start from. */
  predicate AtVersion3(ts: Database) {
    && "users" in ts && ts["users"].columns == USER_COLUMNS
    && "events" in ts && ts["events"].columns == EVENT_COLUMNS_V3
    && "tickets" in ts && ts["tickets"].columns == TICKET_COLUMNS_V3
    && "notifications" !in ts
  }

  /** Both helpers open `EventHive.db`. Room, at version 5, finds no migration
      path from the version 6 this helper writes, so it rebuilds the file: the
      users, events and tickets come back empty and unseeded, and the
      `notifications` table is kept as it was. */
  lemma RoomWipesVersionSix(ts: Database)
    ensures Room.OpenOutcome(ts, DATABASE_VERSION).Ok?
    ensures var after := Room.OpenOutcome(ts, DATABASE_VERSION).value;
      && "users" in after && after["users"].rows == []
      && "events" in after && after["events"].rows == []
      && "tickets" in after && after["tickets"].rows == []
      && ("notifications" in ts ==> "notifications" in after && after["notifications"] == ts["notifications"])
  {
    Room.DestructiveOpen(ts, DATABASE_VERSION);
  }

  /** Room cannot take over a version-3 file of this helper: its `tickets`
      table has no unique index on `unique_code` and neither Room migration
      adds one, so the open fails, in a migration or in the validation after
      them, and the file is left as it was. */
  lemma LegacyV3RefusedByRoom(ts: Database)
    requires AtVersion3(ts) && Room.Migratable34(ts)
    requires "unique_code" !in ts["tickets"].unique
    ensures Room.OpenOutcome(ts, 3).Err?
  {
    Room.OpenFromThree(ts);
    Room.Migration34Outcome(ts);
    if UniqueIn(ts["users"].rows, "email") {
      var m := Room.Migrated34(ts);
      assert m["events"] == ts["events"] && m["tickets"] == ts["tickets"];
      assert "timestamp" !in Names(EVENT_COLUMNS_V3);
      Room.Migration45Effect(m);
      var after := RunAll(m, Room.MIGRATION_4_5).value;
      assert after["tickets"] == ts["tickets"];
      assert "unique_code" !in (set u | u in after["tickets"].unique);
    }
  }

  /** The v4 block adds event columns with distinct names. */
  lemma EventV4Distinct()
    ensures forall i, j :: 0 <= i < j < |EVENT_COLUMNS_V4| ==> EVENT_COLUMNS_V4[i].name != EVENT_COLUMNS_V4[j].name
  {
  }

  /** None of them is a version-3 event column. */
  lemma EventV4FreshV3()
    ensures forall k :: 0 <= k < |EVENT_COLUMNS_V4| ==> EVENT_COLUMNS_V4[k].name !in Names(EVENT_COLUMNS_V3)
  {
  }

  /** The v4 block runs through on any file whose `events` and `tickets`
      lack the columns it adds. */
  lemma V4Run(ts: Database)
    requires "events" in ts && "tickets" in ts
    requires forall k :: 0 <= k < |EVENT_COLUMNS_V4| ==> EVENT_COLUMNS_V4[k].name !in Names(ts["events"].columns)
    requires "purchase_timestamp" !in Names(ts["tickets"].columns)
    ensures RunAll(ts, V4_BLOCK).Ok?
    ensures var a := RunAll(ts, V4_BLOCK).value;
      && a.Keys == ts.Keys
      && (forall n :: n in ts && n != "events" && n != "tickets" ==> a[n] == ts[n])
      && a["events"].columns == ts["events"].columns + EVENT_COLUMNS_V4
      && a["tickets"].columns == ts["tickets"].columns + [PURCHASE_TIMESTAMP]
  {
    EventV4Distinct();
    var adds := AddColumns("events", EVENT_COLUMNS_V4);
    AddColumnsRun(ts, "events", EVENT_COLUMNS_V4);
    var mid := RunAll(ts, adds).value;
    AddColumnStep(mid, "tickets", PURCHASE_TIMESTAMP);
    var s := AddColumn("tickets", PURCHASE_TIMESTAMP);
    RunOne(mid, s);
    RunThen(ts, adds, [s], mid, Exec(mid, s).value);
  }

  /** The v4 block on a version-3 file runs through. */
  lemma V4FromV3(ts: Database)
    requires AtVersion3(ts)
    ensures RunAll(ts, V4_BLOCK).Ok?
    ensures var a := RunAll(ts, V4_BLOCK).value;
      && a.Keys == ts.Keys
      && (forall n :: n in ts && n != "events" && n != "tickets" ==> a[n] == ts[n])
      && a["events"].columns == EVENT_COLUMNS
      && a["tickets"].columns == TICKET_COLUMNS_V3 + [PURCHASE_TIMESTAMP]
  {
    EventV4FreshV3();
    V4Run(ts);
    EventColumnsSplit();
  }

  /** The v5 and v6 blocks on a file without `notifications` whose `tickets`
      lacks `user_uid`: both run through. */
  lemma V5V6Run(a: Database)
    requires "tickets" in a && "user_uid" !in Names(a["tickets"].columns)
    requires "notifications" !in a
    ensures RunAll(a, V5_BLOCK).Ok?
    ensures var b := RunAll(a, V5_BLOCK).value;
      && RunAll(b, V6_BLOCK).Ok?
      && var c := RunAll(b, V6_BLOCK).value;
      && c.Keys == a.Keys + {"notifications"}
      && (forall n :: n in a && n != "tickets" ==> c[n] == a[n])
      && c["tickets"].columns == a["tickets"].columns + [USER_UID]
      && c["notifications"].columns == NOTIFICATION_COLUMNS_V5 + [USER_UID]
  {
    var b := a["notifications" := Table(NOTIFICATION_COLUMNS_V5, ["id"], [])];
    RunOne(a, V5_BLOCK[0]);
    AddColumnStep(b, "tickets", USER_UID);
    var b1 := Exec(b, V6_BLOCK[0]).value;
    assert "user_uid" !in Names(b1["notifications"].columns);
    AddColumnStep(b1, "notifications", USER_UID);
    RunTwo(b, V6_BLOCK[0], V6_BLOCK[1], b1, Exec(b1, V6_BLOCK[1]).value);
  }

  /** When the v5 and v6 blocks run through after the v4 block, wherever that
      stopped, only the v4 block can have logged. */
  lemma LaterBlocksRunThrough(ts: Database, oldVersion: int, b: Database, c: Database)
    requires oldVersion < 4
    requires RunAll(RunUntilError(ts, V4_BLOCK), V5_BLOCK) == Ok(b) && RunAll(b, V6_BLOCK) == Ok(c)
    ensures Upgraded(ts, oldVersion) == c
    ensures UpgradeLog(ts, oldVersion) == BlockLog(ts, true, V4_BLOCK, "v3->v4")
  {
    RunUntilErrorAgrees(RunUntilError(ts, V4_BLOCK), V5_BLOCK);
    RunUntilErrorAgrees(b, V6_BLOCK);
  }

  /** After the v4 block, `tickets` still lacks `user_uid`. */
  lemma TicketsV4LackUid()
    ensures "user_uid" !in Names(TICKET_COLUMNS_V3 + [PURCHASE_TIMESTAMP])
  {
    NamesAppend(TICKET_COLUMNS_V3, PURCHASE_TIMESTAMP);
  }

  /** The three blocks on a version-3 file, column by column. */
  lemma UpgradeFromV3Blocks(ts: Database)
    requires AtVersion3(ts)
    ensures UpgradeLog(ts, 3) == []
    ensures var u := Upgraded(ts, 3);
      && u.Keys == ts.Keys + {"notifications"}
      && (forall n :: n in ts && n != "events" && n != "tickets" ==> u[n] == ts[n])
      && u["events"].columns == EVENT_COLUMNS
      && u["tickets"].columns == TICKET_COLUMNS_V3 + [PURCHASE_TIMESTAMP] + [USER_UID]
      && u["notifications"].columns == NOTIFICATION_COLUMNS_V5 + [USER_UID]
  {
    V4FromV3(ts);
    var a := RunAll(ts, V4_BLOCK).value;
    RunUntilErrorAgrees(ts, V4_BLOCK);
    TicketsV4LackUid();
    V5V6Run(a);
    var b := RunAll(a, V5_BLOCK).value;
    LaterBlocksRunThrough(ts, 3, b, RunAll(b, V6_BLOCK).value);
  }

  /** Upgrading a version-3 file logs nothing and leaves every table with the
      columns, and their defaults, that `onCreate` declares at version 6 (only
      their order differs in `tickets` and `notifications`). */
  lemma UpgradeFromV3(ts: Database)
    requires AtVersion3(ts)
    ensures UpgradeLog(ts, 3) == []
    ensures var u := Upgraded(ts, 3);
      && u.Keys == ts.Keys + {"notifications"}
      && u["users"].columns == USER_COLUMNS
      && u["events"].columns == EVENT_COLUMNS
      && multiset(u["tickets"].columns) == multiset(TICKET_COLUMNS)
      && multiset(u["notifications"].columns) == multiset(NOTIFICATION_COLUMNS)
  {
    UpgradeFromV3Blocks(ts);
    TicketColumnsUpgraded();
    NotificationColumnsUpgraded();
  }

  /** The upgraded `tickets` columns are `onCreate`'s, with `user_uid` moved last. */
  lemma TicketColumnsUpgraded()
    ensures multiset(TICKET_COLUMNS_V3 + [PURCHASE_TIMESTAMP] + [USER_UID]) == multiset(TICKET_COLUMNS)
  {
    assert TICKET_COLUMNS == TICKET_COLUMNS_V3[..2] + [USER_UID] + TICKET_COLUMNS_V3[2..] + [PURCHASE_TIMESTAMP];
  }

  /** The upgraded `notifications` columns are `onCreate`'s, with `user_uid` moved last. */
  lemma NotificationColumnsUpgraded()
    ensures multiset(NOTIFICATION_COLUMNS_V5 + [USER_UID]) == multiset(NOTIFICATION_COLUMNS)
  {
    assert NOTIFICATION_COLUMNS == NOTIFICATION_COLUMNS_V5[..6] + [USER_UID] + NOTIFICATION_COLUMNS_V5[6..];
  }

  /** A failure in the v4 block only cuts that block short: it is logged, and
      the v5 and v6 blocks still create `notifications` and add `user_uid`. */
  lemma LaterBlocksStillRun(ts: Database, oldVersion: int)
    requires oldVersion < 4
    requires "tickets" in ts && "user_uid" !in Names(ts["tickets"].columns) && "notifications" !in ts
    ensures var u := Upgraded(ts, oldVersion);
      && "notifications" in u && "user_uid" in Names(u["notifications"].columns)
      && "tickets" in u && "user_uid" in Names(u["tickets"].columns)
    ensures UpgradeLog(ts, oldVersion) == BlockLog(ts, true, V4_BLOCK, "v3->v4")
  {
    assert AddsOnly(V4_BLOCK, "user_uid");
    AddsOnlyKeeps(ts, V4_BLOCK, "user_uid");
    var a := RunUntilError(ts, V4_BLOCK);
    V5V6Run(a);
    var b := RunAll(a, V5_BLOCK).value;
    var c := RunAll(b, V6_BLOCK).value;
    LaterBlocksRunThrough(ts, oldVersion, b, c);
    NamesAppend(a["tickets"].columns, USER_UID);
    NamesAppend(NOTIFICATION_COLUMNS_V5, USER_UID);
  }
}
