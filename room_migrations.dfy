/** How `AppDatabase` (Room, schema version 5) opens the `EventHive.db` file:
    a new file gets Room's tables and the seed rows of `roomCallback.onCreate`;
    a file at version 3 or 4 goes through the registered migrations; a file at
    any other version is rebuilt by `fallbackToDestructiveMigration`. The whole
    open runs in one transaction, so a failing step leaves the file as it was. */
module RoomMigrations {
  import opened Strings
  import opened Sqlite

  const DB_VERSION: int := 5

  const USER_COLUMN_NAMES: seq<string> := ["id", "first_name", "last_name", "email", "password", "role", "phone"]

  const USER_COLUMNS: seq<Column> := [
    Column("id", Null), Column("first_name", Null), Column("last_name", Null), Column("email", Null),
    Column("password", Null), Column("role", Null), Column("phone", Null)]

  const EVENT_COLUMNS: seq<Column> := [
    Column("id", Null), Column("title", Null), Column("date", Null), Column("location", Null),
    Column("description", Null), Column("image_res_id", Null), Column("status", Text("Active")),
    Column("timestamp", Null)]

  const TICKET_COLUMNS: seq<Column> := [
    Column("id", Null), Column("user_id", Null), Column("event_id", Null), Column("unique_code", Null)]

  /** `MIGRATION_3_4`: rebuild `users` through a shadow table, then index the email. */
  const MIGRATION_3_4: seq<Stmt> := [
    CreateTable("users_new", USER_COLUMNS, ["id"], true),
    CopyRows("users_new", "users", USER_COLUMN_NAMES),
    DropTable("users", false),
    RenameTable("users_new", "users"),
    CreateUniqueIndex("users", "email")]

  /** `MIGRATION_4_5`: the events get a `timestamp` column, 0 for existing rows. */
  const MIGRATION_4_5: seq<Stmt> := [AddColumn("events", Column("timestamp", Integer(0)))]

  /** Room's `createAllTables` for the three entities and their unique indexes. */
  const CREATE_ALL: seq<Stmt> := [
    CreateTable("users", USER_COLUMNS, ["id"], true),
    CreateUniqueIndex("users", "email"),
    CreateTable("events", EVENT_COLUMNS, ["id"], true),
    CreateTable("tickets", TICKET_COLUMNS, ["id"], true),
    CreateUniqueIndex("tickets", "unique_code")]

  /** Room's `dropAllTables`: only the entity tables. */
  const DROP_ALL: seq<Stmt> := [DropTable("users", true), DropTable("events", true), DropTable("tickets", true)]

  const ADMIN_VALUES: map<string, Value> := map[
    "first_name" := Text("Admin"), "last_name" := Text("User"), "email" := Text("admin@eventhive.com"),
    "password" := Text("admin123"), "role" := Text("Admin"), "phone" := Text("0000000000")]

  const WAVEFEST_VALUES: map<string, Value> := map[
    "title" := Text("WaveFest - Feel The Winter"), "date" := Text("12 Dec - 10 PM"),
    "location" := Text("Bashundhara R/A, Dhaka"),
    "description" := Text("A music event bringing people together with electric energy."),
    "image_res_id" := Integer(0), "status" := Text("Active"), "timestamp" := Integer(1734000000000)]

  const TECH_SUMMIT_VALUES: map<string, Value> := map[
    "title" := Text("Tech Summit 2024"), "date" := Text("15 Jan - 9 AM"), "location" := Text("ICCB, Dhaka"),
    "description" := Text("The biggest tech conference in the city."),
    "image_res_id" := Integer(0), "status" := Text("Active"), "timestamp" := Integer(1736932800000)]

  /** `roomCallback.onCreate`: the admin account and two events. */
  const SEED: seq<Stmt> := [
    Insert("users", ADMIN_VALUES), Insert("events", WAVEFEST_VALUES), Insert("events", TECH_SUMMIT_VALUES)]

  /** The statements opening a file at `version` runs (0 is a new file). Only
      a new file gets rows inserted: the migrations and the destructive
      rebuild insert none. */
  function OpenSteps(version: int): (steps: seq<Stmt>)
    ensures (exists k :: 0 <= k < |steps| && steps[k].Insert?) <==> version == 0
    ensures version == DB_VERSION ==> steps == []
  {
    if version == 0 then
      assert (CREATE_ALL + SEED)[|CREATE_ALL|].Insert?;
      CREATE_ALL + SEED
    else if version == DB_VERSION then []
    else if version == 3 then MIGRATION_3_4 + MIGRATION_4_5
    else if version == 4 then MIGRATION_4_5
    else DROP_ALL + CREATE_ALL
  }

  /** The message of the IllegalStateException Room throws when a table does
      not match its entity once the migrations have run. */
  function MigrationNotHandled(table: string): string {
    "Migration didn't properly handle: " + table
  }

  /** One entity table as the generated `onValidateSchema` compares it: the
      table exists, with exactly the entity's column names and unique keys. */
  predicate TableMatches(ts: Database, table: string, cols: seq<Column>, unique: set<string>) {
    table in ts && Names(ts[table].columns) == Names(cols) && (set u | u in ts[table].unique) == unique
  }

  /** `onValidateSchema`: the first entity table, in the order users, events,
      tickets, that does not match its entity. */
  function SchemaMismatch(ts: Database): Option<string> {
    if !TableMatches(ts, "users", USER_COLUMNS, {"id", "email"}) then Some("users")
    else if !TableMatches(ts, "events", EVENT_COLUMNS, {"id"}) then Some("events")
    else if !TableMatches(ts, "tickets", TICKET_COLUMNS, {"id", "unique_code"}) then Some("tickets")
    else None
  }

  /** A migration path's outcome once Room has validated the schema it left. */
  function Validated(r: Result<Database>): Result<Database> {
    match r
    case Err(m) => Err(m)
    case Ok(t) => if SchemaMismatch(t).Some? then Err(MigrationNotHandled(SchemaMismatch(t).value)) else Ok(t)
  }

  /** The outcome of opening a file at `version`: the steps, validated when
      they are a migration path. */
  function OpenOutcome(ts: Database, version: int): Result<Database> {
    if version == 3 || version == 4 then Validated(RunAll(ts, OpenSteps(version)))
    else RunAll(ts, OpenSteps(version))
  }

  method Migrate3To4(database: SqliteFile) returns (r: Result<()>)
    modifies database
    ensures r.Ok? <==> RunAll(old(database.tables), MIGRATION_3_4).Ok?
    ensures r.Ok? ==> database.tables == RunAll(old(database.tables), MIGRATION_3_4).value
    ensures r.Err? ==> r.error == RunAll(old(database.tables), MIGRATION_3_4).error
  {
    r := ExecAll(database, MIGRATION_3_4);
  }

  method Migrate4To5(database: SqliteFile) returns (r: Result<()>)
    modifies database
    ensures r.Ok? <==> RunAll(old(database.tables), MIGRATION_4_5).Ok?
    ensures r.Ok? ==> database.tables == RunAll(old(database.tables), MIGRATION_4_5).value
    ensures r.Err? ==> r.error == RunAll(old(database.tables), MIGRATION_4_5).error
  {
    r := ExecAll(database, MIGRATION_4_5);
  }

  /** Opening the file stored at `version`: create and seed, migrate step by
      step and validate the result, do nothing, or rebuild, all in one
      transaction. */
  method Open(file: SqliteFile, version: int) returns (r: Result<()>)
    modifies file
    ensures r.Ok? <==> OpenOutcome(old(file.tables), version).Ok?
    ensures r.Ok? ==> file.tables == OpenOutcome(old(file.tables), version).value
    ensures r.Err? ==> r.error == OpenOutcome(old(file.tables), version).error &&
                       file.tables == old(file.tables)
  {
    var snapshot := file.tables;
    if version == 0 {
      RunAllAppend(snapshot, CREATE_ALL, SEED);
      r := ExecAll(file, CREATE_ALL);
      if r.Ok? {
        r := ExecAll(file, SEED);
      }
    } else if version == DB_VERSION {
      r := Ok(());
    } else if version == 3 {
      RunAllAppend(snapshot, MIGRATION_3_4, MIGRATION_4_5);
      r := Migrate3To4(file);
      if r.Ok? {
        r := Migrate4To5(file);
      }
    } else if version == 4 {
      r := Migrate4To5(file);
    } else {
      RunAllAppend(snapshot, DROP_ALL, CREATE_ALL);
      r := ExecAll(file, DROP_ALL);
      if r.Ok? {
        r := ExecAll(file, CREATE_ALL);
      }
    }
    if (version == 3 || version == 4) && r.Ok? {
      var mismatch := SchemaMismatch(file.tables);
      if mismatch.Some? {
        r := Err(MigrationNotHandled(mismatch.value));
      }
    }
    if r.Err? {
      file.tables := snapshot;
    }
  }

  lemma UserColumnNames()
    ensures forall k :: 0 <= k < |USER_COLUMN_NAMES| ==> USER_COLUMN_NAMES[k] in Names(USER_COLUMNS)
    ensures forall c :: c in Names(USER_COLUMNS) ==> c in USER_COLUMN_NAMES
  {
    forall k | 0 <= k < |USER_COLUMN_NAMES| ensures USER_COLUMN_NAMES[k] in Names(USER_COLUMNS) {
      assert USER_COLUMNS[k].name == USER_COLUMN_NAMES[k];
    }
  }

  /** What `MIGRATION_3_4` expects of the version-3 file: a `users` table whose
      rows hold the seven user columns under unique ids, and no `users_new`. */
  predicate Migratable34(ts: Database) {
    && "users" in ts && "users_new" !in ts
    && Shaped(ts["users"])
    && (forall k :: 0 <= k < |USER_COLUMN_NAMES| ==> USER_COLUMN_NAMES[k] in Names(ts["users"].columns))
    && UniqueIn(ts["users"].rows, "id")
  }

  /** The user rows as the shadow table receives them. */
  function CopiedUsers(ts: Database): seq<Row>
    requires "users" in ts
  {
    CopiedRows(USER_COLUMNS, ts["users"].rows, USER_COLUMN_NAMES)
  }

  lemma ShadowHasUserColumns()
    ensures FirstMissing(USER_COLUMN_NAMES, Names(USER_COLUMNS)).None?
  {
    UserColumnNames();
  }

  lemma CopiedIdsUnique(users: Table, copied: seq<Row>)
    requires Shaped(users) && UniqueIn(users.rows, "id") && "id" in Names(users.columns)
    requires copied == CopiedRows(USER_COLUMNS, users.rows, USER_COLUMN_NAMES)
    ensures FirstViolation(["id"], copied).None?
  {
    NameListed(USER_COLUMNS, 0);
    forall k | 0 <= k < |copied| ensures "id" in copied[k] && copied[k]["id"] == users.rows[k]["id"] {
      assert users.rows[k] in users.rows;
    }
    assert UniqueIn(copied, "id");
  }

  /** The copy into the shadow table succeeds: every user column exists on
      both sides and the ids stay unique. */
  lemma CopyIntoShadow(ts: Database)
    requires Migratable34(ts)
    ensures var s1 := ts["users_new" := Table(USER_COLUMNS, ["id"], [])];
            Exec(s1, CopyRows("users_new", "users", USER_COLUMN_NAMES)) ==
            Ok(s1["users_new" := Table(USER_COLUMNS, ["id"], CopiedUsers(ts))])
  {
    var users := ts["users"];
    var s1 := ts["users_new" := Table(USER_COLUMNS, ["id"], [])];
    ShadowHasUserColumns();
    assert FirstMissing(USER_COLUMN_NAMES, Names(users.columns)).None?;
    assert "id" in Names(users.columns) by { assert USER_COLUMN_NAMES[0] == "id"; }
    CopiedIdsUnique(users, CopiedUsers(ts));
    CopyRowsStep(s1, "users_new", "users", USER_COLUMN_NAMES);
  }

  /** Four statements that each succeed in front of a last one. */
  lemma RunFourThen(ts: Database, s0: Stmt, s1: Stmt, s2: Stmt, s3: Stmt, s4: Stmt,
                    t1: Database, t2: Database, t3: Database, t4: Database)
    requires Exec(ts, s0) == Ok(t1) && Exec(t1, s1) == Ok(t2) && Exec(t2, s2) == Ok(t3) && Exec(t3, s3) == Ok(t4)
    ensures RunAll(ts, [s0, s1, s2, s3, s4]) == RunAll(t4, [s4])
  {
    var l := [s0, s1, s2, s3, s4];
    assert l[1..] == [s1, s2, s3, s4] && l[1..][1..] == [s2, s3, s4];
    assert l[1..][1..][1..] == [s3, s4] && l[1..][1..][1..][1..] == [s4];
    RunAllStep(ts, l, t1);
    RunAllStep(t1, l[1..], t2);
    RunAllStep(t2, l[1..][1..], t3);
    RunAllStep(t3, l[1..][1..][1..], t4);
  }

  /** Dropping the old table and renaming the shadow one. */
  lemma SwapShadow(s2: Database)
    requires "users" in s2 && "users_new" in s2
    ensures Exec(s2, DropTable("users", false)) == Ok(s2 - {"users"})
    ensures Exec(s2 - {"users"}, RenameTable("users_new", "users")) ==
            Ok((s2 - {"users"} - {"users_new"})["users" := s2["users_new"]])
  {
  }

  /** The first four statements of `MIGRATION_3_4` leave `users` rebuilt with
      Room's columns and the copied rows, and no `users_new`. */
  lemma {:induction false} Migration34Rebuilds(ts: Database)
    requires Migratable34(ts)
    ensures RunAll(ts, MIGRATION_3_4) ==
            RunAll(ts["users" := Table(USER_COLUMNS, ["id"], CopiedUsers(ts))], [CreateUniqueIndex("users", "email")])
  {
    var copied := CopiedUsers(ts);
    var s1 := ts["users_new" := Table(USER_COLUMNS, ["id"], [])];
    var s2 := s1["users_new" := Table(USER_COLUMNS, ["id"], copied)];
    var s3 := s2 - {"users"};
    var s4 := (s3 - {"users_new"})["users" := s2["users_new"]];
    CopyIntoShadow(ts);
    SwapShadow(s2);
    RunFourThen(ts, CreateTable("users_new", USER_COLUMNS, ["id"], true), CopyRows("users_new", "users", USER_COLUMN_NAMES),
                DropTable("users", false), RenameTable("users_new", "users"), CreateUniqueIndex("users", "email"),
                s1, s2, s3, s4);
    assert s4 == ts["users" := Table(USER_COLUMNS, ["id"], copied)];
  }

  /** The file after a successful `MIGRATION_3_4`. */
  function Migrated34(ts: Database): Database
    requires "users" in ts
  {
    ts["users" := Table(USER_COLUMNS, ["id", "email"], CopiedUsers(ts))]
  }

  /** `MIGRATION_3_4` fails with the email constraint exactly when two users
      share an email, and otherwise yields `Migrated34`. */
  lemma {:induction false} Migration34Outcome(ts: Database)
    requires Migratable34(ts)
    ensures RunAll(ts, MIGRATION_3_4) ==
            if UniqueIn(ts["users"].rows, "email") then Ok(Migrated34(ts)) else Err(UniqueFailure("users", "email"))
  {
    var users := ts["users"];
    Migration34Rebuilds(ts);
    var copied := CopiedUsers(ts);
    CopiedEmailsUnique(users, copied);
    var s4 := ts["users" := Table(USER_COLUMNS, ["id"], copied)];
    RunOne(s4, CreateUniqueIndex("users", "email"));
    IndexEmail(s4);
    assert s4["users" := s4["users"].(unique := ["id", "email"])] == Migrated34(ts);
  }

  /** The unique index on `users.email` over a rebuilt `users` table. */
  lemma IndexEmail(ts: Database)
    requires "users" in ts && ts["users"].columns == USER_COLUMNS && ts["users"].unique == ["id"]
    ensures Exec(ts, CreateUniqueIndex("users", "email")) ==
            if UniqueIn(ts["users"].rows, "email") then Ok(ts["users" := ts["users"].(unique := ["id", "email"])])
            else Err(UniqueFailure("users", "email"))
  {
    assert "email" in Names(ts["users"].columns) by { assert USER_COLUMNS[3].name == "email"; }
    assert ts["users"].unique + ["email"] == ["id", "email"];
    assert Exec(ts, CreateUniqueIndex("users", "email")) == CreateUniqueIndexIn(ts, "users", "email");
  }

  lemma CopiedEmailsUnique(users: Table, copied: seq<Row>)
    requires Shaped(users)
    requires forall k :: 0 <= k < |USER_COLUMN_NAMES| ==> USER_COLUMN_NAMES[k] in Names(users.columns)
    requires copied == CopiedRows(USER_COLUMNS, users.rows, USER_COLUMN_NAMES)
    ensures UniqueIn(users.rows, "email") <==> UniqueIn(copied, "email")
  {
    CopiedKeepsValues(users, copied);
    assert "email" in USER_COLUMN_NAMES;
    forall k | 0 <= k < |copied| ensures "email" in copied[k] && "email" in users.rows[k] && copied[k]["email"] == users.rows[k]["email"] {
      assert users.rows[k] in users.rows;
    }
  }

  /** `MIGRATION_3_4` keeps every user row, in order, with the same values in
      the seven columns, puts the unique index on the email and touches no
      other table; it fails with the email constraint exactly when two users
      share an email. */
  lemma {:induction false} Migration34Effect(ts: Database)
    requires Migratable34(ts)
    ensures UniqueIn(ts["users"].rows, "email") <==> RunAll(ts, MIGRATION_3_4).Ok?
    ensures !UniqueIn(ts["users"].rows, "email") ==> RunAll(ts, MIGRATION_3_4) == Err(UniqueFailure("users", "email"))
    ensures RunAll(ts, MIGRATION_3_4).Ok? ==>
      var after := RunAll(ts, MIGRATION_3_4).value;
      && after.Keys == ts.Keys
      && (forall n :: n in ts && n != "users" ==> after[n] == ts[n])
      && after["users"].columns == USER_COLUMNS && after["users"].unique == ["id", "email"]
      && |after["users"].rows| == |ts["users"].rows|
      && forall k, c :: 0 <= k < |ts["users"].rows| && c in USER_COLUMN_NAMES ==>
           c in after["users"].rows[k] && after["users"].rows[k][c] == ts["users"].rows[k][c]
  {
    Migration34Outcome(ts);
    CopiedKeepsValues(ts["users"], CopiedUsers(ts));
    if UniqueIn(ts["users"].rows, "email") {
      var after := Migrated34(ts);
      assert after.Keys == ts.Keys;
      assert after["users"].rows == CopiedUsers(ts);
    }
  }

  /** The copied rows carry each user's seven column values. */
  lemma CopiedKeepsValues(users: Table, copied: seq<Row>)
    requires Shaped(users)
    requires forall k :: 0 <= k < |USER_COLUMN_NAMES| ==> USER_COLUMN_NAMES[k] in Names(users.columns)
    requires copied == CopiedRows(USER_COLUMNS, users.rows, USER_COLUMN_NAMES)
    ensures |copied| == |users.rows|
    ensures forall k, c :: 0 <= k < |copied| && c in USER_COLUMN_NAMES ==> c in copied[k] && copied[k][c] == users.rows[k][c]
  {
    UserColumnNames();
    forall k, c | 0 <= k < |copied| && c in USER_COLUMN_NAMES
      ensures c in copied[k] && copied[k][c] == users.rows[k][c]
    {
      assert users.rows[k] in users.rows;
    }
  }

  /** `MIGRATION_4_5` fails when `events` is missing or already has a
      `timestamp`; otherwise every event row gains `timestamp` = 0 and nothing
      else changes. */
  lemma Migration45Effect(ts: Database)
    ensures "events" !in ts ==> RunAll(ts, MIGRATION_4_5) == Err(NoSuchTable("events"))
    ensures "events" in ts && "timestamp" in Names(ts["events"].columns) ==>
            RunAll(ts, MIGRATION_4_5) == Err("duplicate column name: timestamp")
    ensures "events" in ts && "timestamp" !in Names(ts["events"].columns) ==>
      && RunAll(ts, MIGRATION_4_5).Ok?
      && var after := RunAll(ts, MIGRATION_4_5).value;
      && after.Keys == ts.Keys
      && (forall n :: n in ts && n != "events" ==> after[n] == ts[n])
      && after["events"].columns == ts["events"].columns + [Column("timestamp", Integer(0))]
      && after["events"].unique == ts["events"].unique
      && |after["events"].rows| == |ts["events"].rows|
      && forall k :: 0 <= k < |ts["events"].rows| ==>
           after["events"].rows[k] == ts["events"].rows[k]["timestamp" := Integer(0)]
  {
    assert MIGRATION_4_5[1..] == [];
  }

  /** Opening at version 3 runs `MIGRATION_3_4`, then `MIGRATION_4_5` on its
      result, then validates what the two left. */
  lemma OpenFromThree(ts: Database)
    ensures OpenOutcome(ts, 3) ==
            match RunAll(ts, MIGRATION_3_4) case Err(m) => Err(m) case Ok(t) => Validated(RunAll(t, MIGRATION_4_5))
  {
    RunAllAppend(ts, MIGRATION_3_4, MIGRATION_4_5);
  }

  /** The tables `createAllTables` makes are the ones the validation expects. */
  lemma CreatedValidates(d: Database)
    ensures SchemaMismatch(Created(d)).None?
  {
    assert (set u | u in ["id", "email"]) == {"id", "email"};
    assert (set u | u in ["id"]) == {"id"};
    assert (set u | u in ["id", "unique_code"]) == {"id", "unique_code"};
  }

  /** A version-3 file that already holds Room's tables, the events without
      their timestamp, and users with distinct emails opens: both migrations
      run and the schema they leave passes the validation. */
  lemma {:induction false} OpenFromThreeValidates(ts: Database)
    requires Migratable34(ts) && UniqueIn(ts["users"].rows, "email")
    requires "events" in ts && Names(ts["events"].columns) == Names(EVENT_COLUMNS) - {"timestamp"}
    requires (set u | u in ts["events"].unique) == {"id"}
    requires TableMatches(ts, "tickets", TICKET_COLUMNS, {"id", "unique_code"})
    ensures OpenOutcome(ts, 3).Ok?
    ensures OpenOutcome(ts, 3) == RunAll(ts, OpenSteps(3))
  {
    OpenFromThree(ts);
    Migration34Outcome(ts);
    var m := Migrated34(ts);
    assert m["events"] == ts["events"] && m["tickets"] == ts["tickets"];
    Migration45Effect(m);
    var after := RunAll(m, MIGRATION_4_5).value;
    NamesAppend(m["events"].columns, Column("timestamp", Integer(0)));
    assert Names(after["events"].columns) == Names(EVENT_COLUMNS);
    assert after["users"] == m["users"] && after["tickets"] == ts["tickets"];
    assert (set u | u in ["id", "email"]) == {"id", "email"};
    assert TableMatches(after, "users", USER_COLUMNS, {"id", "email"});
    RunAllAppend(ts, MIGRATION_3_4, MIGRATION_4_5);
  }

  /** A migrated file without a `tickets` table is refused: neither migration
      creates one, so the validation fails and the open is rolled back. */
  lemma MissingTicketsRefused(ts: Database, version: int)
    requires version == 3 || version == 4
    requires "tickets" !in ts
    ensures OpenOutcome(ts, version).Err?
  {
    var steps := OpenSteps(version);
    forall k | 0 <= k < |steps| ensures !MayCreate(steps[k], "tickets") {
    }
    RunAllKeepsAbsent(ts, steps, "tickets");
  }

  /** A file at a version with no migration path is rebuilt: Room's three tables
      come back empty, unseeded, and any other table is left as it was. */
  lemma {:induction false} DestructiveOpen(ts: Database, version: int)
    requires version != 0 && version != 3 && version != 4 && version != DB_VERSION
    ensures RunAll(ts, OpenSteps(version)).Ok?
    ensures var after := RunAll(ts, OpenSteps(version)).value;
      && (forall n :: n in ts && n != "users" && n != "events" && n != "tickets" ==> n in after && after[n] == ts[n])
      && "users" in after && after["users"].rows == []
      && "events" in after && after["events"].rows == []
      && "tickets" in after && after["tickets"].rows == []
  {
    RunAllAppend(ts, DROP_ALL, CREATE_ALL);
    var d := ts - {"users"} - {"events"} - {"tickets"};
    DropAllEffect(ts);
    CreateAllEffect(d);
  }

  lemma {:induction false} DropAllEffect(ts: Database)
    ensures RunAll(ts, DROP_ALL) == Ok(ts - {"users"} - {"events"} - {"tickets"})
  {
    forall m: Database, n: string | n !in m ensures m - {n} == m {
      assert (m - {n}).Keys == m.Keys;
    }
    var d1 := ts - {"users"};
    var d2 := d1 - {"events"};
    RunAllStep(ts, DROP_ALL, d1);
    assert DROP_ALL[1..][0] == DropTable("events", true);
    RunAllStep(d1, DROP_ALL[1..], d2);
    assert DROP_ALL[1..][1..] == [DropTable("tickets", true)];
    RunAllStep(d2, [DropTable("tickets", true)], d2 - {"tickets"});
    assert [DropTable("tickets", true)][1..] == [];
  }

  /** The `users` table and its email index. */
  lemma CreateUsers(d: Database)
    requires "users" !in d
    ensures RunAll(d, CREATE_ALL[..2]) == Ok(d["users" := Table(USER_COLUMNS, ["id", "email"], [])])
  {
    var c1 := d["users" := Table(USER_COLUMNS, ["id"], [])];
    assert ["id"] + ["email"] == ["id", "email"];
    assert "email" in Names(USER_COLUMNS) by { assert USER_COLUMNS[3].name == "email"; }
    assert Exec(d, CREATE_ALL[0]) == Ok(c1);
    assert "email" !in ["id"];
    assert c1["users" := Table(USER_COLUMNS, ["id", "email"], [])] == d["users" := Table(USER_COLUMNS, ["id", "email"], [])];
    assert Exec(c1, CREATE_ALL[1]) == Ok(d["users" := Table(USER_COLUMNS, ["id", "email"], [])]);
    RunTwo(d, CREATE_ALL[0], CREATE_ALL[1], c1, d["users" := Table(USER_COLUMNS, ["id", "email"], [])]);
    assert CREATE_ALL[..2] == [CREATE_ALL[0], CREATE_ALL[1]];
  }

  /** The `tickets` table and its code index. */
  lemma CreateTickets(d: Database)
    requires "tickets" !in d
    ensures RunAll(d, CREATE_ALL[3..]) == Ok(d["tickets" := Table(TICKET_COLUMNS, ["id", "unique_code"], [])])
  {
    var c1 := d["tickets" := Table(TICKET_COLUMNS, ["id"], [])];
    assert ["id"] + ["unique_code"] == ["id", "unique_code"];
    assert "unique_code" in Names(TICKET_COLUMNS) by { assert TICKET_COLUMNS[3].name == "unique_code"; }
    assert Exec(d, CREATE_ALL[3]) == Ok(c1);
    assert "unique_code" !in ["id"];
    assert c1["tickets" := Table(TICKET_COLUMNS, ["id", "unique_code"], [])] == d["tickets" := Table(TICKET_COLUMNS, ["id", "unique_code"], [])];
    assert Exec(c1, CREATE_ALL[4]) == Ok(d["tickets" := Table(TICKET_COLUMNS, ["id", "unique_code"], [])]);
    RunTwo(d, CREATE_ALL[3], CREATE_ALL[4], c1, d["tickets" := Table(TICKET_COLUMNS, ["id", "unique_code"], [])]);
    assert CREATE_ALL[3..] == [CREATE_ALL[3], CREATE_ALL[4]];
  }

  /** `createAllTables` on a file without the entity tables adds them, empty. */
  lemma {:induction false} CreateAllEffect(d: Database)
    requires "users" !in d && "events" !in d && "tickets" !in d
    ensures RunAll(d, CREATE_ALL) == Ok(d["users" := Table(USER_COLUMNS, ["id", "email"], [])]
                                         ["events" := Table(EVENT_COLUMNS, ["id"], [])]
                                         ["tickets" := Table(TICKET_COLUMNS, ["id", "unique_code"], [])])
  {
    var c2 := d["users" := Table(USER_COLUMNS, ["id", "email"], [])];
    var c3 := c2["events" := Table(EVENT_COLUMNS, ["id"], [])];
    var c5 := c3["tickets" := Table(TICKET_COLUMNS, ["id", "unique_code"], [])];
    CreateUsers(d);
    RunOne(c2, CREATE_ALL[2]);
    assert CREATE_ALL[2..3] == [CREATE_ALL[2]];
    CreateTickets(c3);
    RunThen(c2, CREATE_ALL[2..3], CREATE_ALL[3..], c3, c5);
    assert CREATE_ALL[2..3] + CREATE_ALL[3..] == CREATE_ALL[2..];
    RunThen(d, CREATE_ALL[..2], CREATE_ALL[2..], c2, c5);
    assert CREATE_ALL[..2] + CREATE_ALL[2..] == CREATE_ALL;
  }

  /** The tables `createAllTables` leaves on a file that had none of them. */
  function Created(d: Database): Database {
    d["users" := Table(USER_COLUMNS, ["id", "email"], [])]
     ["events" := Table(EVENT_COLUMNS, ["id"], [])]
     ["tickets" := Table(TICKET_COLUMNS, ["id", "unique_code"], [])]
  }

  /** The seed rows as the inserts store them into table `t`. */
  function AdminRow(t: Table): Row {
    NewRow(t, ADMIN_VALUES)
  }

  function WaveFestRow(t: Table): Row {
    NewRow(t, WAVEFEST_VALUES)
  }

  function TechSummitRow(t: Table): Row {
    NewRow(t, TECH_SUMMIT_VALUES)
  }

  /** The seeded admin account. */
  predicate IsSeededAdmin(a: Row) {
    && "id" in a && a["id"] == Integer(1)
    && "email" in a && a["email"] == Text("admin@eventhive.com")
    && "password" in a && a["password"] == Text("admin123")
    && "role" in a && a["role"] == Text("Admin")
  }

  /** A seeded event: its rowid, active, and its timestamp. */
  predicate IsSeededEvent(e: Row, id: int, timestamp: int) {
    && "id" in e && e["id"] == Integer(id)
    && "status" in e && e["status"] == Text("Active")
    && "timestamp" in e && e["timestamp"] == Integer(timestamp)
  }

  /** Every column the admin insert lists is a `users` column. */
  lemma AdminColumnsExist()
    ensures ADMIN_VALUES.Keys <= Names(USER_COLUMNS)
  {
    NameListed(USER_COLUMNS, 1);
    NameListed(USER_COLUMNS, 2);
    NameListed(USER_COLUMNS, 3);
    NameListed(USER_COLUMNS, 4);
    NameListed(USER_COLUMNS, 5);
    NameListed(USER_COLUMNS, 6);
  }

  /** Every column the event inserts list is an `events` column. */
  lemma EventColumnsExist()
    ensures WAVEFEST_VALUES.Keys <= Names(EVENT_COLUMNS)
    ensures TECH_SUMMIT_VALUES.Keys <= Names(EVENT_COLUMNS)
  {
    NameListed(EVENT_COLUMNS, 1);
    NameListed(EVENT_COLUMNS, 2);
    NameListed(EVENT_COLUMNS, 3);
    NameListed(EVENT_COLUMNS, 4);
    NameListed(EVENT_COLUMNS, 5);
    NameListed(EVENT_COLUMNS, 6);
    NameListed(EVENT_COLUMNS, 7);
  }

  /** The admin insert lists no id and the admin's credentials and role. */
  lemma AdminValues()
    ensures "id" !in ADMIN_VALUES
    ensures "email" in ADMIN_VALUES && ADMIN_VALUES["email"] == Text("admin@eventhive.com")
    ensures "password" in ADMIN_VALUES && ADMIN_VALUES["password"] == Text("admin123")
    ensures "role" in ADMIN_VALUES && ADMIN_VALUES["role"] == Text("Admin")
  {
  }

  /** A row inserted with the admin's listed fields into a table without rowids. */
  lemma AdminRowOf(t: Table, values: map<string, Value>)
    requires "id" in Names(t.columns) && "email" in Names(t.columns)
    requires "password" in Names(t.columns) && "role" in Names(t.columns)
    requires MaxId(t.rows) == 0 && "id" !in values
    requires "email" in values && values["email"] == Text("admin@eventhive.com")
    requires "password" in values && values["password"] == Text("admin123")
    requires "role" in values && values["role"] == Text("Admin")
    ensures IsSeededAdmin(NewRow(t, values))
  {
    NewRowId(t, values);
    NewRowListed(t, values, "email");
    NewRowListed(t, values, "password");
    NewRowListed(t, values, "role");
  }

  /** The admin row inserted into an empty `users` table. */
  lemma AdminRowFields(t: Table)
    requires t.columns == USER_COLUMNS && MaxId(t.rows) == 0
    ensures IsSeededAdmin(AdminRow(t))
  {
    NameListed(USER_COLUMNS, 0);
    NameListed(USER_COLUMNS, 3);
    NameListed(USER_COLUMNS, 4);
    NameListed(USER_COLUMNS, 5);
    AdminValues();
    AdminRowOf(t, ADMIN_VALUES);
  }

  /** An event inserted with status and timestamp listed and no id gets the
      next rowid and the listed status and timestamp. */
  lemma EventRowFields(t: Table, values: map<string, Value>, timestamp: int)
    requires t.columns == EVENT_COLUMNS && "id" !in values
    requires "status" in values && values["status"] == Text("Active")
    requires "timestamp" in values && values["timestamp"] == Integer(timestamp)
    ensures IsSeededEvent(NewRow(t, values), MaxId(t.rows) + 1, timestamp)
  {
    NameListed(EVENT_COLUMNS, 0);
    NameListed(EVENT_COLUMNS, 6);
    NameListed(EVENT_COLUMNS, 7);
    NewRowId(t, values);
    NewRowListed(t, values, "status");
    NewRowListed(t, values, "timestamp");
  }

  lemma InsertAdmin(c: Database)
    requires "users" in c && c["users"].columns == USER_COLUMNS && c["users"].rows == []
    ensures Exec(c, Insert("users", ADMIN_VALUES)) == Ok(c["users" := c["users"].(rows := [AdminRow(c["users"])])])
  {
    AdminColumnsExist();
    var a := AdminRow(c["users"]);
    assert c["users"].rows + [a] == [a];
    FirstRowUnique(c["users"].unique, a);
    InsertStep(c, "users", ADMIN_VALUES, a);
  }

  lemma InsertWaveFest(c: Database)
    requires "events" in c && c["events"].columns == EVENT_COLUMNS && c["events"].rows == []
    ensures Exec(c, Insert("events", WAVEFEST_VALUES)) == Ok(c["events" := c["events"].(rows := [WaveFestRow(c["events"])])])
  {
    EventColumnsExist();
    var w := WaveFestRow(c["events"]);
    assert c["events"].rows + [w] == [w];
    FirstRowUnique(c["events"].unique, w);
    InsertStep(c, "events", WAVEFEST_VALUES, w);
  }

  /** Two rows with different ids keep the `id`-only constraint. */
  lemma SecondRowUnique(a: Row, b: Row)
    requires "id" in a && "id" in b && a["id"] != b["id"]
    ensures FirstViolation(["id"], [a, b]).None?
  {
    var rows := [a, b];
    forall i, j | 0 <= i < j < |rows| && "id" in rows[i] && "id" in rows[j] && rows[i]["id"] != Null
      ensures rows[i]["id"] != rows[j]["id"]
    {
      assert i == 0 && j == 1;
    }
  }

  /** The second event goes in after WaveFest, which took id 1. */
  lemma InsertTechSummit(c: Database, empty: Table)
    requires empty.columns == EVENT_COLUMNS && empty.unique == ["id"] && empty.rows == []
    requires "events" in c && c["events"] == empty.(rows := [WaveFestRow(empty)])
    ensures Exec(c, Insert("events", TECH_SUMMIT_VALUES)) ==
            Ok(c["events" := c["events"].(rows := [WaveFestRow(empty), TechSummitRow(c["events"])])])
  {
    var events := c["events"];
    var w := WaveFestRow(empty);
    EventRowFields(empty, WAVEFEST_VALUES, 1734000000000);
    assert MaxId(events.rows) == 1;
    EventColumnsExist();
    var t := TechSummitRow(events);
    EventRowFields(events, TECH_SUMMIT_VALUES, 1736932800000);
    assert events.rows + [t] == [w, t];
    SecondRowUnique(w, t);
    InsertStep(c, "events", TECH_SUMMIT_VALUES, t);
  }

  /** The `users` and `events` tables after the seed inserts. */
  function SeededUsers(users: Table): Table {
    users.(rows := users.rows + [AdminRow(users)])
  }

  function SeededEvents(events: Table): Table {
    var one := events.(rows := events.rows + [WaveFestRow(events)]);
    one.(rows := one.rows + [TechSummitRow(one)])
  }

  /** The file after the seed inserts into `c`. */
  function SeedState(c: Database): Database
    requires "users" in c && "events" in c
  {
    c["users" := SeededUsers(c["users"])]["events" := SeededEvents(c["events"])]
  }

  /** Tables with Room's columns and constraints and no rows. */
  predicate EmptyEntityTables(c: Database) {
    && "users" in c && c["users"].columns == USER_COLUMNS && c["users"].unique == ["id", "email"] && c["users"].rows == []
    && "events" in c && c["events"].columns == EVENT_COLUMNS && c["events"].unique == ["id"] && c["events"].rows == []
  }

  lemma {:induction false} SeedRuns(c: Database)
    requires EmptyEntityTables(c)
    ensures RunAll(c, SEED) == Ok(SeedState(c))
  {
    var a := AdminRow(c["users"]);
    var c1 := c["users" := c["users"].(rows := [a])];
    InsertAdmin(c);
    var w := WaveFestRow(c1["events"]);
    var c2 := c1["events" := c1["events"].(rows := [w])];
    InsertWaveFest(c1);
    InsertTechSummit(c2, c["events"]);
    var x := TechSummitRow(c2["events"]);
    var c3 := c2["events" := c2["events"].(rows := [w, x])];
    RunThree(c, Insert("users", ADMIN_VALUES), Insert("events", WAVEFEST_VALUES), Insert("events", TECH_SUMMIT_VALUES), c1, c2, c3);
    assert c["users"].rows + [a] == [a] && c["events"].rows + [w] == [w] && [w] + [x] == [w, x];
    assert c2["events"] == c["events"].(rows := [w]);
    assert SeededUsers(c["users"]) == c1["users"];
    assert SeededEvents(c["events"]) == c3["events"];
    assert c3 == SeedState(c);
  }

  /** The seeded `users` table holds the admin alone. */
  lemma SeededUsersFields(users: Table)
    requires users.columns == USER_COLUMNS && users.rows == []
    ensures var after := SeededUsers(users);
      after.unique == users.unique && |after.rows| == 1 && IsSeededAdmin(after.rows[0])
  {
    AdminRowFields(users);
  }

  /** The event inserts list no id, an active status and their timestamps. */
  lemma EventValues()
    ensures "id" !in WAVEFEST_VALUES && "id" !in TECH_SUMMIT_VALUES
    ensures "status" in WAVEFEST_VALUES && WAVEFEST_VALUES["status"] == Text("Active")
    ensures "status" in TECH_SUMMIT_VALUES && TECH_SUMMIT_VALUES["status"] == Text("Active")
    ensures "timestamp" in WAVEFEST_VALUES && WAVEFEST_VALUES["timestamp"] == Integer(1734000000000)
    ensures "timestamp" in TECH_SUMMIT_VALUES && TECH_SUMMIT_VALUES["timestamp"] == Integer(1736932800000)
  {
  }

  /** WaveFest goes into the empty table with id 1. */
  lemma FirstEventRow(empty: Table)
    requires empty.columns == EVENT_COLUMNS && empty.rows == []
    ensures IsSeededEvent(WaveFestRow(empty), 1, 1734000000000)
  {
    EventValues();
    EventRowFields(empty, WAVEFEST_VALUES, 1734000000000);
  }

  /** Tech Summit goes in after a row with id 1 and takes id 2. */
  lemma SecondEventRow(one: Table, w: Row)
    requires one.columns == EVENT_COLUMNS && one.rows == [w] && "id" in w && w["id"] == Integer(1)
    ensures IsSeededEvent(TechSummitRow(one), 2, 1736932800000)
  {
    assert MaxId(one.rows) == 1;
    EventValues();
    EventRowFields(one, TECH_SUMMIT_VALUES, 1736932800000);
  }

  /** The seeded `events` table holds WaveFest with id 1, then Tech Summit with id 2. */
  lemma SeededEventsFields(empty: Table)
    requires empty.columns == EVENT_COLUMNS && empty.rows == []
    ensures var events := SeededEvents(empty);
      && |events.rows| == 2
      && IsSeededEvent(events.rows[0], 1, 1734000000000)
      && IsSeededEvent(events.rows[1], 2, 1736932800000)
  {
    var w := WaveFestRow(empty);
    FirstEventRow(empty);
    var one := empty.(rows := [w]);
    assert empty.rows + [w] == [w];
    SecondEventRow(one, w);
    assert one.rows + [TechSummitRow(one)] == [w, TechSummitRow(one)];
  }

  /** The seed touches only `users` and `events`. */
  lemma SeedKeepsOthers(c: Database)
    requires "users" in c && "events" in c
    ensures SeedState(c).Keys == c.Keys
    ensures forall n :: n in c && n != "users" && n != "events" ==> SeedState(c)[n] == c[n]
  {
  }

  lemma SeedStateUsers(c: Database)
    requires EmptyEntityTables(c)
    ensures var users := SeedState(c)["users"];
      users.unique == ["id", "email"] && |users.rows| == 1 && IsSeededAdmin(users.rows[0])
  {
    SeededUsersFields(c["users"]);
  }

  lemma SeedStateEvents(c: Database)
    requires EmptyEntityTables(c)
    ensures var events := SeedState(c)["events"];
      && |events.rows| == 2
      && IsSeededEvent(events.rows[0], 1, 1734000000000)
      && IsSeededEvent(events.rows[1], 2, 1736932800000)
  {
    SeededEventsFields(c["events"]);
  }

  /** What the seed inserts leave: one admin row and the two events, every
      other table untouched. */
  lemma {:induction false} SeedEffect(c: Database)
    requires EmptyEntityTables(c)
    ensures RunAll(c, SEED).Ok?
    ensures var after := RunAll(c, SEED).value;
      && after.Keys == c.Keys
      && (forall n :: n in c && n != "users" && n != "events" ==> after[n] == c[n])
      && after["users"].unique == ["id", "email"] && |after["users"].rows| == 1 && IsSeededAdmin(after["users"].rows[0])
      && |after["events"].rows| == 2
      && IsSeededEvent(after["events"].rows[0], 1, 1734000000000)
      && IsSeededEvent(after["events"].rows[1], 2, 1736932800000)
  {
    SeedRuns(c);
    SeedKeepsOthers(c);
    SeedStateUsers(c);
    SeedStateEvents(c);
  }

  /** On a new file, `createAllTables` and the seed both run through. */
  lemma FreshOpenRuns(ts: Database)
    requires "users" !in ts && "events" !in ts && "tickets" !in ts
    ensures RunAll(ts, OpenSteps(0)) == Ok(SeedState(Created(ts)))
  {
    CreateAllEffect(ts);
    var c := Created(ts);
    SeedRuns(c);
    RunThen(ts, CREATE_ALL, SEED, c, SeedState(c));
  }

  /** On a new file the seed leaves the tables that were there, and no tickets. */
  lemma FreshOthers(ts: Database, after: Database)
    requires "users" !in ts && "events" !in ts && "tickets" !in ts
    requires after == SeedState(Created(ts))
    ensures forall n :: n in ts ==> n in after && after[n] == ts[n]
    ensures "tickets" in after && after["tickets"].rows == []
  {
    SeedKeepsOthers(Created(ts));
  }

  /** On a new file the seed leaves the admin and the two events. */
  lemma FreshSeeded(ts: Database, after: Database)
    requires "users" !in ts && "events" !in ts && "tickets" !in ts
    requires after == SeedState(Created(ts))
    ensures "users" in after && after["users"].unique == ["id", "email"]
    ensures |after["users"].rows| == 1 && IsSeededAdmin(after["users"].rows[0])
    ensures "events" in after && |after["events"].rows| == 2
    ensures IsSeededEvent(after["events"].rows[0], 1, 1734000000000)
    ensures IsSeededEvent(after["events"].rows[1], 2, 1736932800000)
  {
    var c := Created(ts);
    assert EmptyEntityTables(c);
    SeedStateUsers(c);
    SeedStateEvents(c);
  }

  /** A new file gets Room's three tables with the seed rows: one admin with
      id 1, two active events with their timestamps, no tickets; any table
      already in it is left alone. */
  lemma FreshOpen(ts: Database)
    requires "users" !in ts && "events" !in ts && "tickets" !in ts
    ensures RunAll(ts, OpenSteps(0)).Ok?
    ensures var after := RunAll(ts, OpenSteps(0)).value;
      && (forall n :: n in ts ==> n in after && after[n] == ts[n])
      && "users" in after && after["users"].unique == ["id", "email"]
      && |after["users"].rows| == 1 && IsSeededAdmin(after["users"].rows[0])
      && "events" in after && |after["events"].rows| == 2
      && IsSeededEvent(after["events"].rows[0], 1, 1734000000000)
      && IsSeededEvent(after["events"].rows[1], 2, 1736932800000)
      && "tickets" in after && after["tickets"].rows == []
  {
    FreshOpenRuns(ts);
    FreshOthers(ts, SeedState(Created(ts)));
    FreshSeeded(ts, SeedState(Created(ts)));
  }
}
