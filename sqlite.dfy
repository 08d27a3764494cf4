/** An SQLite database file at the level the schema code works on: tables of
    named columns with defaults, rows as column-to-value maps in rowid order,
    UNIQUE constraints (NULLs never clash), and the statements the Room
    migrations and the legacy `DatabaseHelper` issue. A statement either
    fails with SQLite's error message and changes nothing, or succeeds. */
module Sqlite {
  import opened Strings
  import opened Tables

  datatype Value = Null | Integer(i: int) | Real(r: real) | Text(s: string)

  datatype Column = Column(name: string, default: Value)

  type Row = map<string, Value>

  /** Columns in declaration order; the columns under a UNIQUE constraint or
      unique index, the INTEGER PRIMARY KEY `id` first; rows in rowid order. */
  datatype Table = Table(columns: seq<Column>, unique: seq<string>, rows: seq<Row>)

  /** The tables of a file by name. */
  type Database = map<string, Table>

  function Names(cols: seq<Column>): set<string> {
    set c | c in cols :: c.name
  }

  lemma NameListed(cols: seq<Column>, k: nat)
    requires k < |cols|
    ensures cols[k].name in Names(cols)
  {
    assert cols[k] in cols;
  }

  /** Every row holds a value for exactly the table's columns. */
  predicate Shaped(t: Table) {
    forall r :: r in t.rows ==> r.Keys == Names(t.columns)
  }

  /** The declared default of column `c`; NULL when it declares none. */
  function Default(cols: seq<Column>, c: string): (v: Value)
    ensures v != Null ==> c in Names(cols)
    decreases |cols|
  {
    if cols == [] then Null
    else if cols[0].name == c then cols[0].default
    else Default(cols[1..], c)
  }

  /** The default of the first column with a given name. */
  lemma {:induction false} DefaultAt(cols: seq<Column>, k: nat)
    requires k < |cols| && forall i :: 0 <= i < k ==> cols[i].name != cols[k].name
    ensures Default(cols, cols[k].name) == cols[k].default
  {
    if k > 0 {
      DefaultAt(cols[1..], k - 1);
    }
  }

  /** UNIQUE on `col`: no two rows share a value there, NULLs apart. */
  predicate UniqueIn(rows: seq<Row>, col: string) {
    forall i, j :: 0 <= i < j < |rows| && col in rows[i] && col in rows[j] && rows[i][col] != Null ==>
      rows[i][col] != rows[j][col]
  }

  /** The first unique column, in declaration order, that `rows` violate. */
  function FirstViolation(unique: seq<string>, rows: seq<Row>): (v: Option<string>)
    ensures v.None? <==> forall k :: 0 <= k < |unique| ==> UniqueIn(rows, unique[k])
    ensures v.Some? ==> v.value in unique && !UniqueIn(rows, v.value)
    decreases |unique|
  {
    if unique == [] then None
    else if !UniqueIn(rows, unique[0]) then Some(unique[0])
    else FirstViolation(unique[1..], rows)
  }

  /** The first of `cols` that is not among `names`. */
  function FirstMissing(cols: seq<string>, names: set<string>): (m: Option<string>)
    ensures m.None? <==> forall k :: 0 <= k < |cols| ==> cols[k] in names
    ensures m.Some? ==> m.value in cols && m.value !in names
    decreases |cols|
  {
    if cols == [] then None
    else if cols[0] !in names then Some(cols[0])
    else FirstMissing(cols[1..], names)
  }

  /** The largest integer `id` of the rows, 0 when there is none. */
  function MaxId(rows: seq<Row>): (m: int)
    ensures m >= 0
    ensures forall k :: 0 <= k < |rows| && "id" in rows[k] && rows[k]["id"].Integer? ==> rows[k]["id"].i <= m
    decreases |rows|
  {
    if rows == [] then 0
    else
      var rest := MaxId(rows[1..]);
      if "id" in rows[0] && rows[0]["id"].Integer? && rows[0]["id"].i > rest then rows[0]["id"].i else rest
  }

  /** The row an INSERT adds: the listed values, a fresh rowid for an unlisted
      `id`, and every other column's default. */
  function NewRow(t: Table, values: map<string, Value>): (r: Row)
    ensures r.Keys == Names(t.columns)
  {
    map c | c in Names(t.columns) ::
      if c in values then values[c]
      else if c == "id" then Integer(MaxId(t.rows) + 1)
      else Default(t.columns, c)
  }

  /** A listed column holds the listed value. */
  lemma NewRowListed(t: Table, values: map<string, Value>, c: string)
    requires c in Names(t.columns) && c in values
    ensures c in NewRow(t, values) && NewRow(t, values)[c] == values[c]
  {
  }

  /** An unlisted `id` gets one more than the largest rowid so far. */
  lemma NewRowId(t: Table, values: map<string, Value>)
    requires "id" in Names(t.columns) && "id" !in values
    ensures "id" in NewRow(t, values) && NewRow(t, values)["id"] == Integer(MaxId(t.rows) + 1)
  {
  }

  /** The largest rowid of a single row is its own. */
  lemma MaxIdOne(w: Row, id: nat)
    requires "id" in w && w["id"] == Integer(id)
    ensures MaxId([w]) == id
  {
    assert [w][1..] == [];
  }

  /** An unlisted column other than `id` gets its declared default. */
  lemma NewRowDefault(t: Table, values: map<string, Value>, c: string)
    requires c in Names(t.columns) && c !in values && c != "id"
    ensures c in NewRow(t, values) && NewRow(t, values)[c] == Default(t.columns, c)
  {
  }

  /** A row given the next rowid keeps the rowids unique. */
  lemma NextIdUnique(rows: seq<Row>, row: Row)
    requires UniqueIn(rows, "id") && "id" in row && row["id"] == Integer(MaxId(rows) + 1)
    ensures UniqueIn(rows + [row], "id")
  {
    var all := rows + [row];
    forall i, j | 0 <= i < j < |all| && "id" in all[i] && "id" in all[j] && all[i]["id"] != Null
      ensures all[i]["id"] != all[j]["id"]
    {
      assert all[i] == rows[i];
      if j < |rows| {
        assert all[j] == rows[j];
      }
    }
  }

  lemma NamesAppend(cols: seq<Column>, col: Column)
    ensures Names(cols + [col]) == Names(cols) + {col.name}
  {
    assert col in cols + [col];
    forall n | n in Names(cols) ensures n in Names(cols + [col]) {
      var c :| c in cols && c.name == n;
      assert c in cols + [col];
    }
  }

  /** The rows `INSERT INTO target (cols) SELECT cols FROM source` adds. */
  function CopiedRows(target: seq<Column>, source: seq<Row>, cols: seq<string>): (r: seq<Row>)
    ensures |r| == |source|
    ensures forall k :: 0 <= k < |source| ==> r[k].Keys == Names(target)
  {
    seq(|source|, k requires 0 <= k < |source| =>
      map c | c in Names(target) :: if c in cols && c in source[k] then source[k][c] else Default(target, c))
  }

  /** `WHERE column = value`: never true on a NULL. */
  function Matching(column: string, value: Value): Row -> bool {
    (r: Row) => value != Null && column in r && r[column] == value
  }

  function NotMatching(column: string, value: Value): Row -> bool {
    (r: Row) => !Matching(column, value)(r)
  }

  function UniqueFailure(table: string, column: string): string {
    "UNIQUE constraint failed: " + table + "." + column
  }

  /** An INSERT naming a column the table lacks (the model does not say which). */
  function UnknownColumn(table: string): string {
    "table " + table + " has no such column"
  }

  function NoSuchTable(table: string): string {
    "no such table: " + table
  }

  datatype Stmt =
    | CreateTable(name: string, columns: seq<Column>, unique: seq<string>, ifNotExists: bool)
    | AddColumn(table: string, added: Column)
    | DropTable(name: string, ifExists: bool)
    | RenameTable(from: string, to: string)
    | CreateUniqueIndex(table: string, column: string)
    | CopyRows(target: string, source: string, copied: seq<string>)
    | Insert(table: string, values: map<string, Value>)
    | DeleteWhere(table: string, column: string, value: Value)

  function CreateTableIn(ts: Database, name: string, cols: seq<Column>, unique: seq<string>, ifNotExists: bool): Result<Database> {
    if name !in ts then Ok(ts[name := Table(cols, unique, [])])
    else if ifNotExists then Ok(ts)
    else Err("table " + name + " already exists")
  }

  function AddColumnIn(ts: Database, name: string, col: Column): Result<Database> {
    if name !in ts then Err(NoSuchTable(name))
    else if col.name in Names(ts[name].columns) then Err("duplicate column name: " + col.name)
    else
      var t := ts[name];
      Ok(ts[name := t.(columns := t.columns + [col],
                       rows := seq(|t.rows|, k requires 0 <= k < |t.rows| => t.rows[k][col.name := col.default]))])
  }

  function DropTableIn(ts: Database, name: string, ifExists: bool): Result<Database> {
    if name in ts then Ok(ts - {name})
    else if ifExists then Ok(ts)
    else Err(NoSuchTable(name))
  }

  function RenameTableIn(ts: Database, from: string, to: string): Result<Database> {
    if from !in ts then Err(NoSuchTable(from))
    else if to in ts then Err("there is already another table or index with this name: " + to)
    else Ok((ts - {from})[to := ts[from]])
  }

  function CreateUniqueIndexIn(ts: Database, name: string, col: string): Result<Database> {
    if name !in ts then Err(NoSuchTable(name))
    else if col !in Names(ts[name].columns) then Err("no such column: " + col)
    else if col in ts[name].unique then Ok(ts)
    else if !UniqueIn(ts[name].rows, col) then Err(UniqueFailure(name, col))
    else Ok(ts[name := ts[name].(unique := ts[name].unique + [col])])
  }

  function CopyRowsIn(ts: Database, target: string, source: string, cols: seq<string>): Result<Database> {
    if target !in ts then Err(NoSuchTable(target))
    else if source !in ts then Err(NoSuchTable(source))
    else if FirstMissing(cols, Names(ts[source].columns)).Some? then
      Err("no such column: " + FirstMissing(cols, Names(ts[source].columns)).value)
    else if FirstMissing(cols, Names(ts[target].columns)).Some? then
      Err("table " + target + " has no column named " + FirstMissing(cols, Names(ts[target].columns)).value)
    else
      var t := ts[target];
      var rows := t.rows + CopiedRows(t.columns, ts[source].rows, cols);
      if FirstViolation(t.unique, rows).Some? then Err(UniqueFailure(target, FirstViolation(t.unique, rows).value))
      else Ok(ts[target := t.(rows := rows)])
  }

  function InsertIn(ts: Database, name: string, values: map<string, Value>): Result<Database> {
    if name !in ts then Err(NoSuchTable(name))
    else if !(values.Keys <= Names(ts[name].columns)) then Err(UnknownColumn(name))
    else
      var t := ts[name];
      var rows := t.rows + [NewRow(t, values)];
      if FirstViolation(t.unique, rows).Some? then Err(UniqueFailure(name, FirstViolation(t.unique, rows).value))
      else Ok(ts[name := t.(rows := rows)])
  }

  function DeleteWhereIn(ts: Database, name: string, col: string, v: Value): Result<Database> {
    if name !in ts then Err(NoSuchTable(name))
    else Ok(ts[name := ts[name].(rows := Filter(ts[name].rows, NotMatching(col, v)))])
  }

  /** One statement: the new tables, or SQLite's error with nothing changed. */
  function Exec(ts: Database, s: Stmt): Result<Database> {
    match s
    case CreateTable(name, cols, unique, ifNotExists) => CreateTableIn(ts, name, cols, unique, ifNotExists)
    case AddColumn(name, col) => AddColumnIn(ts, name, col)
    case DropTable(name, ifExists) => DropTableIn(ts, name, ifExists)
    case RenameTable(from, to) => RenameTableIn(ts, from, to)
    case CreateUniqueIndex(name, col) => CreateUniqueIndexIn(ts, name, col)
    case CopyRows(target, source, cols) => CopyRowsIn(ts, target, source, cols)
    case Insert(name, values) => InsertIn(ts, name, values)
    case DeleteWhere(name, col, v) => DeleteWhereIn(ts, name, col, v)
  }

  /** Statements in one transaction: the first failure aborts, and its error
      is the outcome. */
  function RunAll(ts: Database, stmts: seq<Stmt>): Result<Database>
    decreases |stmts|
  {
    if stmts == [] then Ok(ts)
    else
      match Exec(ts, stmts[0])
      case Err(msg) => Err(msg)
      case Ok(next) => RunAll(next, stmts[1..])
  }

  /** The statements that can bring a table called `name` into existence. */
  predicate MayCreate(s: Stmt, name: string) {
    (s.CreateTable? && s.name == name) || (s.RenameTable? && s.to == name)
  }

  /** A table that is absent stays absent through statements that cannot create it. */
  lemma {:induction false} RunAllKeepsAbsent(ts: Database, stmts: seq<Stmt>, name: string)
    requires name !in ts
    requires forall k :: 0 <= k < |stmts| ==> !MayCreate(stmts[k], name)
    ensures RunAll(ts, stmts).Ok? ==> name !in RunAll(ts, stmts).value
    decreases |stmts|
  {
    if stmts != [] {
      match Exec(ts, stmts[0])
      case Err(_) =>
      case Ok(next) =>
        assert name !in next;
        RunAllKeepsAbsent(next, stmts[1..], name);
    }
  }

  /** A statement that succeeds at the head of a list hands its result on. */
  lemma RunAllStep(ts: Database, stmts: seq<Stmt>, next: Database)
    requires stmts != [] && Exec(ts, stmts[0]) == Ok(next)
    ensures RunAll(ts, stmts) == RunAll(next, stmts[1..])
  {
  }

  lemma RunOne(ts: Database, s: Stmt)
    ensures RunAll(ts, [s]) == Exec(ts, s)
  {
    assert [s][1..] == [];
  }


  /** One insert with every listed column present and the constraints kept. */
  lemma InsertStep(ts: Database, name: string, values: map<string, Value>, row: Row)
    requires name in ts && values.Keys <= Names(ts[name].columns)
    requires row == NewRow(ts[name], values)
    requires FirstViolation(ts[name].unique, ts[name].rows + [row]).None?
    ensures Exec(ts, Insert(name, values)) == Ok(ts[name := ts[name].(rows := ts[name].rows + [row])])
  {
    assert Exec(ts, Insert(name, values)) == InsertIn(ts, name, values);
  }


  /** An insert into a table whose only constraint is its rowid always goes in,
      under the next rowid. */
  lemma RowidInsert(ts: Database, name: string, values: map<string, Value>)
    requires name in ts && ts[name].unique == ["id"] && UniqueIn(ts[name].rows, "id")
    requires values.Keys <= Names(ts[name].columns) && "id" in Names(ts[name].columns) && "id" !in values
    ensures var t := ts[name];
      && Exec(ts, Insert(name, values)) == Ok(ts[name := t.(rows := t.rows + [NewRow(t, values)])])
      && UniqueIn(t.rows + [NewRow(t, values)], "id")
  {
    var t := ts[name];
    var row := NewRow(t, values);
    NewRowId(t, values);
    NextIdUnique(t.rows, row);
    InsertStep(ts, name, values, row);
  }

  /** Two rows as they land, one after the other, in an empty table. */
  function TwoRows(t: Table, first: map<string, Value>, second: map<string, Value>): (rows: seq<Row>)
    ensures |rows| == 2
  {
    var w := NewRow(t, first);
    [w, NewRow(t.(rows := [w]), second)]
  }

  /** Two statements that both succeed. */
  lemma RunTwo(ts: Database, s1: Stmt, s2: Stmt, mid: Database, end: Database)
    requires Exec(ts, s1) == Ok(mid) && Exec(mid, s2) == Ok(end)
    ensures RunAll(ts, [s1, s2]) == Ok(end)
  {
    assert [s1, s2][1..] == [s2];
    RunOne(mid, s2);
  }

  /** An insert into an empty table whose only constraint is its rowid. */
  lemma FirstRowidInsert(ts: Database, name: string, values: map<string, Value>)
    requires name in ts && ts[name].unique == ["id"] && ts[name].rows == [] && "id" in Names(ts[name].columns)
    requires values.Keys <= Names(ts[name].columns) && "id" !in values
    ensures var t := ts[name];
      Exec(ts, Insert(name, values)) == Ok(ts[name := t.(rows := [NewRow(t, values)])])
  {
    var t := ts[name];
    assert t.rows + [NewRow(t, values)] == [NewRow(t, values)];
    RowidInsert(ts, name, values);
  }

  /** An insert into a table holding one row, under a rowid constraint only. */
  lemma SecondRowidInsert(ts: Database, name: string, w: Row, values: map<string, Value>)
    requires name in ts && ts[name].unique == ["id"] && ts[name].rows == [w] && "id" in Names(ts[name].columns)
    requires values.Keys <= Names(ts[name].columns) && "id" !in values
    ensures var t := ts[name];
      Exec(ts, Insert(name, values)) == Ok(ts[name := t.(rows := [w, NewRow(t, values)])])
  {
    var t := ts[name];
    assert t.rows + [NewRow(t, values)] == [w, NewRow(t, values)];
    RowidInsert(ts, name, values);
  }

  /** Two inserts into an empty table whose only constraint is its rowid both go in. */
  lemma TwoRowidInserts(ts: Database, name: string, first: map<string, Value>, second: map<string, Value>)
    requires name in ts && ts[name].unique == ["id"] && ts[name].rows == [] && "id" in Names(ts[name].columns)
    requires first.Keys <= Names(ts[name].columns) && "id" !in first
    requires second.Keys <= Names(ts[name].columns) && "id" !in second
    ensures RunAll(ts, [Insert(name, first), Insert(name, second)]) ==
      Ok(ts[name := ts[name].(rows := TwoRows(ts[name], first, second))])
  {
    var t0 := ts[name];
    var w := NewRow(t0, first);
    FirstRowidInsert(ts, name, first);
    var ts1 := ts[name := t0.(rows := [w])];
    SecondRowidInsert(ts1, name, w, second);
    var t1 := ts1[name];
    var end := ts1[name := t1.(rows := [w, NewRow(t1, second)])];
    RunTwo(ts, Insert(name, first), Insert(name, second), ts1, end);
    assert t1 == t0.(rows := [w]);
    assert end == ts[name := t0.(rows := [w, NewRow(t1, second)])];
  }

  /** A row inserted into an empty table keeps every unique constraint. */
  lemma FirstRowUnique(unique: seq<string>, row: Row)
    ensures FirstViolation(unique, [row]).None?
  {
  }


  /** Three statements that each succeed. */
  lemma RunThree(ts: Database, s0: Stmt, s1: Stmt, s2: Stmt, t1: Database, t2: Database, t3: Database)
    requires Exec(ts, s0) == Ok(t1) && Exec(t1, s1) == Ok(t2) && Exec(t2, s2) == Ok(t3)
    ensures RunAll(ts, [s0, s1, s2]) == Ok(t3)
  {
    assert [s0, s1, s2][1..] == [s1, s2] && [s1, s2][1..] == [s2];
    RunAllStep(ts, [s0, s1, s2], t1);
    RunAllStep(t1, [s1, s2], t2);
    RunOne(t2, s2);
  }


  /** Adding a column the table lacks: it goes last, the constraints stay, and
      no other table changes. */
  lemma AddColumnStep(ts: Database, name: string, col: Column)
    requires name in ts && col.name !in Names(ts[name].columns)
    ensures Exec(ts, AddColumn(name, col)).Ok?
    ensures var after := Exec(ts, AddColumn(name, col)).value;
      && after.Keys == ts.Keys
      && after[name].columns == ts[name].columns + [col] && after[name].unique == ts[name].unique
      && |after[name].rows| == |ts[name].rows|
      && (forall n :: n in ts && n != name ==> after[n] == ts[n])
  {
  }

  /** The copy into an empty table that has every copied column and whose
      constraints the copied rows keep. */
  lemma CopyRowsStep(ts: Database, target: string, source: string, cols: seq<string>)
    requires target in ts && source in ts && ts[target].rows == []
    requires FirstMissing(cols, Names(ts[source].columns)).None?
    requires FirstMissing(cols, Names(ts[target].columns)).None?
    requires FirstViolation(ts[target].unique, CopiedRows(ts[target].columns, ts[source].rows, cols)).None?
    ensures Exec(ts, CopyRows(target, source, cols)) ==
            Ok(ts[target := ts[target].(rows := CopiedRows(ts[target].columns, ts[source].rows, cols))])
  {
    var copied := CopiedRows(ts[target].columns, ts[source].rows, cols);
    assert ts[target].rows + copied == copied;
    assert Exec(ts, CopyRows(target, source, cols)) == CopyRowsIn(ts, target, source, cols);
  }

  /** Statements run until the first failure, keeping what ran before it. */
  function RunUntilError(ts: Database, stmts: seq<Stmt>): Database
    decreases |stmts|
  {
    if stmts == [] then ts
    else
      match Exec(ts, stmts[0])
      case Err(_) => ts
      case Ok(next) => RunUntilError(next, stmts[1..])
  }

  /** The statements that can remove a table: DROP TABLE and a rename. */
  predicate MayRemove(s: Stmt) {
    s.DropTable? || s.RenameTable?
  }

  /** Statements that cannot remove a table keep every table, wherever they stop. */
  lemma {:induction false} RunUntilErrorKeepsTables(ts: Database, stmts: seq<Stmt>)
    requires forall k :: 0 <= k < |stmts| ==> !MayRemove(stmts[k])
    ensures ts.Keys <= RunUntilError(ts, stmts).Keys
    decreases |stmts|
  {
    if stmts != [] {
      match Exec(ts, stmts[0])
      case Err(_) =>
      case Ok(next) =>
        assert ts.Keys <= next.Keys;
        RunUntilErrorKeepsTables(next, stmts[1..]);
    }
  }

  /** Both facts above about the statements run until the first error. */
  lemma RunUntilErrorFacts(ts: Database, stmts: seq<Stmt>)
    ensures RunAll(ts, stmts).Ok? ==> RunUntilError(ts, stmts) == RunAll(ts, stmts).value
    ensures (forall k :: 0 <= k < |stmts| ==> !MayRemove(stmts[k])) ==> ts.Keys <= RunUntilError(ts, stmts).Keys
  {
    if RunAll(ts, stmts).Ok? {
      RunUntilErrorAgrees(ts, stmts);
    }
    if forall k :: 0 <= k < |stmts| ==> !MayRemove(stmts[k]) {
      RunUntilErrorKeepsTables(ts, stmts);
    }
  }

  /** Running two lists in a row is running their concatenation. */
  lemma {:induction false} RunAllAppend(ts: Database, a: seq<Stmt>, b: seq<Stmt>)
    ensures RunAll(ts, a + b) == match RunAll(ts, a) case Err(m) => Err(m) case Ok(t) => RunAll(t, b)
    decreases |a|
  {
    if a != [] {
      assert (a + b)[0] == a[0] && (a + b)[1..] == a[1..] + b;
      match Exec(ts, a[0]) {
        case Err(_) =>
        case Ok(next) => RunAllAppend(next, a[1..], b);
      }
    } else {
      assert a + b == b;
    }
  }

  /** Two lists that run through one after the other. */
  lemma RunThen(ts: Database, a: seq<Stmt>, b: seq<Stmt>, mid: Database, end: Database)
    requires RunAll(ts, a) == Ok(mid) && RunAll(mid, b) == Ok(end)
    ensures RunAll(ts, a + b) == Ok(end)
  {
    RunAllAppend(ts, a, b);
  }

  /** A list that runs through leaves the same tables under either runner. */
  lemma {:induction false} RunUntilErrorAgrees(ts: Database, stmts: seq<Stmt>)
    requires RunAll(ts, stmts).Ok?
    ensures RunUntilError(ts, stmts) == RunAll(ts, stmts).value
    decreases |stmts|
  {
    if stmts != [] {
      RunUntilErrorAgrees(Exec(ts, stmts[0]).value, stmts[1..]);
    }
  }

  /** A database connection's file; `execSQL` applies one statement. */
  class SqliteFile {
    var tables: Database

    constructor Empty()
      ensures tables == map[]
    {
      tables := map[];
    }

    method ExecSQL(s: Stmt) returns (r: Result<()>)
      modifies this
      ensures Exec(old(tables), s).Ok? ==> r == Ok(()) && tables == Exec(old(tables), s).value
      ensures Exec(old(tables), s).Err? ==> r == Err(Exec(old(tables), s).error) && tables == old(tables)
    {
      match Exec(tables, s) {
        case Ok(next) => tables := next; r := Ok(());
        case Err(msg) => r := Err(msg);
      }
    }
  }

  /** The statements one after another, stopping at the first that throws:
      the file keeps what ran before it, and its error is reported. */
  method ExecAll(db: SqliteFile, stmts: seq<Stmt>) returns (r: Result<()>)
    modifies db
    ensures db.tables == RunUntilError(old(db.tables), stmts)
    ensures r.Ok? <==> RunAll(old(db.tables), stmts).Ok?
    ensures r.Ok? ==> db.tables == RunAll(old(db.tables), stmts).value
    ensures r.Err? ==> r.error == RunAll(old(db.tables), stmts).error
  {
    var i := 0;
    while i < |stmts|
      invariant 0 <= i <= |stmts|
      invariant RunUntilError(old(db.tables), stmts) == RunUntilError(db.tables, stmts[i..])
      invariant RunAll(old(db.tables), stmts) == RunAll(db.tables, stmts[i..])
    {
      assert stmts[i..][0] == stmts[i] && stmts[i..][1..] == stmts[i + 1..];
      var res := db.ExecSQL(stmts[i]);
      if res.Err? {
        return res;
      }
      i := i + 1;
    }
    r := Ok(());
  }

  /** The statements in one transaction: on the first failure the file is
      rolled back to where it was and the error is reported. */
  method InTransaction(db: SqliteFile, stmts: seq<Stmt>) returns (r: Result<()>)
    modifies db
    ensures r.Ok? <==> RunAll(old(db.tables), stmts).Ok?
    ensures r.Ok? ==> db.tables == RunAll(old(db.tables), stmts).value
    ensures r.Err? ==> r.error == RunAll(old(db.tables), stmts).error && db.tables == old(db.tables)
  {
    var snapshot := db.tables;
    r := ExecAll(db, stmts);
    if r.Err? {
      db.tables := snapshot;
    }
  }
}
