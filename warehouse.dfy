/**
  The relational warehouse the importers write to, as in-memory tables.

  Every table is an append-only sequence of rows, each with the value of its auto-increment
  `id` column; `LAST_INSERT_ID()` is the id generated by the most recent insert. A lookup is
  `SELECT id FROM t WHERE c1 = v1 AND ...` with SQL `=`: NULL equals nothing, not even NULL,
  and when several rows match the caller takes the first (`result.iloc[0]`, `fetchone()`).
 */
module Warehouse {
  import opened Wrappers
  import opened Documents

  /** The warehouse tables written by the modelled importers. */
  datatype TableName =
    | DIM_PRF_Location | DIM_PRF_Person | FACT_PRF_Recommendation
    | DIM_PRF_Related | REL_PRF_Person_Related
    | DIM_PRF_Language | REL_PRF_Person_Language
    | DIM_PRF_Trait | REL_PRF_Person_Trait
    | DIM_PRF_Group | REL_PRF_Person_Group
    | DIM_PRF_Duration | FACT_PRF_Qualification | REL_PRF_Person_Qualification
    | FACT_PRF_Accomplishment | REL_PRF_Person_Accomplishment
    | DIM_LIN_Location | FACT_CMP_Company | FACT_CMP_Update | FACT_CMP_Similar
    | DIM_CMP_Specialty | REL_CMP_Company_Specialty | REL_CMP_Company_Location
    | FACT_PRF_Person | FACT_PRF_Related | DIM_PRF_Institution
    | DIM_TJB_Skills

  /** A row: column name to value. A column the row does not have reads as NULL. */
  type Row = map<string, Value>

  datatype Entry = Entry(id: int, row: Row)

  /** The rows in insertion order and the next value of the auto-increment counter. */
  datatype Table = Table(entries: seq<Entry>, autoIncrement: int)

  datatype Db = Db(tables: map<TableName, Table>, lastInsertId: int)

  /** A table that was never written is empty, with its counter at 1. */
  function TableOf(db: Db, t: TableName): Table {
    if t in db.tables then db.tables[t] else Table([], 1)
  }

  function Rows(db: Db, t: TableName): seq<Entry> {
    TableOf(db, t).entries
  }

  /** Generated ids increase with insertion order and stay below the counter. */
  ghost predicate TableValid(tb: Table) {
    && (forall i :: 0 <= i < |tb.entries| ==> tb.entries[i].id < tb.autoIncrement)
    && (forall i, j :: 0 <= i < j < |tb.entries| ==> tb.entries[i].id < tb.entries[j].id)
  }

  ghost predicate Valid(db: Db) {
    forall t :: TableValid(TableOf(db, t))
  }

  // ---------------------------------------------------------------- matching

  /** SQL `=` on one column: NULL is equal to nothing, not even to NULL. */
  predicate SqlEquals(a: Value, b: Value) {
    a != Null && b != Null && a == b
  }

  /** The row satisfies `WHERE c1 = k1 AND c2 = k2 ...` for every column of the key. */
  predicate Matches(row: Row, key: Row) {
    forall c :: c in key ==> c in row && SqlEquals(row[c], key[c])
  }

  /** No column of the key is NULL. */
  predicate NoNulls(key: Row) {
    forall c :: c in key ==> key[c] != Null
  }

  /** The row carries the key's values in the key's columns (it is what gets inserted for that key). */
  predicate Agrees(row: Row, key: Row) {
    forall c :: c in key ==> c in row && row[c] == key[c]
  }

  /** The position of the first row that matches the key, if any. */
  function FindFirst(entries: seq<Entry>, key: Row): (r: Option<nat>)
    ensures r.None? ==> forall i :: 0 <= i < |entries| ==> !Matches(entries[i].row, key)
    ensures r.Some? ==> r.value < |entries| && Matches(entries[r.value].row, key)
    ensures r.Some? ==> forall j :: 0 <= j < r.value ==> !Matches(entries[j].row, key)
  {
    if entries == [] then None
    else if Matches(entries[0].row, key) then Some(0)
    else match FindFirst(entries[1..], key)
      case None => None
      case Some(k) => Some(k + 1)
  }

  /** `SELECT id ... WHERE key`, first row of the result. */
  function SelectId(db: Db, t: TableName, key: Row): Option<int> {
    match FindFirst(Rows(db, t), key)
    case None => None
    case Some(k) => Some(Rows(db, t)[k].id)
  }

  /** How many rows match the key. */
  function CountMatches(entries: seq<Entry>, key: Row): nat {
    if entries == [] then 0
    else CountMatches(entries[..|entries| - 1], key) + (if Matches(entries[|entries| - 1].row, key) then 1 else 0)
  }

  // ---------------------------------------------------------------- writes

  /** `to_sql(t, if_exists='append')` of one row. */
  function Insert(db: Db, t: TableName, row: Row): Db {
    var tb := TableOf(db, t);
    Db(db.tables[t := Table(tb.entries + [Entry(tb.autoIncrement, row)], tb.autoIncrement + 1)], tb.autoIncrement)
  }

  function Numbered(rows: seq<Row>, first: int): (r: seq<Entry>)
    ensures |r| == |rows|
    ensures forall k :: 0 <= k < |rows| ==> r[k] == Entry(first + k, rows[k])
  {
    seq(|rows|, k requires 0 <= k < |rows| => Entry(first + k, rows[k]))
  }

  /** `to_sql` of a frame of several rows, one multi-row INSERT: LAST_INSERT_ID() is the first generated id. */
  function InsertAll(db: Db, t: TableName, rows: seq<Row>): Db {
    if rows == [] then db
    else
      var tb := TableOf(db, t);
      Db(db.tables[t := Table(tb.entries + Numbered(rows, tb.autoIncrement), tb.autoIncrement + |rows|)],
         tb.autoIncrement)
  }

  /** A multi-row insert appends the rows, numbered from the table's counter, after the table's rows. */
  lemma InsertAllAppends(db: Db, t: TableName, rows: seq<Row>)
    ensures Rows(InsertAll(db, t, rows), t) == Rows(db, t) + Numbered(rows, TableOf(db, t).autoIncrement)
  {
    if rows == [] {
      assert Rows(db, t) + Numbered(rows, TableOf(db, t).autoIncrement) == Rows(db, t);
    }
  }

  /** A multi-row insert keeps the table's rows and adds one row per given row, in the given order. */
  lemma InsertAllAppendsInOrder(db: Db, t: TableName, rows: seq<Row>)
    ensures var before := Rows(db, t);
      var after := Rows(InsertAll(db, t, rows), t);
      && |after| == |before| + |rows|
      && after[..|before|] == before
      && forall k :: 0 <= k < |rows| ==> after[|before| + k].row == rows[k]
  {
    InsertAllAppends(db, t, rows);
    AppendedRows(Rows(db, t), Numbered(rows, TableOf(db, t).autoIncrement), rows);
  }

  lemma AppendedRows(before: seq<Entry>, added: seq<Entry>, rows: seq<Row>)
    requires |added| == |rows| && forall k :: 0 <= k < |rows| ==> added[k].row == rows[k]
    ensures var after := before + added;
      && |after| == |before| + |rows|
      && after[..|before|] == before
      && forall k :: 0 <= k < |rows| ==> after[|before| + k].row == rows[k]
  {
    var after := before + added;
    assert after[..|before|] == before;
    forall k | 0 <= k < |rows| ensures after[|before| + k].row == rows[k] {
      assert after[|before| + k] == added[k];
    }
  }

  datatype Resolved = Resolved(db: Db, id: int)

  /**
    The get-or-create step: look the key up; if a row matches, reuse the first one's id,
    otherwise append `row` and read `LAST_INSERT_ID()`.
   */
  function Resolve(db: Db, t: TableName, key: Row, row: Row): Resolved {
    match SelectId(db, t, key)
    case Some(id) => Resolved(db, id)
    case None =>
      var db' := Insert(db, t, row);
      Resolved(db', db'.lastInsertId)
  }

  /** The checked relationship insert: `SELECT * ... WHERE` every column, insert only when empty. */
  function InsertIfAbsent(db: Db, t: TableName, row: Row): Db {
    if SelectId(db, t, row).Some? then db else Insert(db, t, row)
  }

  /** The state after a script step, and the exception it raised, if any (rows already written stay written). */
  datatype Outcome = Outcome(db: Db, error: Option<string>)

  /** Writes only append: every table of `db` is a prefix of the same table in `db'`. */
  ghost predicate Extends(db: Db, db': Db) {
    forall t :: Rows(db, t) <= Rows(db', t)
  }

  lemma ExtendsTransitive(a: Db, b: Db, c: Db)
    requires Extends(a, b) && Extends(b, c)
    ensures Extends(a, c)
  {
  }

  /** Each write appends: insert, multi-row insert, get-or-create and checked insert all extend the warehouse. */
  lemma WritesExtend(db: Db, t: TableName, key: Row, row: Row, rows: seq<Row>)
    ensures Extends(db, Insert(db, t, row))
    ensures Extends(db, InsertAll(db, t, rows))
    ensures Extends(db, Resolve(db, t, key, row).db)
    ensures Extends(db, InsertIfAbsent(db, t, row))
  {
  }

  // ---------------------------------------------------------------- the engine

  /** The SQLAlchemy engine (or pymysql connection) the scripts write through. */
  class Engine {
    var tables: map<TableName, Table>
    var lastInsertId: int

    function State(): Db
      reads this
    {
      Db(tables, lastInsertId)
    }

    constructor (initial: Db)
      ensures State() == initial
    {
      tables := initial.tables;
      lastInsertId := initial.lastInsertId;
    }

    /** `pd.read_sql_query("SELECT id FROM t WHERE ...")` and `result.iloc[0]['id']`. */
    method ReadId(t: TableName, key: Row) returns (id: Option<int>)
      ensures id == SelectId(State(), t, key)
    {
      id := SelectId(State(), t, key);
    }

    /** `frame.to_sql(t, engine, if_exists='append')` with a one-row frame. */
    method ToSql(t: TableName, row: Row)
      modifies this
      ensures State() == Insert(old(State()), t, row)
    {
      var tb := TableOf(State(), t);
      tables := tables[t := Table(tb.entries + [Entry(tb.autoIncrement, row)], tb.autoIncrement + 1)];
      lastInsertId := tb.autoIncrement;
    }

    /** `frame.to_sql(t, engine, if_exists='append')` with a frame of several rows. */
    method ToSqlAll(t: TableName, rows: seq<Row>)
      modifies this
      ensures State() == InsertAll(old(State()), t, rows)
    {
      if rows != [] {
        var tb := TableOf(State(), t);
        tables := tables[t := Table(tb.entries + Numbered(rows, tb.autoIncrement), tb.autoIncrement + |rows|)];
        lastInsertId := tb.autoIncrement;
      }
    }

    /** `SELECT LAST_INSERT_ID()`. */
    method LastInsertId() returns (id: int)
      ensures id == State().lastInsertId
    {
      id := lastInsertId;
    }
  }

  /** Look the key up and reuse the first match's id, or append the row and read its generated id. */
  method GetOrCreate(dwh: Engine, t: TableName, key: Row, row: Row) returns (id: int)
    modifies dwh
    ensures dwh.State() == Resolve(old(dwh.State()), t, key, row).db
    ensures id == Resolve(old(dwh.State()), t, key, row).id
  {
    var found := dwh.ReadId(t, key);
    if found.Some? {
      id := found.value;
    } else {
      dwh.ToSql(t, row);
      id := dwh.LastInsertId();
    }
  }

  /** Check for an identical relationship row and append one only when there is none. */
  method InsertUnlessPresent(dwh: Engine, t: TableName, row: Row)
    modifies dwh
    ensures dwh.State() == InsertIfAbsent(old(dwh.State()), t, row)
  {
    var found := dwh.ReadId(t, row);
    if found.None? {
      dwh.ToSql(t, row);
    }
  }

  // ---------------------------------------------------------------- properties

  /** Appending a row after rows that do not match leaves the search result on the new row exactly when it matches. */
  lemma {:induction false} FindFirstAppend(entries: seq<Entry>, e: Entry, key: Row)
    ensures FindFirst(entries + [e], key) ==
      (match FindFirst(entries, key)
       case Some(k) => Some(k)
       case None => if Matches(e.row, key) then Some(|entries|) else None)
  {
    if entries != [] {
      assert (entries + [e])[1..] == entries[1..] + [e];
      FindFirstAppend(entries[1..], e, key);
    }
  }

  /** No row matches exactly when the count of matching rows is zero. */
  lemma {:induction false} CountZeroIffNone(entries: seq<Entry>, key: Row)
    ensures CountMatches(entries, key) == 0 <==> FindFirst(entries, key).None?
  {
    if entries != [] {
      var init := entries[..|entries| - 1];
      var last := entries[|entries| - 1];
      assert entries == init + [last];
      CountZeroIffNone(init, key);
      FindFirstAppend(init, last, key);
    }
  }

  /** Counting over an appended row. */
  lemma CountAppend(entries: seq<Entry>, e: Entry, key: Row)
    ensures CountMatches(entries + [e], key) == CountMatches(entries, key) + (if Matches(e.row, key) then 1 else 0)
  {
    assert (entries + [e])[..|entries|] == entries;
  }

  /** A row inserted for its own key (no NULLs, agreeing values) matches that key. */
  lemma AgreeingRowMatches(row: Row, key: Row)
    requires NoNulls(key) && Agrees(row, key)
    ensures Matches(row, key)
  {
  }

  /** A key with a NULL column matches no row, so the lookup always misses and a fresh row is appended. */
  lemma NullKeyAlwaysAppends(db: Db, t: TableName, key: Row, row: Row, c: string)
    requires c in key && key[c] == Null
    ensures SelectId(db, t, key) == None
    ensures Resolve(db, t, key, row).db == Insert(db, t, row)
    ensures Resolve(db, t, key, row).id == TableOf(db, t).autoIncrement
    ensures |Rows(Resolve(db, t, key, row).db, t)| == |Rows(db, t)| + 1
  {
  }

  /**
    What get-or-create returns: for a key without NULLs, the id of a row of the table that
    matches the key; the table either stays as it was or grows by exactly the given row.
   */
  lemma ResolveFindsMatchingRow(db: Db, t: TableName, key: Row, row: Row)
    requires NoNulls(key) && Agrees(row, key)
    ensures var r := Resolve(db, t, key, row);
      exists i :: 0 <= i < |Rows(r.db, t)| && Rows(r.db, t)[i].id == r.id && Matches(Rows(r.db, t)[i].row, key)
    ensures var r := Resolve(db, t, key, row);
      (SelectId(db, t, key).Some? && r.db == db) ||
      (SelectId(db, t, key).None? && Rows(r.db, t) == Rows(db, t) + [Entry(TableOf(db, t).autoIncrement, row)]
       && r.id == TableOf(db, t).autoIncrement)
  {
    var r := Resolve(db, t, key, row);
    if SelectId(db, t, key).None? {
      var n := |Rows(db, t)|;
      assert Rows(r.db, t)[n] == Entry(TableOf(db, t).autoIncrement, row);
    }
  }

  /**
    Get-or-create is idempotent for a key without NULLs: resolving the same key again returns
    the same id and writes nothing.
   */
  lemma {:induction false} ResolveIdempotent(db: Db, t: TableName, key: Row, row: Row)
    requires NoNulls(key) && Agrees(row, key)
    ensures var r := Resolve(db, t, key, row);
      Resolve(r.db, t, key, row) == r
    ensures var r := Resolve(db, t, key, row);
      SelectId(r.db, t, key) == Some(r.id)
  {
    var r := Resolve(db, t, key, row);
    if SelectId(db, t, key).None? {
      var tb := TableOf(db, t);
      assert Rows(r.db, t) == tb.entries + [Entry(tb.autoIncrement, row)];
      FindFirstAppend(tb.entries, Entry(tb.autoIncrement, row), key);
    }
  }

  /** A key that already has a match keeps the same first match after any get-or-create on the table. */
  lemma ResolveKeepsFound(db: Db, t: TableName, key: Row, row: Row, other: Row)
    requires SelectId(db, t, other).Some?
    ensures SelectId(Resolve(db, t, key, row).db, t, other) == SelectId(db, t, other)
  {
    if SelectId(db, t, key).None? {
      var tb := TableOf(db, t);
      FindFirstAppend(tb.entries, Entry(tb.autoIncrement, row), other);
    }
  }

  /** A checked insert into one table leaves every other table as it was. */
  lemma InsertIfAbsentFrame(db: Db, t: TableName, row: Row, u: TableName, key: Row)
    requires u != t
    ensures TableOf(InsertIfAbsent(db, t, row), u) == TableOf(db, u)
    ensures SelectId(InsertIfAbsent(db, t, row), u, key) == SelectId(db, u, key)
  {
  }

  /**
    A key resolved once stays resolved to the same id after a checked insert into another table:
    the pattern of a get-or-create followed by its relationship insert.
   */
  lemma ResolveSurvivesOtherInsert(db: Db, t: TableName, key: Row, row: Row, u: TableName, rel: Row)
    requires NoNulls(key) && Agrees(row, key) && u != t
    ensures var r := Resolve(db, t, key, row);
      var d := InsertIfAbsent(r.db, u, rel);
      Resolve(d, t, key, row) == Resolved(d, r.id)
  {
    var r := Resolve(db, t, key, row);
    ResolveIdempotent(db, t, key, row);
    InsertIfAbsentFrame(r.db, u, rel, t, key);
  }

  /** Every table keeps its ids increasing after one insert. */
  lemma InsertValid(db: Db, t: TableName, row: Row)
    requires Valid(db)
    ensures Valid(Insert(db, t, row))
    ensures Rows(Insert(db, t, row), t) == Rows(db, t) + [Entry(TableOf(db, t).autoIncrement, row)]
    ensures forall u :: u != t ==> TableOf(Insert(db, t, row), u) == TableOf(db, u)
  {
    var db' := Insert(db, t, row);
    forall u ensures TableValid(TableOf(db', u)) {
      if u == t {
        assert TableValid(TableOf(db, t));
      } else {
        assert TableOf(db', u) == TableOf(db, u);
      }
    }
  }

  /** The checked insert is idempotent: a second identical call writes nothing. */
  lemma {:induction false} InsertIfAbsentIdempotent(db: Db, t: TableName, row: Row)
    requires NoNulls(row)
    ensures InsertIfAbsent(InsertIfAbsent(db, t, row), t, row) == InsertIfAbsent(db, t, row)
  {
    if SelectId(db, t, row).None? {
      var tb := TableOf(db, t);
      AgreeingRowMatches(row, row);
      FindFirstAppend(tb.entries, Entry(tb.autoIncrement, row), row);
    }
  }

  /**
    After the checked insert of a row without NULLs, the table holds at least one row equal
    to it, and exactly one when it held none before.
   */
  lemma {:induction false} InsertIfAbsentCount(db: Db, t: TableName, row: Row)
    requires NoNulls(row)
    ensures var n := CountMatches(Rows(db, t), row);
      CountMatches(Rows(InsertIfAbsent(db, t, row), t), row) == if n == 0 then 1 else n
  {
    var tb := TableOf(db, t);
    CountZeroIffNone(tb.entries, row);
    if SelectId(db, t, row).None? {
      AgreeingRowMatches(row, row);
      CountAppend(tb.entries, Entry(tb.autoIncrement, row), row);
    }
  }

  /** At most one row of the table matches any key over the given columns. */
  ghost predicate AtMostOnePerKey(entries: seq<Entry>, cols: set<string>) {
    forall key: Row :: key.Keys == cols ==> CountMatches(entries, key) <= 1
  }

  /**
    The dimension invariant of a sequential writer: if every key over `cols` matches at most
    one row, resolving a key over `cols` (inserting a row that carries it) keeps it so.
   */
  lemma {:induction false} ResolveKeepsAtMostOne(db: Db, t: TableName, key: Row, row: Row)
    requires Agrees(row, key)
    requires AtMostOnePerKey(Rows(db, t), key.Keys)
    ensures AtMostOnePerKey(Rows(Resolve(db, t, key, row).db, t), key.Keys)
  {
    var tb := TableOf(db, t);
    if SelectId(db, t, key).None? {
      var e := Entry(tb.autoIncrement, row);
      assert Rows(Resolve(db, t, key, row).db, t) == tb.entries + [e];
      forall key': Row | key'.Keys == key.Keys
        ensures CountMatches(tb.entries + [e], key') <= 1
      {
        CountAppend(tb.entries, e, key');
        if Matches(row, key') {
          assert key' == key by {
            forall c | c in key ensures key'[c] == key[c] {
              assert row[c] == key[c];
            }
          }
          CountZeroIffNone(tb.entries, key);
        }
      }
    }
  }
}
