/**
  The batch loader for the tech-jobs skills CSV. The header's skill columns are every column
  that is not one of ten fixed employee columns; each skill gets its id in DIM_TJB_Skills by
  get-or-create. Then every data row long enough queues one employee tuple and one
  (employee, skill) pair per skill cell equal to "1"; the two buffers are sent with
  `executemany` whenever they reach the batch size, and once more at the end.

  Only IndexError is caught inside the row loop (the rest of that row is abandoned, what it
  already queued stays queued); a ValueError from `int` ends the script, and whatever is still
  buffered is then never sent.
 */
module TjbEtl {
  import opened Wrappers
  import opened Documents
  import opened Warehouse

  // ---------------------------------------------------------------- CSV cells

  /** The ten employee columns; every other header column is taken for a skill. */
  const NonSkillColumns: seq<string> :=
    ["Age", "EdLevel", "Employment", "Gender", "MainBranch", "YearsCode", "Country", "PreviousSalary", "ComputerSkills", "Employed"]

  /** The buffers are sent once they hold this many tuples. */
  const BatchSize: nat := 1000

  /** The first skill cell: the skill columns are enumerated from `len(non_skill_columns) + 1`. */
  const FirstSkillCell: nat := 11

  predicate IsDigits(s: string) {
    |s| > 0 && forall k :: 0 <= k < |s| ==> '0' <= s[k] <= '9'
  }

  /** The value of a string of decimal digits. */
  function DigitsValue(s: string): nat
    requires forall k :: 0 <= k < |s| ==> '0' <= s[k] <= '9'
    decreases |s|
  {
    if s == [] then 0 else DigitsValue(s[..|s| - 1]) * 10 + (s[|s| - 1] as int - '0' as int)
  }

  /**
    `int(s)` on a CSV cell: surrounding whitespace is ignored, an optional sign may precede
    the digits; anything else raises ValueError (None here).
   */
  function ParseInt(s: string): Option<int> {
    ParseStripped(Strip(s))
  }

  /** `int` on a text without surrounding whitespace: it succeeds only on an optionally signed run of digits. */
  function ParseStripped(t: string): (r: Option<int>)
    ensures r.Some? <==> IsDigits(t) || (|t| > 1 && t[0] in "+-" && IsDigits(t[1..]))
    ensures IsDigits(t) ==> r == Some(DigitsValue(t))
  {
    if |t| > 0 && (t[0] == '+' || t[0] == '-') && IsDigits(t[1..]) then
      var v: int := DigitsValue(t[1..]);
      Some(if t[0] == '-' then -v else v)
    else if IsDigits(t) then Some(DigitsValue(t))
    else None
  }

  /** An employee tuple as the loader queues it. The salary is kept as its text (see README). */
  datatype Employee = Employee(
    id: int, age: string, edLevel: string, employment: string, gender: string, mainBranch: string,
    yearsCode: string, country: string, previousSalary: string, computerSkills: string, employed: bool)

  /** A row of the employee-skill fact. */
  datatype Pair = Pair(employee: int, skill: int)

  /**
    The employee part of a row: the id from cell 0 and the flag from cell 10 go through `int`
    (ValueError), and any missing cell raises IndexError, in the order the cells are read.
   */
  function ParseEmployee(row: seq<string>): (r: Result<Employee>)
    ensures r.Success? ==> |row| >= FirstSkillCell && ParseInt(row[0]) == Some(r.value.id)
    ensures r.Success? ==> ParseInt(row[10]).Some? && r.value.employed == (ParseInt(row[10]).value != 0)
    ensures r == Failure("IndexError") <==> row == [] || (ParseInt(row[0]).Some? && |row| < FirstSkillCell)
  {
    if row == [] then Failure("IndexError")
    else match ParseInt(row[0])
      case None => Failure("ValueError")
      case Some(id) =>
        if |row| < FirstSkillCell then Failure("IndexError")
        else match ParseInt(row[10])
          case None => Failure("ValueError")
          case Some(flag) =>
            Success(Employee(id, row[1], row[2], row[3], row[4], row[5], row[6], row[7], row[8], row[9], flag != 0))
  }

  // ---------------------------------------------------------------- skill columns and their ids

  /** `[col for col in header if col not in non_skill_columns]`. */
  function SkillColumns(header: seq<string>): (r: seq<string>)
    ensures |r| <= |header|
    decreases |header|
  {
    if header == [] then []
    else
      var c := header[|header| - 1];
      SkillColumns(header[..|header| - 1]) + (if c in NonSkillColumns then [] else [c])
  }

  /** The skill columns are exactly the header columns that are not employee columns. */
  lemma {:induction false} SkillColumnsMembers(header: seq<string>)
    ensures forall c :: c in SkillColumns(header) <==> c in header && c !in NonSkillColumns
    decreases |header|
  {
    if header != [] {
      var init := header[..|header| - 1];
      SkillColumnsMembers(init);
      assert header == init + [header[|header| - 1]];
    }
  }

  function SkillKey(skill: string): Row {
    map["SkillName" := Str(skill)]
  }

  datatype SkillIds = SkillIds(db: Db, ids: map<string, int>)

  /** The `skill_ids` loop: get-or-create every skill column in order, remembering its id. */
  function SkillIdsSpec(db: Db, cols: seq<string>): (r: SkillIds)
    ensures r.ids.Keys == set c | c in cols
    decreases |cols|
  {
    if cols == [] then SkillIds(db, map[])
    else
      var s := SkillIdsSpec(db, cols[..|cols| - 1]);
      var c := cols[|cols| - 1];
      var res := Resolve(s.db, DIM_TJB_Skills, SkillKey(c), SkillKey(c));
      assert forall x :: x in cols <==> x in cols[..|cols| - 1] || x == c;
      SkillIds(res.db, s.ids[c := res.id])
  }

  method ResolveSkills(dwh: Engine, cols: seq<string>) returns (ids: map<string, int>)
    modifies dwh
    ensures SkillIds(dwh.State(), ids) == SkillIdsSpec(old(dwh.State()), cols)
  {
    ids := map[];
    var i := 0;
    while i < |cols|
      invariant 0 <= i <= |cols|
      invariant SkillIds(dwh.State(), ids) == SkillIdsSpec(old(dwh.State()), cols[..i])
    {
      assert cols[..i + 1][..i] == cols[..i];
      var id := GetOrCreate(dwh, DIM_TJB_Skills, SkillKey(cols[i]), SkillKey(cols[i]));
      ids := ids[cols[i] := id];
      i := i + 1;
    }
    assert cols[..i] == cols;
  }

  // ---------------------------------------------------------------- one row

  /**
    The pairs queued from the first `n` skill columns: column `k` is read from cell
    `FirstSkillCell + k`, and a "1" there queues the employee with that column's skill id.
   */
  function ReadSkills(employee: int, row: seq<string>, cols: seq<string>, ids: map<string, int>, n: nat): seq<Pair>
    requires n <= |cols| && FirstSkillCell + n <= |row|
    requires forall c :: c in cols ==> c in ids
    decreases n
  {
    if n == 0 then []
    else
      ReadSkills(employee, row, cols, ids, n - 1)
        + (if row[FirstSkillCell + n - 1] == "1" then [Pair(employee, ids[cols[n - 1]])] else [])
  }

  /** How many skill cells a row has before the enumeration runs past its end. */
  function Readable(row: seq<string>, cols: seq<string>): (n: nat)
    ensures n <= |cols| && (|row| >= FirstSkillCell ==> FirstSkillCell + n <= |row|)
    ensures FirstSkillCell + |cols| <= |row| ==> n == |cols|
  {
    if FirstSkillCell + |cols| <= |row| then |cols|
    else if |row| >= FirstSkillCell then |row| - FirstSkillCell
    else 0
  }

  /** How the body of the row loop ended. */
  datatype RowEnd =
    | Skipped            // shorter than the header: `continue` before the `try`
    | Caught             // IndexError: the rest of the row is abandoned, no flush check
    | Done               // reached the flush checks
    | Escaped(error: string)  // ValueError: the script ends

  /** What one row queues, and how its body ended. */
  datatype RowEffect = RowEffect(employees: seq<Employee>, pairs: seq<Pair>, end: RowEnd)

  function ProcessRow(width: nat, cols: seq<string>, ids: map<string, int>, row: seq<string>): (r: RowEffect)
    requires forall c :: c in cols ==> c in ids
    ensures |row| < width ==> r == RowEffect([], [], Skipped)
    ensures r.end.Escaped? ==> r.employees == [] && r.pairs == [] && r.end.error == "ValueError"
    ensures r.employees != [] <==> |row| >= width && ParseEmployee(row).Success?
    ensures r.end == Done ==> |row| >= FirstSkillCell + |cols| && r.employees != []
  {
    if |row| < width then RowEffect([], [], Skipped)
    else match ParseEmployee(row)
      case Failure(e) => if e == "IndexError" then RowEffect([], [], Caught) else RowEffect([], [], Escaped(e))
      case Success(emp) =>
        var n := Readable(row, cols);
        RowEffect([emp], ReadSkills(emp.id, row, cols, ids, n), if n < |cols| then Caught else Done)
  }

  // ---------------------------------------------------------------- the row loop

  /** The loop's state: the two buffers, what has been sent so far, and the row counter. */
  datatype Load = Load(
    employees: seq<Employee>, pairs: seq<Pair>, sentEmployees: seq<Employee>, sentPairs: seq<Pair>, rowNumber: nat)

  /** The flush checks at the end of a row: a buffer that has reached the batch size is sent and emptied. */
  function Flush(st: Load): (r: Load)
    ensures |r.employees| < BatchSize && |r.pairs| < BatchSize
    ensures r.sentEmployees + r.employees == st.sentEmployees + st.employees
    ensures r.sentPairs + r.pairs == st.sentPairs + st.pairs
    ensures r.rowNumber == st.rowNumber
  {
    var e := if |st.employees| >= BatchSize then Load([], st.pairs, st.sentEmployees + st.employees, st.sentPairs, st.rowNumber) else st;
    if |e.pairs| >= BatchSize then Load(e.employees, [], e.sentEmployees, e.sentPairs + e.pairs, e.rowNumber) else e
  }

  /** After the loop: the non-empty leftovers are sent. */
  function FlushRest(st: Load): (r: Load)
    ensures r.employees == [] && r.pairs == []
    ensures r.sentEmployees == st.sentEmployees + st.employees && r.sentPairs == st.sentPairs + st.pairs
  {
    Load([], [], st.sentEmployees + st.employees, st.sentPairs + st.pairs, st.rowNumber)
  }

  datatype Stop = Stop(load: Load, error: Option<string>)

  function RowStep(width: nat, cols: seq<string>, ids: map<string, int>, st: Load, row: seq<string>): Stop
    requires forall c :: c in cols ==> c in ids
  {
    var fx := ProcessRow(width, cols, ids, row);
    var st' := st.(employees := st.employees + fx.employees, pairs := st.pairs + fx.pairs, rowNumber := st.rowNumber + 1);
    match fx.end
    case Escaped(e) => Stop(st', Some(e))
    case Done => Stop(Flush(st'), None)
    case _ => Stop(st', None)
  }

  /** The row loop over the rows after the header, ending at the first escaping exception. */
  function RowsSpec(width: nat, cols: seq<string>, ids: map<string, int>, st: Load, rows: seq<seq<string>>): Stop
    requires forall c :: c in cols ==> c in ids
    decreases |rows|
  {
    if rows == [] then Stop(st, None)
    else
      var s := RowsSpec(width, cols, ids, st, rows[..|rows| - 1]);
      if s.error.Some? then s else RowStep(width, cols, ids, s.load, rows[|rows| - 1])
  }

  /** What the script sends, and the skill table it leaves, from a header and the data rows. */
  datatype Script = Script(skills: Db, load: Load, error: Option<string>)

  function ImportSpec(db: Db, sentEmployees: seq<Employee>, sentPairs: seq<Pair>, header: seq<string>, rows: seq<seq<string>>): Script {
    var cols := SkillColumns(header);
    var s := SkillIdsSpec(db, cols);
    var stop := RowsSpec(|header|, cols, s.ids, Load([], [], sentEmployees, sentPairs, 0), rows);
    if stop.error.Some? then Script(s.db, stop.load, stop.error)
    else Script(s.db, FlushRest(stop.load), None)
  }

  // ---------------------------------------------------------------- the loader as methods

  /**
    DIM_TJB_Employee and the employee-skill fact as the loader writes them: the tuples sent
    with `executemany`, in the order sent.
   */
  class EmployeeTables {
    var sentEmployees: seq<Employee>
    var sentPairs: seq<Pair>

    constructor ()
      ensures sentEmployees == [] && sentPairs == []
    {
      sentEmployees := [];
      sentPairs := [];
    }

    /** `executemany("REPLACE INTO DIM_TJB_Employee ...", batch)` and commit. */
    method ReplaceMany(batch: seq<Employee>)
      modifies this
      ensures sentEmployees == old(sentEmployees) + batch && sentPairs == old(sentPairs)
    {
      sentEmployees := sentEmployees + batch;
    }

    /** `executemany("INSERT IGNORE INTO Fact_TJB_EmployeeSkills ...", batch)` and commit. */
    method InsertIgnoreMany(batch: seq<Pair>)
      modifies this
      ensures sentPairs == old(sentPairs) + batch && sentEmployees == old(sentEmployees)
    {
      sentPairs := sentPairs + batch;
    }
  }

  /** The skill loop of one row, appending to the skill buffer; `complete` is false when it ran past the row's end. */
  method QueueSkills(employee: int, row: seq<string>, cols: seq<string>, ids: map<string, int>, buffer: seq<Pair>)
    returns (buffer': seq<Pair>, complete: bool)
    requires |row| >= FirstSkillCell && forall c :: c in cols ==> c in ids
    ensures buffer' == buffer + ReadSkills(employee, row, cols, ids, Readable(row, cols))
    ensures complete <==> Readable(row, cols) == |cols|
  {
    buffer' := buffer;
    var k := 0;
    while k < |cols|
      invariant 0 <= k <= |cols| && FirstSkillCell + k <= |row|
      invariant buffer' == buffer + ReadSkills(employee, row, cols, ids, k)
    {
      if FirstSkillCell + k >= |row| {
        return buffer', false;
      }
      if row[FirstSkillCell + k] == "1" {
        buffer' := buffer' + [Pair(employee, ids[cols[k]])];
      }
      k := k + 1;
    }
    return buffer', true;
  }

  /** The flush checks after a row whose body completed. */
  method FlushFull(facts: EmployeeTables, employees: seq<Employee>, pairs: seq<Pair>, rowNumber: nat)
    returns (employees': seq<Employee>, pairs': seq<Pair>)
    modifies facts
    ensures Load(employees', pairs', facts.sentEmployees, facts.sentPairs, rowNumber)
      == Flush(Load(employees, pairs, old(facts.sentEmployees), old(facts.sentPairs), rowNumber))
  {
    employees', pairs' := employees, pairs;
    if |employees'| >= BatchSize {
      facts.ReplaceMany(employees');
      employees' := [];
    }
    if |pairs'| >= BatchSize {
      facts.InsertIgnoreMany(pairs');
      pairs' := [];
    }
  }

  /** One turn of the row loop. */
  method ImportRow(facts: EmployeeTables, width: nat, cols: seq<string>, ids: map<string, int>, st: Load, row: seq<string>)
    returns (s: Stop)
    requires forall c :: c in cols ==> c in ids
    requires st.sentEmployees == facts.sentEmployees && st.sentPairs == facts.sentPairs
    modifies facts
    ensures s == RowStep(width, cols, ids, st, row)
    ensures s.load.sentEmployees == facts.sentEmployees && s.load.sentPairs == facts.sentPairs
  {
    var rowNumber := st.rowNumber + 1;
    if |row| < width {
      RowStepWithoutEmployee(width, cols, ids, st, row);
      return Stop(st.(rowNumber := rowNumber), None);
    }
    var parsed := ParseEmployee(row);
    if parsed.Failure? {
      RowStepWithoutEmployee(width, cols, ids, st, row);
      if parsed.error == "IndexError" {
        return Stop(st.(rowNumber := rowNumber), None);
      }
      return Stop(st.(rowNumber := rowNumber), Some(parsed.error));
    }
    RowStepOnParsed(width, cols, ids, st, row, parsed.value);
    s := QueueRow(facts, cols, ids, st, row, parsed.value);
  }

  /** A row skipped for its width, or whose employee cells raise: only the row counter moves, and a ValueError stops the loop. */
  lemma RowStepWithoutEmployee(width: nat, cols: seq<string>, ids: map<string, int>, st: Load, row: seq<string>)
    requires forall c :: c in cols ==> c in ids
    requires |row| < width || ParseEmployee(row).Failure?
    ensures var raised := |row| >= width && ParseEmployee(row).error != "IndexError";
      RowStep(width, cols, ids, st, row)
        == Stop(st.(rowNumber := st.rowNumber + 1), if raised then Some(ParseEmployee(row).error) else None)
  {
  }

  /** A row that is wide enough and whose employee cells parse: the skill loop's outcome decides whether the flush checks run. */
  lemma RowStepOnParsed(width: nat, cols: seq<string>, ids: map<string, int>, st: Load, row: seq<string>, employee: Employee)
    requires forall c :: c in cols ==> c in ids
    requires |row| >= width && ParseEmployee(row) == Success(employee)
    ensures |row| >= FirstSkillCell
    ensures var n := Readable(row, cols);
      var queued := Load(st.employees + [employee], st.pairs + ReadSkills(employee.id, row, cols, ids, n),
                         st.sentEmployees, st.sentPairs, st.rowNumber + 1);
      RowStep(width, cols, ids, st, row) == Stop(if n < |cols| then queued else Flush(queued), None)
  {
  }

  /** The rest of the `try` block once the employee cells are read: the skill loop, then the flush checks. */
  method QueueRow(facts: EmployeeTables, cols: seq<string>, ids: map<string, int>, st: Load, row: seq<string>, employee: Employee)
    returns (s: Stop)
    requires |row| >= FirstSkillCell && forall c :: c in cols ==> c in ids
    requires st.sentEmployees == facts.sentEmployees && st.sentPairs == facts.sentPairs
    modifies facts
    ensures var n := Readable(row, cols);
      var queued := Load(st.employees + [employee], st.pairs + ReadSkills(employee.id, row, cols, ids, n),
                         st.sentEmployees, st.sentPairs, st.rowNumber + 1);
      s == Stop(if n < |cols| then queued else Flush(queued), None)
    ensures s.load.sentEmployees == facts.sentEmployees && s.load.sentPairs == facts.sentPairs
  {
    var employees := st.employees + [employee];
    var pairs, complete := QueueSkills(employee.id, row, cols, ids, st.pairs);
    if !complete {
      return Stop(Load(employees, pairs, st.sentEmployees, st.sentPairs, st.rowNumber + 1), None);
    }
    employees, pairs := FlushFull(facts, employees, pairs, st.rowNumber + 1);
    return Stop(Load(employees, pairs, facts.sentEmployees, facts.sentPairs, st.rowNumber + 1), None);
  }

  lemma {:induction false} RowsStopAtError(width: nat, cols: seq<string>, ids: map<string, int>, st: Load, rows: seq<seq<string>>, k: nat)
    requires forall c :: c in cols ==> c in ids
    requires k <= |rows| && RowsSpec(width, cols, ids, st, rows[..k]).error.Some?
    ensures RowsSpec(width, cols, ids, st, rows) == RowsSpec(width, cols, ids, st, rows[..k])
    decreases |rows|
  {
    if k < |rows| {
      var init := rows[..|rows| - 1];
      assert init[..k] == rows[..k];
      RowsStopAtError(width, cols, ids, st, init, k);
    } else {
      assert rows[..k] == rows;
    }
  }

  method ImportNext(facts: EmployeeTables, width: nat, cols: seq<string>, ids: map<string, int>, st0: Load, st: Load,
                    rows: seq<seq<string>>, i: nat) returns (s: Stop)
    requires forall c :: c in cols ==> c in ids
    requires i < |rows| && RowsSpec(width, cols, ids, st0, rows[..i]) == Stop(st, None)
    requires st.sentEmployees == facts.sentEmployees && st.sentPairs == facts.sentPairs
    modifies facts
    ensures RowsSpec(width, cols, ids, st0, rows[..i + 1]) == s
    ensures s.load.sentEmployees == facts.sentEmployees && s.load.sentPairs == facts.sentPairs
  {
    assert rows[..i + 1][..i] == rows[..i];
    s := ImportRow(facts, width, cols, ids, st, rows[i]);
  }

  /** The whole script after the connection is open: skill ids, the row loop, the final flush. */
  method Import(dwh: Engine, facts: EmployeeTables, header: seq<string>, rows: seq<seq<string>>) returns (error: Option<string>)
    modifies dwh, facts
    ensures var spec := ImportSpec(old(dwh.State()), old(facts.sentEmployees), old(facts.sentPairs), header, rows);
      && dwh.State() == spec.skills && error == spec.error
      && facts.sentEmployees == spec.load.sentEmployees && facts.sentPairs == spec.load.sentPairs
  {
    var cols := SkillColumns(header);
    var ids := ResolveSkills(dwh, cols);
    var st0 := Load([], [], facts.sentEmployees, facts.sentPairs, 0);
    var st := st0;
    var i := 0;
    while i < |rows|
      invariant 0 <= i <= |rows|
      invariant RowsSpec(|header|, cols, ids, st0, rows[..i]) == Stop(st, None)
      invariant st.sentEmployees == facts.sentEmployees && st.sentPairs == facts.sentPairs
      invariant dwh.State() == SkillIdsSpec(old(dwh.State()), cols).db
    {
      var s := ImportNext(facts, |header|, cols, ids, st0, st, rows, i);
      if s.error.Some? {
        RowsStopAtError(|header|, cols, ids, st0, rows, i + 1);
        return s.error;
      }
      st := s.load;
      i := i + 1;
    }
    assert rows[..|rows|] == rows;
    if st.employees != [] {
      facts.ReplaceMany(st.employees);
    }
    if st.pairs != [] {
      facts.InsertIgnoreMany(st.pairs);
    }
    return None;
  }

  // ---------------------------------------------------------------- properties

  /** Every queued tuple, row by row, without any batching; the queueing stops at an escaping exception. */
  function Queued(width: nat, cols: seq<string>, ids: map<string, int>, rows: seq<seq<string>>): (r: RowEffect)
    requires forall c :: c in cols ==> c in ids
    decreases |rows|
  {
    if rows == [] then RowEffect([], [], Done)
    else
      var q := Queued(width, cols, ids, rows[..|rows| - 1]);
      if q.end.Escaped? then q
      else
        var fx := ProcessRow(width, cols, ids, rows[|rows| - 1]);
        RowEffect(q.employees + fx.employees, q.pairs + fx.pairs, if fx.end.Escaped? then fx.end else Done)
  }

  /** One row: what it sends and what it leaves buffered together extend the buffers by exactly what it queued. */
  lemma RowStepConserves(width: nat, cols: seq<string>, ids: map<string, int>, st: Load, row: seq<string>)
    requires forall c :: c in cols ==> c in ids
    ensures var s := RowStep(width, cols, ids, st, row);
      var fx := ProcessRow(width, cols, ids, row);
      && s.load.sentEmployees + s.load.employees == st.sentEmployees + (st.employees + fx.employees)
      && s.load.sentPairs + s.load.pairs == st.sentPairs + (st.pairs + fx.pairs)
      && (s.error.Some? <==> fx.end.Escaped?)
  {
  }

  /**
    Batching loses and duplicates nothing: at every point of the loop, what was sent followed by
    what is buffered is exactly what the rows queued, in order, after what was sent before.
   */
  lemma {:induction false} BatchingConservesTuples(width: nat, cols: seq<string>, ids: map<string, int>, st: Load, rows: seq<seq<string>>)
    requires forall c :: c in cols ==> c in ids
    ensures var s := RowsSpec(width, cols, ids, st, rows);
      var q := Queued(width, cols, ids, rows);
      && s.load.sentEmployees + s.load.employees == st.sentEmployees + st.employees + q.employees
      && s.load.sentPairs + s.load.pairs == st.sentPairs + st.pairs + q.pairs
      && (s.error.Some? <==> q.end.Escaped?)
    decreases |rows|
  {
    if rows != [] {
      BatchingConservesTuples(width, cols, ids, st, rows[..|rows| - 1]);
      ConservesOneMoreRow(width, cols, ids, st, rows);
    }
  }

  /** The step of the induction: the conservation facts carry over from the rows before the last one. */
  lemma ConservesOneMoreRow(width: nat, cols: seq<string>, ids: map<string, int>, st: Load, rows: seq<seq<string>>)
    requires forall c :: c in cols ==> c in ids
    requires rows != []
    requires var s := RowsSpec(width, cols, ids, st, rows[..|rows| - 1]);
      var q := Queued(width, cols, ids, rows[..|rows| - 1]);
      && s.load.sentEmployees + s.load.employees == st.sentEmployees + st.employees + q.employees
      && s.load.sentPairs + s.load.pairs == st.sentPairs + st.pairs + q.pairs
      && (s.error.Some? <==> q.end.Escaped?)
    ensures var s := RowsSpec(width, cols, ids, st, rows);
      var q := Queued(width, cols, ids, rows);
      && s.load.sentEmployees + s.load.employees == st.sentEmployees + st.employees + q.employees
      && s.load.sentPairs + s.load.pairs == st.sentPairs + st.pairs + q.pairs
      && (s.error.Some? <==> q.end.Escaped?)
  {
    var init := rows[..|rows| - 1];
    var row := rows[|rows| - 1];
    var s := RowsSpec(width, cols, ids, st, init);
    var q := Queued(width, cols, ids, init);
    if s.error.None? {
      var fx := ProcessRow(width, cols, ids, row);
      var after := RowStep(width, cols, ids, s.load, row);
      assert RowsSpec(width, cols, ids, st, rows) == after;
      var q' := Queued(width, cols, ids, rows);
      assert q'.employees == q.employees + fx.employees && q'.pairs == q.pairs + fx.pairs;
      assert q'.end.Escaped? == fx.end.Escaped?;
      RowStepConserves(width, cols, ids, s.load, row);
      ExtendConserved(s.load.sentEmployees, s.load.employees, st.sentEmployees + st.employees, q.employees, fx.employees,
                      after.load.sentEmployees + after.load.employees);
      ExtendConserved(s.load.sentPairs, s.load.pairs, st.sentPairs + st.pairs, q.pairs, fx.pairs,
                      after.load.sentPairs + after.load.pairs);
    } else {
      assert RowsSpec(width, cols, ids, st, rows) == s;
      assert Queued(width, cols, ids, rows) == q;
    }
  }

  /** Sent-then-buffered stays the queue: appending what one row queues to the buffer keeps it so. */
  lemma ExtendConserved<T>(sent: seq<T>, buffer: seq<T>, before: seq<T>, queued: seq<T>, row: seq<T>, after: seq<T>)
    requires sent + buffer == before + queued
    requires after == sent + (buffer + row)
    ensures after == before + (queued + row)
  {
    calc {
      after;
      (sent + buffer) + row;
      (before + queued) + row;
    }
  }

  /**
    Every queued tuple is sent exactly once: a run that ends normally has sent precisely the
    queued tuples, in order; a run that a ValueError ends has sent a prefix of them, the
    buffered rest being lost.
   */
  lemma EveryQueuedTupleSentOnce(db: Db, sentEmployees: seq<Employee>, sentPairs: seq<Pair>, header: seq<string>, rows: seq<seq<string>>)
    ensures var cols := SkillColumns(header);
      var q := Queued(|header|, cols, SkillIdsSpec(db, cols).ids, rows);
      var r := ImportSpec(db, sentEmployees, sentPairs, header, rows);
      && (r.error.None? ==>
            r.load.sentEmployees == sentEmployees + q.employees && r.load.sentPairs == sentPairs + q.pairs)
      && (r.error.Some? ==>
            && r.error == Some("ValueError")
            && r.load.sentEmployees + r.load.employees == sentEmployees + q.employees
            && r.load.sentPairs + r.load.pairs == sentPairs + q.pairs)
  {
    var cols := SkillColumns(header);
    var ids := SkillIdsSpec(db, cols).ids;
    var st := Load([], [], sentEmployees, sentPairs, 0);
    BatchingConservesTuples(|header|, cols, ids, st, rows);
    EscapesAreValueErrors(|header|, cols, ids, st, rows);
    var s := RowsSpec(|header|, cols, ids, st, rows);
    assert sentEmployees + [] == sentEmployees && sentPairs + [] == sentPairs;
    assert ImportSpec(db, sentEmployees, sentPairs, header, rows)
      == if s.error.Some? then Script(SkillIdsSpec(db, cols).db, s.load, s.error)
         else Script(SkillIdsSpec(db, cols).db, FlushRest(s.load), None);
  }

  lemma {:induction false} EscapesAreValueErrors(width: nat, cols: seq<string>, ids: map<string, int>, st: Load, rows: seq<seq<string>>)
    requires forall c :: c in cols ==> c in ids
    ensures var s := RowsSpec(width, cols, ids, st, rows);
      s.error.Some? ==> s.error == Some("ValueError")
    decreases |rows|
  {
    if rows != [] {
      EscapesAreValueErrors(width, cols, ids, st, rows[..|rows| - 1]);
    }
  }

  /** A pair is queued for a skill column exactly when its cell holds "1". */
  lemma {:induction false} PairsExactlyForOnes(employee: int, row: seq<string>, cols: seq<string>, ids: map<string, int>, n: nat, p: Pair)
    requires n <= |cols| && FirstSkillCell + n <= |row|
    requires forall c :: c in cols ==> c in ids
    ensures p in ReadSkills(employee, row, cols, ids, n) <==>
      exists k :: 0 <= k < n && row[FirstSkillCell + k] == "1" && p == Pair(employee, ids[cols[k]])
    decreases n
  {
    if n > 0 {
      PairsExactlyForOnes(employee, row, cols, ids, n - 1, p);
    }
  }

  /** Every skill column ends up mapped to the id of a DIM_TJB_Skills row holding that skill name. */
  lemma {:induction false} SkillIdsAreTableIds(db: Db, cols: seq<string>, c: string)
    requires c in cols
    ensures var s := SkillIdsSpec(db, cols);
      SelectId(s.db, DIM_TJB_Skills, SkillKey(c)) == Some(s.ids[c])
    decreases |cols|
  {
    var s := SkillIdsSpec(db, cols[..|cols| - 1]);
    var last := cols[|cols| - 1];
    var key := SkillKey(last);
    assert NoNulls(key) && Agrees(key, key);
    ResolveIdempotent(s.db, DIM_TJB_Skills, key, key);
    if c != last {
      assert c in cols[..|cols| - 1];
      SkillIdsAreTableIds(db, cols[..|cols| - 1], c);
      ResolveKeepsFound(s.db, DIM_TJB_Skills, key, key, SkillKey(c));
    }
  }

  /** A full row leaves both buffers below the batch size. */
  lemma DoneRowLeavesBuffersShort(width: nat, cols: seq<string>, ids: map<string, int>, st: Load, row: seq<string>)
    requires forall c :: c in cols ==> c in ids
    requires ProcessRow(width, cols, ids, row).end == Done
    ensures var s := RowStep(width, cols, ids, st, row).load;
      |s.employees| < BatchSize && |s.pairs| < BatchSize
  {
  }

  /**
    The skill cells are read one place to the right of their column. With a header made of an id
    column, the ten employee columns and the skills, the id column is itself taken for a skill,
    so cell `11 + k` (the cell under skill `k`) is credited to the column before it, and the
    last skill column would be read one past the end: every row exactly as long as the header
    raises IndexError in its skill loop and so never reaches the flush checks.
   */
  lemma ShiftedSkillCells(idColumn: string, skills: seq<string>, row: seq<string>)
    requires idColumn !in NonSkillColumns && forall s :: s in skills ==> s !in NonSkillColumns
    requires |row| == 1 + |NonSkillColumns| + |skills|
    ensures var header := [idColumn] + NonSkillColumns + skills;
      var cols := SkillColumns(header);
      && cols == [idColumn] + skills
      && (forall k :: 0 <= k < |skills| ==> header[FirstSkillCell + k] == skills[k] && cols[k] == ([idColumn] + skills)[k])
      && Readable(row, cols) == |skills| < |cols|
  {
    var header := [idColumn] + NonSkillColumns + skills;
    SkillColumnsOfSkills([idColumn] + NonSkillColumns, skills);
    assert SkillColumns([idColumn] + NonSkillColumns) == [idColumn] by {
      SkillColumnsOfSkills([], [idColumn]);
      SkillColumnsDropsEmployeeColumns([idColumn], NonSkillColumns);
    }
  }

  /** Appending skill columns appends them to the skill columns. */
  lemma {:induction false} SkillColumnsOfSkills(prefix: seq<string>, skills: seq<string>)
    requires forall s :: s in skills ==> s !in NonSkillColumns
    ensures SkillColumns(prefix + skills) == SkillColumns(prefix) + skills
    decreases |skills|
  {
    if skills == [] {
      assert prefix + skills == prefix;
    } else {
      var init := skills[..|skills| - 1];
      forall c | c in init ensures c !in NonSkillColumns {
        assert c in skills;
      }
      SkillColumnsOfSkills(prefix, init);
      assert skills[|skills| - 1] in skills;
      SkillColumnsOfLastSkill(prefix, skills);
    }
  }

  /** One inductive step: a last header cell that is not an employee column is a skill column. */
  lemma SkillColumnsOfLastSkill(prefix: seq<string>, skills: seq<string>)
    requires skills != [] && skills[|skills| - 1] !in NonSkillColumns
    ensures SkillColumns(prefix + skills) == SkillColumns(prefix + skills[..|skills| - 1]) + [skills[|skills| - 1]]
  {
    var whole := prefix + skills;
    assert whole[..|whole| - 1] == prefix + skills[..|skills| - 1];
  }

  lemma SkillColumnsSnoc(header: seq<string>, c: string)
    ensures SkillColumns(header + [c]) == SkillColumns(header) + (if c in NonSkillColumns then [] else [c])
  {
    assert (header + [c])[..|header|] == header;
  }

  /** Appending employee columns leaves the skill columns as they were. */
  lemma {:induction false} SkillColumnsDropsEmployeeColumns(prefix: seq<string>, more: seq<string>)
    requires forall s :: s in more ==> s in NonSkillColumns
    ensures SkillColumns(prefix + more) == SkillColumns(prefix)
    decreases |more|
  {
    if more == [] {
      assert prefix + more == prefix;
    } else {
      var init := more[..|more| - 1];
      assert (prefix + more)[..|prefix + more| - 1] == prefix + init;
      SkillColumnsDropsEmployeeColumns(prefix, init);
    }
  }

  /** `int` reads back the decimal rendering of any natural number. */
  lemma ParseIntReadsDecimal(n: nat)
    ensures ParseInt(NatToString(n)) == Some(n)
  {
    DigitsOfDecimal(n);
    ParseIntOfDigits(NatToString(n));
  }

  /** A string of digits, which has no whitespace to strip, is read as its value. */
  lemma ParseIntOfDigits(s: string)
    requires IsDigits(s)
    ensures ParseInt(s) == Some(DigitsValue(s))
  {
    assert !(s[0] == '+' || s[0] == '-');
    ParseIntOfUnpadded(s);
  }

  /** A minus sign followed by digits is read as the negated value of the digits. */
  lemma ParseIntOfNegative(s: string)
    requires |s| > 1 && s[0] == '-' && IsDigits(s[1..])
    ensures ParseInt(s) == Some(-(DigitsValue(s[1..]) as int))
  {
    assert s[|s| - 1] == s[1..][|s| - 2];
    ParseIntOfUnpadded(s);
  }

  /** On a string without surrounding whitespace, `int` needs no strip. */
  lemma ParseIntOfUnpadded(s: string)
    requires s != [] && !IsSpace(s[0]) && !IsSpace(s[|s| - 1])
    ensures ParseInt(s) == ParseStripped(s)
  {
    StripOfUnpadded(s);
  }

  lemma {:induction false} DigitsOfDecimal(n: nat)
    ensures DigitsValue(NatToString(n)) == n
    decreases n
  {
    var s := NatToString(n);
    if n >= 10 {
      DigitsOfDecimal(n / 10);
      assert s[..|s| - 1] == NatToString(n / 10);
    }
  }

  /** The employee table after REPLACE of the sent tuples: each id holds the last tuple sent with it. */
  function Replaced(table: map<int, Employee>, sent: seq<Employee>): map<int, Employee>
    decreases |sent|
  {
    if sent == [] then table
    else Replaced(table, sent[..|sent| - 1])[sent[|sent| - 1].id := sent[|sent| - 1]]
  }

  /** REPLACE: the last tuple sent for an id wins, and ids never sent keep their row. */
  lemma {:induction false} LastReplaceWins(table: map<int, Employee>, sent: seq<Employee>, j: nat)
    requires j < |sent| && forall k :: j < k < |sent| ==> sent[k].id != sent[j].id
    ensures sent[j].id in Replaced(table, sent) && Replaced(table, sent)[sent[j].id] == sent[j]
    decreases |sent|
  {
    if j < |sent| - 1 {
      LastReplaceWins(table, sent[..|sent| - 1], j);
    }
  }

  lemma {:induction false} UnsentIdsKept(table: map<int, Employee>, sent: seq<Employee>, id: int)
    requires forall k :: 0 <= k < |sent| ==> sent[k].id != id
    ensures id in Replaced(table, sent) <==> id in table
    ensures id in table ==> Replaced(table, sent)[id] == table[id]
    decreases |sent|
  {
    if sent != [] {
      UnsentIdsKept(table, sent[..|sent| - 1], id);
    }
  }
}
