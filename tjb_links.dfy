/**
  The earlier, row-at-a-time loader for the same skills CSV. The skill columns and their ids in
  DIM_TJB_Skills are found as by the batch loader; then, for every row, each skill cell equal to
  "1" is inserted into FACT_TJB_EmployeeSkills with the row's first cell as the employee id
  (kept as text), one insert and one commit at a time, in row order and then column order.

  Nothing guards the cell reads: an empty row, or a row too short for the last skill column,
  raises IndexError and ends the script. The inserts are wrapped in a handler for the
  `mysql.connector` driver's errors while the connection comes from `pymysql`, whose errors that
  handler does not catch: an insert the database refuses ends the script as well.
 */
module TjbLinks {
  import opened Wrappers
  import opened Warehouse
  import TjbEtl

  /** The skill columns are enumerated from `len(non_skill_columns)`. */
  const FirstSkillCell: nat := 10

  /** A row of the employee-skill fact: the employee id as the CSV holds it, and the skill id. */
  datatype Link = Link(employee: string, skill: int)

  /** The links a stretch of the script inserted, and the exception that ended it, if any. */
  datatype Run = Run(links: seq<Link>, error: Option<string>)

  /**
    The first `n` turns of the skill loop of one row: column `k` reads cell `FirstSkillCell + k`;
    a "1" there inserts the link, which the database either accepts or refuses with an error.
   */
  function CellsSpec(employee: string, row: seq<string>, cols: seq<string>, ids: map<string, int>,
                     accepts: Link -> bool, n: nat): (r: Run)
    requires n <= |cols| && forall c :: c in cols ==> c in ids
    ensures |r.links| <= n
    ensures forall k :: 0 <= k < |r.links| ==> r.links[k].employee == employee && accepts(r.links[k])
    decreases n
  {
    if n == 0 then Run([], None)
    else
      var r := CellsSpec(employee, row, cols, ids, accepts, n - 1);
      var cell := FirstSkillCell + n - 1;
      if r.error.Some? then r
      else if cell >= |row| then Run(r.links, Some("IndexError"))
      else if row[cell] != "1" then r
      else
        var link := Link(employee, ids[cols[n - 1]]);
        if accepts(link) then Run(r.links + [link], None) else Run(r.links, Some("IntegrityError"))
  }

  /** One turn of the row loop: the employee id is read from the first cell, then the skill loop runs. */
  function RowSpec(cols: seq<string>, ids: map<string, int>, accepts: Link -> bool, row: seq<string>): (r: Run)
    requires forall c :: c in cols ==> c in ids
    ensures row == [] ==> r == Run([], Some("IndexError"))
  {
    if row == [] then Run([], Some("IndexError"))
    else CellsSpec(row[0], row, cols, ids, accepts, |cols|)
  }

  /** The row loop, ending at the first exception. */
  function RowsSpec(cols: seq<string>, ids: map<string, int>, accepts: Link -> bool, rows: seq<seq<string>>): (r: Run)
    requires forall c :: c in cols ==> c in ids
    decreases |rows|
  {
    if rows == [] then Run([], None)
    else
      var r := RowsSpec(cols, ids, accepts, rows[..|rows| - 1]);
      if r.error.Some? then r
      else
        var last := RowSpec(cols, ids, accepts, rows[|rows| - 1]);
        Run(r.links + last.links, last.error)
  }

  /** What the script leaves: the skill table, the links it inserted, and the exception that ended it. */
  datatype Script = Script(skills: Db, links: seq<Link>, error: Option<string>)

  function ImportSpec(db: Db, accepts: Link -> bool, header: seq<string>, rows: seq<seq<string>>): (r: Script)
    ensures r.skills == TjbEtl.SkillIdsSpec(db, TjbEtl.SkillColumns(header)).db
  {
    var cols := TjbEtl.SkillColumns(header);
    var s := TjbEtl.SkillIdsSpec(db, cols);
    var run := RowsSpec(cols, s.ids, accepts, rows);
    Script(s.db, run.links, run.error)
  }

  // ---------------------------------------------------------------- the loader as methods

  /** FACT_TJB_EmployeeSkills: the links inserted so far, and which links the database accepts. */
  class FactTable {
    var links: seq<Link>
    /** The table's foreign keys: whether the employee and the skill exist. Nothing here changes them. */
    const accepts: Link -> bool

    constructor (accepts: Link -> bool)
      ensures links == [] && this.accepts == accepts
    {
      links := [];
      this.accepts := accepts;
    }

    /** `cursor.execute(INSERT ...)` then commit; a refused link raises. */
    method Insert(link: Link) returns (ok: bool)
      modifies this
      ensures ok == accepts(link)
      ensures links == old(links) + (if ok then [link] else [])
    {
      ok := accepts(link);
      if ok {
        links := links + [link];
      }
    }
  }

  /** One turn of the row loop. */
  method ImportRow(facts: FactTable, cols: seq<string>, ids: map<string, int>, row: seq<string>) returns (error: Option<string>)
    requires forall c :: c in cols ==> c in ids
    modifies facts
    ensures var r := RowSpec(cols, ids, facts.accepts, row);
      facts.links == old(facts.links) + r.links && error == r.error
  {
    if row == [] {
      return Some("IndexError");
    }
    ghost var start := facts.links;
    var k := 0;
    while k < |cols|
      invariant 0 <= k <= |cols|
      invariant var r := CellsSpec(row[0], row, cols, ids, facts.accepts, k);
        facts.links == start + r.links && r.error.None?
    {
      error := ImportCell(facts, cols, ids, row, k, start);
      if error.Some? {
        CellsStopAtError(row[0], row, cols, ids, facts.accepts, k + 1, |cols|);
        return;
      }
      k := k + 1;
    }
    return None;
  }

  /** One turn of the skill loop of a row: read cell `FirstSkillCell + k` and insert the link it marks. */
  method ImportCell(facts: FactTable, cols: seq<string>, ids: map<string, int>, row: seq<string>, k: nat, ghost start: seq<Link>)
    returns (error: Option<string>)
    requires forall c :: c in cols ==> c in ids
    requires row != [] && k < |cols|
    requires var r := CellsSpec(row[0], row, cols, ids, facts.accepts, k);
      facts.links == start + r.links && r.error.None?
    modifies facts
    ensures var r := CellsSpec(row[0], row, cols, ids, facts.accepts, k + 1);
      facts.links == start + r.links && error == r.error
  {
    var cell := FirstSkillCell + k;
    if cell >= |row| {
      return Some("IndexError");
    }
    error := None;
    if row[cell] == "1" {
      var ok := facts.Insert(Link(row[0], ids[cols[k]]));
      if !ok {
        error := Some("IntegrityError");
      }
    }
  }

  lemma {:induction false} CellsStopAtError(employee: string, row: seq<string>, cols: seq<string>, ids: map<string, int>,
                                           accepts: Link -> bool, n: nat, m: nat)
    requires n <= m <= |cols| && forall c :: c in cols ==> c in ids
    requires CellsSpec(employee, row, cols, ids, accepts, n).error.Some?
    ensures CellsSpec(employee, row, cols, ids, accepts, m) == CellsSpec(employee, row, cols, ids, accepts, n)
    decreases m
  {
    if m > n {
      CellsStopAtError(employee, row, cols, ids, accepts, n, m - 1);
    }
  }

  lemma {:induction false} RowsStopAtError(cols: seq<string>, ids: map<string, int>, accepts: Link -> bool, rows: seq<seq<string>>, k: nat)
    requires forall c :: c in cols ==> c in ids
    requires k <= |rows| && RowsSpec(cols, ids, accepts, rows[..k]).error.Some?
    ensures RowsSpec(cols, ids, accepts, rows) == RowsSpec(cols, ids, accepts, rows[..k])
    decreases |rows|
  {
    if k < |rows| {
      var init := rows[..|rows| - 1];
      assert init[..k] == rows[..k];
      RowsStopAtError(cols, ids, accepts, init, k);
    } else {
      assert rows[..k] == rows;
    }
  }

  method ImportNext(facts: FactTable, cols: seq<string>, ids: map<string, int>, rows: seq<seq<string>>, i: nat, ghost start: seq<Link>)
    returns (error: Option<string>)
    requires forall c :: c in cols ==> c in ids
    requires i < |rows|
    requires var r := RowsSpec(cols, ids, facts.accepts, rows[..i]); r.error.None? && facts.links == start + r.links
    modifies facts
    ensures var r := RowsSpec(cols, ids, facts.accepts, rows[..i + 1]); facts.links == start + r.links && error == r.error
  {
    assert rows[..i + 1][..i] == rows[..i];
    error := ImportRow(facts, cols, ids, rows[i]);
  }

  /** The whole script after the connection is open. */
  method Import(dwh: Engine, facts: FactTable, header: seq<string>, rows: seq<seq<string>>) returns (error: Option<string>)
    modifies dwh, facts
    ensures var r := ImportSpec(old(dwh.State()), facts.accepts, header, rows);
      dwh.State() == r.skills && facts.links == old(facts.links) + r.links && error == r.error
  {
    var cols := TjbEtl.SkillColumns(header);
    var ids := TjbEtl.ResolveSkills(dwh, cols);
    ghost var start := facts.links;
    var i := 0;
    while i < |rows|
      invariant 0 <= i <= |rows|
      invariant var r := RowsSpec(cols, ids, facts.accepts, rows[..i]); r.error.None? && facts.links == old(facts.links) + r.links
      invariant dwh.State() == TjbEtl.SkillIdsSpec(old(dwh.State()), cols).db
      invariant TjbEtl.SkillIdsSpec(old(dwh.State()), cols).ids == ids
      invariant start == old(facts.links)
    {
      error := ImportNext(facts, cols, ids, rows, i, start);
      if error.Some? {
        RowsStopAtError(cols, ids, facts.accepts, rows, i + 1);
        return error;
      }
      i := i + 1;
    }
    assert rows[..i] == rows;
    return None;
  }

  // ---------------------------------------------------------------- properties

  /**
    When the database accepts every link, a row raises exactly when it is too short for the last
    skill column, and the links it inserts are exactly one per "1" cell it reads.
   */
  lemma {:induction false} RowRaisesIffShort(employee: string, row: seq<string>, cols: seq<string>, ids: map<string, int>,
                                            accepts: Link -> bool, n: nat)
    requires n <= |cols| && forall c :: c in cols ==> c in ids
    requires forall l :: accepts(l)
    ensures n > 0 ==>
      CellsSpec(employee, row, cols, ids, accepts, n).error == if FirstSkillCell + n <= |row| then None else Some("IndexError")
    decreases n
  {
    if n > 0 {
      RowRaisesIffShort(employee, row, cols, ids, accepts, n - 1);
    }
  }

  /** A run that ends normally inserted a link for a column exactly when its cell holds "1". */
  lemma {:induction false} LinksExactlyForOnes(employee: string, row: seq<string>, cols: seq<string>, ids: map<string, int>,
                                              accepts: Link -> bool, n: nat, link: Link)
    requires n <= |cols| && forall c :: c in cols ==> c in ids
    requires CellsSpec(employee, row, cols, ids, accepts, n).error.None?
    ensures n > 0 ==> FirstSkillCell + n <= |row|
    ensures link in CellsSpec(employee, row, cols, ids, accepts, n).links <==>
      exists k :: 0 <= k < n && row[FirstSkillCell + k] == "1" && link == Link(employee, ids[cols[k]])
    decreases n
  {
    if n > 0 {
      LinksExactlyForOnes(employee, row, cols, ids, accepts, n - 1, link);
    }
  }

  /** A refused insert ends the script: the handler names the other driver's error class. */
  lemma RefusedLinkEndsScript(employee: string, row: seq<string>, cols: seq<string>, ids: map<string, int>,
                              accepts: Link -> bool, n: nat)
    requires 0 < n <= |cols| && forall c :: c in cols ==> c in ids
    requires CellsSpec(employee, row, cols, ids, accepts, n - 1).error.None?
    requires FirstSkillCell + n - 1 < |row| && row[FirstSkillCell + n - 1] == "1"
    requires !accepts(Link(employee, ids[cols[n - 1]]))
    ensures CellsSpec(employee, row, cols, ids, accepts, n).error == Some("IntegrityError")
  {
  }

  /**
    With a header made of an id column, the ten employee columns and the skills, the id column is
    taken for a skill too, and cell `10 + k` is read for skill column `k`: the id column gets the
    Employed cell, and every real skill gets the cell under its own header. A row as long as the
    header is long enough for the whole skill loop.
   */
  lemma AlignedSkillCells(idColumn: string, skills: seq<string>, row: seq<string>)
    requires idColumn !in TjbEtl.NonSkillColumns && forall s :: s in skills ==> s !in TjbEtl.NonSkillColumns
    requires |row| == 1 + |TjbEtl.NonSkillColumns| + |skills|
    ensures var header := [idColumn] + TjbEtl.NonSkillColumns + skills;
      var cols := TjbEtl.SkillColumns(header);
      && cols == [idColumn] + skills
      && header[FirstSkillCell] == "Employed"
      && (forall k :: 1 <= k < |cols| ==> header[FirstSkillCell + k] == cols[k])
      && FirstSkillCell + |cols| <= |row|
  {
    TjbEtl.ShiftedSkillCells(idColumn, skills, row);
  }

  /** The links of the whole run are the rows' links in row order; an exception ends it. */
  lemma {:induction false} RowsAppendInOrder(cols: seq<string>, ids: map<string, int>, accepts: Link -> bool,
                                            rows: seq<seq<string>>, extra: seq<string>)
    requires forall c :: c in cols ==> c in ids
    requires RowsSpec(cols, ids, accepts, rows).error.None?
    ensures var before := RowsSpec(cols, ids, accepts, rows);
      var row := RowSpec(cols, ids, accepts, extra);
      RowsSpec(cols, ids, accepts, rows + [extra]) == Run(before.links + row.links, row.error)
  {
    assert (rows + [extra])[..|rows|] == rows;
  }
}
