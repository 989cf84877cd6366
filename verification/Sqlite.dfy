/** SQLite as a relation from a query text to rows, and the column view of those rows. */
module Sqlite {
  import opened Text
  import opened SelectText

  type Row = seq<Option<string>>

  datatype RawResult =
    | NoDatabase
    | SqlError
    | Rows(names: seq<string>, rows: seq<Row>)

  /** Every row has one cell a column; `None` is SQL NULL. */
  type SqlResult = r: RawResult | r.Rows? ==> forall row <- r.rows :: |row| == |r.names| witness NoDatabase

  type Database = string -> SqlResult

  predicate HasNull(rows: seq<Row>) {
    exists row <- rows :: None in row
  }

  // ---- Column view

  /** The values of one row at the positions called `name`. */
  function CellsNamed(names: seq<string>, row: Row, name: string): seq<string>
    requires |names| == |row|
  {
    if row == [] then []
    else
      var n := |row| - 1;
      CellsNamed(names[..n], row[..n], name)
      + if names[n] == name && row[n].Some? then [row[n].value] else []
  }

  /** The values of all rows, in row order, at the positions called `name`. */
  function ColumnCells(names: seq<string>, rows: seq<Row>, name: string): seq<string>
    requires forall row <- rows :: |row| == |names|
  {
    if rows == [] then []
    else ColumnCells(names, rows[..|rows| - 1], name) + CellsNamed(names, rows[|rows| - 1], name)
  }

  function Gathered(names: seq<string>, rows: seq<Row>): map<string, seq<string>>
    requires forall row <- rows :: |row| == |names|
  {
    if rows == [] then map[] else map name | name in names :: ColumnCells(names, rows, name)
  }

  /** The columns gathered so far, with one more row. */
  function WithRow(columns: map<string, seq<string>>, names: seq<string>, row: Row): map<string, seq<string>>
    requires |names| == |row|
  {
    map name | name in columns.Keys + (set n | n in names) ::
      (if name in columns then columns[name] else []) + CellsNamed(names, row, name)
  }

  lemma WithNoCells(columns: map<string, seq<string>>)
    ensures WithRow(columns, [], []) == columns
  {
    assert forall name <- columns :: columns[name] + [] == columns[name];
  }

  lemma NextCell(names: seq<string>, row: Row, i: nat, name: string)
    requires |names| == |row| && i < |row| && row[i].Some?
    ensures CellsNamed(names[..i + 1], row[..i + 1], name)
         == CellsNamed(names[..i], row[..i], name) + if names[i] == name then [row[i].value] else []
  {
    assert names[..i + 1][..i] == names[..i] && row[..i + 1][..i] == row[..i];
  }

  lemma WithCell(columns: map<string, seq<string>>, names: seq<string>, row: Row, i: nat)
    requires |names| == |row| && i < |row| && row[i].Some?
    ensures var before := WithRow(columns, names[..i], row[..i]);
            WithRow(columns, names[..i + 1], row[..i + 1])
            == before[names[i] := (if names[i] in before then before[names[i]] else []) + [row[i].value]]
  {
    var before, after := WithRow(columns, names[..i], row[..i]), WithRow(columns, names[..i + 1], row[..i + 1]);
    var column := if names[i] in before then before[names[i]] else [];
    NextKey(columns, names, row, i);
    forall name | name in after
      ensures after[name] == before[names[i] := column + [row[i].value]][name]
    {
      NextCell(names, row, i, name);
      if names[i] !in before {
        CellIsAbsent(names[..i], row[..i], names[i]);
      }
    }
  }

  lemma NextKey(columns: map<string, seq<string>>, names: seq<string>, row: Row, i: nat)
    requires |names| == |row| && i < |row|
    ensures WithRow(columns, names[..i + 1], row[..i + 1]).Keys
         == WithRow(columns, names[..i], row[..i]).Keys + {names[i]}
  {
    assert names[..i + 1] == names[..i] + [names[i]];
  }

  lemma WithLastRow(names: seq<string>, rows: seq<Row>)
    requires rows != [] && forall row <- rows :: |row| == |names|
    ensures var n := |rows| - 1;
            Gathered(names, rows) == WithRow(Gathered(names, rows[..n]), names, rows[n])
  {
    hide CellsNamed;
    var n := |rows| - 1;
    var init, last := rows[..n], rows[n];
    assert last in rows;
    var after := WithRow(Gathered(names, init), names, last);
    assert after.Keys == Gathered(names, rows).Keys;
    forall name | name in names
      ensures ColumnCells(names, rows, name) == after[name]
    {
      assert ColumnCells(names, rows, name) == ColumnCells(names, init, name) + CellsNamed(names, last, name);
    }
  }

  predicate Distinct(names: seq<string>) {
    forall i, j :: 0 <= i < j < |names| ==> names[i] != names[j]
  }

  /** The name at position `k` is used nowhere else. */
  predicate Once(names: seq<string>, k: nat) {
    k < |names| && forall j :: 0 <= j < |names| && j != k ==> names[j] != names[k]
  }

  /** The cells at position `k`, one a row. */
  predicate Transposed(column: seq<string>, rows: seq<Row>, k: nat) {
    |column| == |rows| && forall r :: 0 <= r < |rows| ==> k < |rows[r]| && rows[r][k] == Some(column[r])
  }

  lemma TransposedNext(column: seq<string>, rows: seq<Row>, last: Row, k: nat)
    requires Transposed(column, rows, k) && k < |last| && last[k].Some?
    ensures Transposed(column + [last[k].value], rows + [last], k)
  {
  }

  /** A name used once: the column is the transpose, one value a row. */
  lemma {:induction false} ColumnIsTranspose(names: seq<string>, rows: seq<Row>, k: nat)
    requires forall row <- rows :: |row| == |names| && None !in row
    requires Once(names, k)
    ensures Transposed(ColumnCells(names, rows, names[k]), rows, k)
  {
    if rows != [] {
      hide CellsNamed, Once, Transposed;
      var n := |rows| - 1;
      var init, last := rows[..n], rows[n];
      assert last in rows && rows == init + [last];
      ColumnIsTranspose(names, init, k);
      CellIsUnique(names, last, k);
      TransposedNext(ColumnCells(names, init, names[k]), init, last, k);
    }
  }

  lemma {:induction false} CellIsUnique(names: seq<string>, row: Row, k: nat)
    requires |names| == |row| && None !in row
    requires Once(names, k)
    ensures row[k].Some?
    ensures CellsNamed(names, row, names[k]) == [row[k].value]
  {
    assert row[k] in row;
    var n := |row| - 1;
    if k < n {
      CellIsUnique(names[..n], row[..n], k);
    } else {
      CellIsAbsent(names[..n], row[..n], names[k]);
    }
  }

  lemma {:induction false} CellIsAbsent(names: seq<string>, row: Row, name: string)
    requires |names| == |row| && name !in names
    ensures CellsNamed(names, row, name) == []
  {
    if row != [] {
      CellIsAbsent(names[..|row| - 1], row[..|row| - 1], name);
    }
  }

  lemma {:induction false} CellsOfOccurrences(names: seq<string>, row: Row, name: string)
    requires |names| == |row| && None !in row
    ensures |CellsNamed(names, row, name)| == multiset(names)[name]
  {
    if row != [] {
      var n := |row| - 1;
      assert names == names[..n] + [names[n]];
      assert row[n] in row;
      CellsOfOccurrences(names[..n], row[..n], name);
    }
  }

  /** A column has one value a row for every time its name occurs. */
  lemma {:induction false} ColumnLength(names: seq<string>, rows: seq<Row>, name: string)
    requires forall row <- rows :: |row| == |names| && None !in row
    ensures |ColumnCells(names, rows, name)| == |rows| * multiset(names)[name]
  {
    if rows != [] {
      var n, m := |rows| - 1, multiset(names)[name];
      var init, last := rows[..n], rows[n];
      assert last in rows;
      ColumnLength(names, init, name);
      CellsOfOccurrences(names, last, name);
      assert ColumnCells(names, rows, name) == ColumnCells(names, init, name) + CellsNamed(names, last, name);
      OneMore(n, m);
    }
  }

  lemma OneMore(n: nat, m: nat)
    ensures (n + 1) * m == n * m + m
  {
  }

  // ---- A database of tables, answering the text by reading it back

  datatype Table = Table(columns: seq<string>, rows: seq<seq<string>>)

  predicate ValidTable(t: Table) {
    Distinct(t.columns) && forall row <- t.rows :: |row| == |t.columns|
  }

  /** `keeps(condition, table, row)`: the WHERE text, opaque here. */
  datatype Catalog = Catalog(tables: map<string, Table>, keeps: (string, Table, seq<string>) -> bool)

  predicate ValidCatalog(c: Catalog) {
    forall t <- c.tables :: ValidTable(c.tables[t])
  }

  function Position(columns: seq<string>, name: string): (k: nat)
    requires name in columns
    ensures k < |columns| && columns[k] == name
  {
    if columns[0] == name then 0 else 1 + Position(columns[1..], name)
  }

  predicate Known(fields: seq<string>, columns: seq<string>) {
    forall f <- fields :: f in columns
  }

  function Project(t: Table, fields: seq<string>, row: seq<string>): (r: Row)
    requires |row| == |t.columns| && Known(fields, t.columns)
    ensures |r| == |fields| && None !in r
  {
    if fields == [] then []
    else [Some(row[Position(t.columns, fields[0])])] + Project(t, fields[1..], row)
  }

  function Select(c: Catalog, t: Table, job: Job, rows: seq<seq<string>>): (r: seq<seq<string>>)
    ensures forall row <- r :: row in rows
  {
    if rows == [] then []
    else (if job.condition.None? || c.keeps(job.condition.value, t, rows[0]) then [rows[0]] else [])
         + Select(c, t, job, rows[1..])
  }

  /** Selected are the rows that meet the condition, all of them and in their order. */
  lemma {:induction false} SelectedExactly(
    c: Catalog, t: Table, job: Job, rows: seq<seq<string>>, more: seq<seq<string>>)
    ensures Select(c, t, job, rows + more) == Select(c, t, job, rows) + Select(c, t, job, more)
    ensures |rows| == 1 ==>
              Select(c, t, job, rows) == if job.condition.Some? && !c.keeps(job.condition.value, t, rows[0]) then []
                                         else rows
  {
    if rows == [] {
      assert rows + more == more;
    } else {
      assert (rows + more)[1..] == rows[1..] + more;
      SelectedExactly(c, t, job, rows[1..], more);
    }
  }

  lemma {:induction false} SelectAll(catalog: Catalog, t: Table, job: Job, rows: seq<seq<string>>)
    requires job.condition.None?
    ensures Select(catalog, t, job, rows) == rows
  {
    if rows != [] {
      SelectAll(catalog, t, job, rows[1..]);
    }
  }

  function ProjectAll(t: Table, fields: seq<string>, rows: seq<seq<string>>): (r: seq<Row>)
    requires (forall row <- rows :: |row| == |t.columns|) && Known(fields, t.columns)
    ensures |r| == |rows| && forall i :: 0 <= i < |rows| ==> r[i] == Project(t, fields, rows[i])
    ensures forall row <- r :: |row| == |fields| && None !in row
  {
    if rows == [] then [] else [Project(t, fields, rows[0])] + ProjectAll(t, fields, rows[1..])
  }

  /** `*` stands for every column. */
  function Wanted(t: Table, fields: seq<string>): seq<string> {
    if fields == ["*"] then t.columns else fields
  }

  function ExecJob(c: Catalog, job: Job): SqlResult
    requires ValidCatalog(c)
  {
    if job.table in c.tables && Known(Wanted(c.tables[job.table], job.fields), c.tables[job.table].columns) then
      var t := c.tables[job.table];
      var fields := Wanted(t, job.fields);
      Rows(fields, ProjectAll(t, fields, Select(c, t, job, t.rows)))
    else
      SqlError
  }

  function Exec(c: Catalog, text: string): SqlResult
    requires ValidCatalog(c)
  {
    match ParseSelect(text)
    case None => SqlError
    case Some(job) => ExecJob(c, job)
  }

  function DatabaseOf(c: Catalog): Database
    requires ValidCatalog(c)
  {
    text => Exec(c, text)
  }

  /** The values of one column of the rows that meet the condition. */
  function TableColumn(t: Table, rows: seq<seq<string>>, field: string): (column: seq<string>)
    requires field in t.columns && forall row <- rows :: |row| == |t.columns|
    ensures |column| == |rows|
  {
    seq(|rows|, r requires 0 <= r < |rows| => rows[r][Position(t.columns, field)])
  }

  /** The column delivered is the table's own column exactly when its field was asked for once. */
  lemma ColumnOfTable(t: Table, fields: seq<string>, rows: seq<seq<string>>, k: nat)
    requires (forall row <- rows :: |row| == |t.columns|) && Known(fields, t.columns)
    requires rows != [] && k < |fields|
    ensures ColumnCells(fields, ProjectAll(t, fields, rows), fields[k]) == TableColumn(t, rows, fields[k])
       <==> Once(fields, k)
  {
    hide TableColumn, ColumnCells, Project;
    if Once(fields, k) {
      OnceColumn(t, fields, rows, k);
    } else {
      var j :| 0 <= j < |fields| && j != k && fields[j] == fields[k];
      Twice(fields, if j < k then j else k, if j < k then k else j);
      ColumnLength(fields, ProjectAll(t, fields, rows), fields[k]);
      MoreThanRows(|rows|, multiset(fields)[fields[k]]);
    }
  }

  lemma OnceColumn(t: Table, fields: seq<string>, rows: seq<seq<string>>, k: nat)
    requires (forall row <- rows :: |row| == |t.columns|) && Known(fields, t.columns)
    requires Once(fields, k)
    ensures ColumnCells(fields, ProjectAll(t, fields, rows), fields[k]) == TableColumn(t, rows, fields[k])
  {
    hide ColumnCells, Project;
    var projected := ProjectAll(t, fields, rows);
    ColumnIsTranspose(fields, projected, k);
    forall r | 0 <= r < |rows|
      ensures projected[r][k] == Some(rows[r][Position(t.columns, fields[k])])
    {
      ProjectAt(t, fields, rows[r], k);
    }
  }

  lemma Twice(names: seq<string>, a: nat, b: nat)
    requires a < b < |names| && names[a] == names[b]
    ensures multiset(names)[names[a]] >= 2
  {
    assert names == names[..b] + names[b..];
    assert names[..b][a] in multiset(names[..b]);
    assert names[b..][0] in multiset(names[b..]);
  }

  lemma MoreThanRows(rows: nat, m: nat)
    requires rows > 0 && m >= 2
    ensures rows * m > rows
  {
  }

  lemma {:induction false} ProjectAt(t: Table, fields: seq<string>, row: seq<string>, k: nat)
    requires |row| == |t.columns| && Known(fields, t.columns) && k < |fields|
    ensures Project(t, fields, row)[k] == Some(row[Position(t.columns, fields[k])])
  {
    if k > 0 {
      ProjectAt(t, fields[1..], row, k - 1);
    }
  }
}
