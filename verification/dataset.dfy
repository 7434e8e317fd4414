/**
 The dataset the tool reads: a table whose rows map column names to cells.
 One column, `Integration_Level`, labels each row with an integration level;
 the other columns hold KPI values. This module has the two operations the
 pipeline applies to the table before sampling: the integration-level filter
 and the missing-KPI validation.
 */
module Dataset {
  import opened Taxonomy

  /** A cell holds either a number or a piece of text. */
  datatype Cell = Num(value: real) | Text(text: string)

  type Row = map<string, Cell>

  datatype Table = Table(columns: set<string>, rows: seq<Row>)

  const LevelColumn: string := "Integration_Level"

  /** Every row has a cell for exactly the table's columns. */
  predicate WellFormed(t: Table) {
    forall r :: r in t.rows ==> r.Keys == t.columns
  }

  /** The row's integration-level cell is exactly the text `level`. */
  predicate AtLevel(r: Row, level: string) {
    LevelColumn in r && r[LevelColumn] == Text(level)
  }

  /** The rows labelled `level`, in their original order. */
  function FilterRows(rows: seq<Row>, level: string): (r: seq<Row>)
    ensures forall i :: 0 <= i < |r| ==> AtLevel(r[i], level)
    ensures |r| <= |rows|
  {
    if rows == [] then []
    else (if AtLevel(rows[0], level) then [rows[0]] else []) + FilterRows(rows[1..], level)
  }

  /**
   Every row labelled `level` is kept exactly as many times as it occurs,
   and no other row is kept.
   */
  lemma {:induction false} FilterRowsCount(rows: seq<Row>, level: string)
    ensures var r := FilterRows(rows, level);
      forall x :: multiset(r)[x] == if AtLevel(x, level) then multiset(rows)[x] else 0
  {
    if rows != [] {
      FilterRowsCount(rows[1..], level);
      assert rows == [rows[0]] + rows[1..];
    }
  }

  /**
   The table restricted to the rows labelled `level`. Looking up the
   integration-level column of a table without one is an error, which the
   pipeline reports before calling this.
   */
  function Filter(t: Table, level: string): (r: Table)
    requires LevelColumn in t.columns
    ensures r.columns == t.columns
    ensures WellFormed(t) ==> WellFormed(r)
    ensures forall x :: x in r.rows <==> x in t.rows && AtLevel(x, level)
  {
    var rows := FilterRows(t.rows, level);
    FilterRowsCount(t.rows, level);
    assert forall x :: x in rows <==> multiset(rows)[x] > 0;
    Table(t.columns, rows)
  }

  /** Filtering keeps the rows' relative order: it distributes over concatenation. */
  lemma {:induction false} FilterRowsAppend(a: seq<Row>, b: seq<Row>, level: string)
    ensures FilterRows(a + b, level) == FilterRows(a, level) + FilterRows(b, level)
  {
    if a == [] {
      assert a + b == b;
    } else {
      assert (a + b)[1..] == a[1..] + b;
      FilterRowsAppend(a[1..], b, level);
    }
  }

  /** Filtering twice by the same level changes nothing. */
  lemma {:induction false} FilterRowsIdempotent(rows: seq<Row>, level: string)
    ensures FilterRows(FilterRows(rows, level), level) == FilterRows(rows, level)
  {
    if rows != [] {
      var head := if AtLevel(rows[0], level) then [rows[0]] else [];
      FilterRowsIdempotent(rows[1..], level);
      FilterRowsAppend(head, FilterRows(rows[1..], level), level);
      assert FilterRows(head, level) == head by {
        if head != [] {
          assert head[1..] == [];
        }
      }
    }
  }

  /** The chosen KPIs that are not columns of the table, in the order they were chosen. */
  function MissingKpis(chosen: seq<Kpi>, columns: set<string>): (r: seq<Kpi>)
    ensures forall k :: k in r <==> k in chosen && k !in columns
    ensures |r| <= |chosen|
  {
    if chosen == [] then []
    else (if chosen[0] in columns then [] else [chosen[0]]) + MissingKpis(chosen[1..], columns)
  }

  /** The missing list keeps the selection order: it distributes over concatenation. */
  lemma {:induction false} MissingAppend(a: seq<Kpi>, b: seq<Kpi>, columns: set<string>)
    ensures MissingKpis(a + b, columns) == MissingKpis(a, columns) + MissingKpis(b, columns)
  {
    if a == [] {
      assert a + b == b;
    } else {
      assert (a + b)[1..] == a[1..] + b;
      MissingAppend(a[1..], b, columns);
    }
  }

  /**
   Validation is against the column set alone, so the table's rows, and
   how many of them survive the filter, do not affect it.
   */
  lemma MissingAfterFilter(t: Table, level: string, chosen: seq<Kpi>)
    requires LevelColumn in t.columns
    ensures MissingKpis(chosen, Filter(t, level).columns) == MissingKpis(chosen, t.columns)
    ensures MissingKpis(chosen, t.columns) == [] <==> forall k :: k in chosen ==> k in t.columns
  {
    if MissingKpis(chosen, t.columns) != [] {
      assert MissingKpis(chosen, t.columns)[0] in MissingKpis(chosen, t.columns);
    }
  }
}
