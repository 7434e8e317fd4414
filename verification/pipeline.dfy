/**
 One run of the outcomes step: filter the table by integration level,
 check the chosen KPIs against its columns, then either report the missing
 KPIs, prompt for a selection, or simulate and summarise. Any failure while
 filtering or sampling ends in the generic caught error.
 */
module Pipeline {
  import opened Taxonomy
  import opened KpiSelection
  import opened Dataset
  import opened Stats
  import opened Sampler
  import opened Aggregation

  datatype Outcome =
    | MissingKpiError(names: seq<Kpi>)              // the listed KPIs are not dataset columns
    | SelectKpiPrompt                               // no KPI was chosen
    | Results(matrix: Matrix, summary: seq<Entry>)  // the simulated matrix and its per-category summary
    | Failed(fault: Fault)                          // the caught, generic error

  /**
   The outcome of one run. The checks happen in the program's order: the
   integration-level column is looked up first, then missing KPIs are
   reported, then an empty selection is prompted for, and only then does the
   simulation run.
   */
  method Run(t: Table, sel: Selection, level: string, d: Draws) returns (o: Outcome)
    requires Dataset.WellFormed(t) && KpiSelection.WellFormed(Categories, sel)
    requires Fits(d, |FilterRows(t.rows, level)|, |Flatten(sel)|)
    ensures LevelColumn !in t.columns ==> o == Failed(LevelColumnMissing)
    ensures LevelColumn in t.columns ==>
      var chosen, missing, rows := Flatten(sel), MissingKpis(Flatten(sel), t.columns), FilterRows(t.rows, level);
      && (missing != [] ==> o == MissingKpiError(missing))
      && (missing == [] && chosen == [] ==> o == SelectKpiPrompt)
      && (missing == [] && chosen != [] && rows == [] ==> o == Failed(EmptySample))
      && (missing == [] && chosen != [] && rows != [] ==>
            && HasColumns(rows, chosen)
            && (o.Results? <==> DrawsNumeric(rows, chosen, d))
            && (!DrawsNumeric(rows, chosen, d) ==>
                  && o.Failed? && o.fault.NonNumericCell?
                  && o.fault.kpi in chosen
                  && exists i :: 0 <= i < NumSimulations && rows[d.picks[i]][o.fault.kpi].Text?))
      && (o.Results? ==>
            && |o.matrix| == NumSimulations
            && rows != [] && HasColumns(rows, chosen)
            && SampledFrom(o.matrix, rows, chosen, d)
            && Shaped(o.matrix, |chosen|) && Selected(sel, chosen)
            && o.summary == Aggregate(Categories, sel, chosen, o.matrix))
  {
    if LevelColumn !in t.columns {
      return Failed(LevelColumnMissing);
    }
    var filtered := Filter(t, level);
    var chosen := Flatten(sel);
    var missing := MissingKpis(chosen, filtered.columns);
    if missing != [] {
      return MissingKpiError(missing);
    }
    if chosen == [] {
      return SelectKpiPrompt;
    }
    assert HasColumns(filtered.rows, chosen) by {
      forall i, j | 0 <= i < |filtered.rows| && 0 <= j < |chosen|
        ensures chosen[j] in filtered.rows[i]
      {
        assert filtered.rows[i] in filtered.rows;
        assert chosen[j] in chosen;
      }
    }
    var s := Simulate(filtered.rows, chosen, d);
    match s
    case Faulted(f) =>
      return Failed(f);
    case Sampled(m) =>
      return Results(m, Aggregate(Categories, sel, chosen, m));
  }

  /**
   When every row drawn from holds the value `v` under each of a category's KPIs
   and every noise draw lies within [-e, e], that category's summary value
   lies within [v - e, v + e].
   */
  lemma CategoryMeanWithinNoise(rows: seq<Row>, chosen: seq<Kpi>, d: Draws, m: Matrix, kpis: seq<Kpi>, v: real, e: real)
    requires |rows| > 0 && HasColumns(rows, chosen) && Fits(d, |rows|, |chosen|)
    requires SampledFrom(m, rows, chosen, d)
    requires |kpis| > 0 && forall k :: k in kpis ==> k in chosen
    requires forall i, k :: 0 <= i < |rows| && k in kpis ==> k in rows[i] && rows[i][k] == Num(v)
    requires forall a, j :: 0 <= a < NumSimulations && 0 <= j < |chosen| ==> -e <= d.noise[a][j] <= e
    ensures Covers(m, Columns(chosen, kpis))
    ensures v - e <= GrandMean(m, Columns(chosen, kpis)) <= v + e
  {
    var cols := Columns(chosen, kpis);
    ShapedCovers(m, chosen, kpis);
    forall a, j | 0 <= a < |m| && 0 <= j < |cols|
      ensures v - e <= m[a][cols[j]] <= v + e
    {
      assert rows[d.picks[a]][chosen[cols[j]]] == Num(m[a][cols[j]] - d.noise[a][cols[j]]);
      assert kpis[j] in kpis;
    }
    GrandMeanBounds(m, cols, v - e, v + e);
  }
}
