/**
 The Monte Carlo perturbation: a fixed number of draws, each picking one
 row of the filtered table (with replacement) and adding a noise vector
 to that row's values for the chosen KPIs. The random choices are inputs:
 `picks[i]` is the position of the row drawn at step `i` and `noise[i]`
 the noise vector added at that step.
 */
module Sampler {
  import opened Taxonomy
  import opened Dataset
  import opened Stats

  /** The number of simulated samples. */
  const NumSimulations: nat := 1000

  datatype Draws = Draws(picks: seq<nat>, noise: seq<seq<real>>)

  /** Why a run ends in the caught, generic error. */
  datatype Fault =
    | LevelColumnMissing      // the table has no integration-level column
    | EmptySample             // a row was to be drawn from no rows
    | NonNumericCell(kpi: Kpi) // a drawn row holds text under a chosen KPI

  datatype Sample = Sampled(matrix: Matrix) | Faulted(fault: Fault)

  /**
   What the random source provides: one pick and one noise vector per
   simulation, every noise vector as long as the KPI list, and, when there
   are rows to draw from, every pick a position among them.
   */
  predicate Fits(d: Draws, rowCount: nat, width: nat) {
    && |d.picks| == NumSimulations
    && |d.noise| == NumSimulations
    && (forall i :: 0 <= i < NumSimulations ==> |d.noise[i]| == width)
    && (rowCount > 0 ==> forall i :: 0 <= i < NumSimulations ==> d.picks[i] < rowCount)
  }

  /** Every row has a cell for every chosen KPI. */
  predicate HasColumns(rows: seq<Row>, chosen: seq<Kpi>) {
    forall i, j :: 0 <= i < |rows| && 0 <= j < |chosen| ==> chosen[j] in rows[i]
  }

  /** Every drawn row holds a number under every chosen KPI. */
  predicate DrawsNumeric(rows: seq<Row>, chosen: seq<Kpi>, d: Draws)
    requires |rows| > 0 && HasColumns(rows, chosen) && Fits(d, |rows|, |chosen|)
  {
    forall i, j :: 0 <= i < NumSimulations && 0 <= j < |chosen| ==> rows[d.picks[i]][chosen[j]].Num?
  }

  /**
   `m` has one row per simulation and one column per chosen KPI, in the
   chosen order; cell (i, j) is the value of KPI j in the row drawn at step
   i plus the noise drawn for it.
   */
  predicate SampledFrom(m: Matrix, rows: seq<Row>, chosen: seq<Kpi>, d: Draws)
    requires |rows| > 0 && HasColumns(rows, chosen) && Fits(d, |rows|, |chosen|)
  {
    && |m| == NumSimulations
    && (forall i :: 0 <= i < |m| ==> |m[i]| == |chosen|)
    && (forall i, j :: 0 <= i < |m| && 0 <= j < |chosen| ==>
          rows[d.picks[i]][chosen[j]] == Num(m[i][j] - d.noise[i][j]))
  }

  /**
   Runs the simulation loop. Drawing from no rows fails at the first step;
   a drawn row holding text under a chosen KPI fails when its values are
   perturbed; otherwise the full matrix is produced.
   */
  method Simulate(rows: seq<Row>, chosen: seq<Kpi>, d: Draws) returns (s: Sample)
    requires HasColumns(rows, chosen) && Fits(d, |rows|, |chosen|)
    ensures rows == [] ==> s == Faulted(EmptySample)
    ensures rows != [] ==> (s.Sampled? <==> DrawsNumeric(rows, chosen, d))
    ensures s.Sampled? ==> rows != [] && SampledFrom(s.matrix, rows, chosen, d)
    ensures s.Faulted? && rows != [] ==>
              && s.fault.NonNumericCell?
              && s.fault.kpi in chosen
              && exists i :: 0 <= i < NumSimulations && rows[d.picks[i]][s.fault.kpi].Text?
  {
    var m: Matrix := [];
    var i := 0;
    while i < NumSimulations
      invariant 0 <= i <= NumSimulations && |m| == i
      invariant i > 0 ==> rows != []
      invariant forall a :: 0 <= a < i ==> |m[a]| == |chosen|
      invariant forall a, j :: 0 <= a < i && 0 <= j < |chosen| ==>
                  rows[d.picks[a]][chosen[j]] == Num(m[a][j] - d.noise[a][j])
    {
      if rows == [] {
        return Faulted(EmptySample);
      }
      var row := rows[d.picks[i]];
      var values: seq<real> := [];
      var j := 0;
      while j < |chosen|
        invariant 0 <= j <= |chosen| && |values| == j
        invariant forall b :: 0 <= b < j ==> row[chosen[b]] == Num(values[b] - d.noise[i][b])
      {
        var cell := row[chosen[j]];
        if cell.Text? {
          return Faulted(NonNumericCell(chosen[j]));
        }
        values := values + [cell.value + d.noise[i][j]];
        j := j + 1;
      }
      m := m + [values];
      i := i + 1;
    }
    return Sampled(m);
  }
}
