/**
 Sums and means over a block of a numeric matrix: the rows of the matrix
 and a list of its column positions. The aggregation step takes, for one
 category, the mean of its columns' means; this module proves that this
 equals the mean of the row means and the grand mean of the block, because
 every column has the same number of rows.
 */
module Stats {

  type Matrix = seq<seq<real>>

  /** Every listed column position exists in every row. */
  predicate Covers(m: Matrix, cols: seq<nat>) {
    forall i, j :: 0 <= i < |m| && 0 <= j < |cols| ==> cols[j] < |m[i]|
  }

  function ColumnSum(m: Matrix, c: nat): real
    requires forall i :: 0 <= i < |m| ==> c < |m[i]|
  {
    if m == [] then 0.0 else m[0][c] + ColumnSum(m[1..], c)
  }

  function RowSum(row: seq<real>, cols: seq<nat>): real
    requires forall j :: 0 <= j < |cols| ==> cols[j] < |row|
  {
    if cols == [] then 0.0 else row[cols[0]] + RowSum(row, cols[1..])
  }

  /** The sum of every cell of the block, row by row. */
  function BlockSum(m: Matrix, cols: seq<nat>): real
    requires Covers(m, cols)
  {
    if m == [] then 0.0 else RowSum(m[0], cols) + BlockSum(m[1..], cols)
  }

  function SumOfColumnSums(m: Matrix, cols: seq<nat>): real
    requires Covers(m, cols)
  {
    if cols == [] then 0.0 else ColumnSum(m, cols[0]) + SumOfColumnSums(m, cols[1..])
  }

  function ColumnMean(m: Matrix, c: nat): real
    requires |m| > 0
    requires forall i :: 0 <= i < |m| ==> c < |m[i]|
  {
    ColumnSum(m, c) / |m| as real
  }

  function SumOfColumnMeans(m: Matrix, cols: seq<nat>): real
    requires |m| > 0 && Covers(m, cols)
  {
    if cols == [] then 0.0 else ColumnMean(m, cols[0]) + SumOfColumnMeans(m, cols[1..])
  }

  /** The mean, over the listed columns, of each column's mean. */
  function MeanOfColumnMeans(m: Matrix, cols: seq<nat>): real
    requires |m| > 0 && |cols| > 0 && Covers(m, cols)
  {
    SumOfColumnMeans(m, cols) / |cols| as real
  }

  function RowMean(row: seq<real>, cols: seq<nat>): real
    requires |cols| > 0
    requires forall j :: 0 <= j < |cols| ==> cols[j] < |row|
  {
    RowSum(row, cols) / |cols| as real
  }

  function SumOfRowMeans(m: Matrix, cols: seq<nat>): real
    requires |cols| > 0 && Covers(m, cols)
  {
    if m == [] then 0.0 else RowMean(m[0], cols) + SumOfRowMeans(m[1..], cols)
  }

  /** The mean, over the rows, of each row's mean across the listed columns. */
  function MeanOfRowMeans(m: Matrix, cols: seq<nat>): real
    requires |m| > 0 && |cols| > 0 && Covers(m, cols)
  {
    SumOfRowMeans(m, cols) / |m| as real
  }

  /** The mean of all |m| * |cols| cells of the block. */
  function GrandMean(m: Matrix, cols: seq<nat>): real
    requires |m| > 0 && |cols| > 0 && Covers(m, cols)
  {
    BlockSum(m, cols) / (|m| * |cols|) as real
  }

  /** Summing the columns of a block peels off its first row. */
  lemma {:induction false} ColumnSumsPeel(m: Matrix, cols: seq<nat>)
    requires |m| > 0 && Covers(m, cols)
    ensures SumOfColumnSums(m, cols) == RowSum(m[0], cols) + SumOfColumnSums(m[1..], cols)
  {
    if cols != [] {
      ColumnSumsPeel(m, cols[1..]);
    }
  }

  /** Summing a block column by column gives the same total as row by row. */
  lemma {:induction false} SumSwap(m: Matrix, cols: seq<nat>)
    requires Covers(m, cols)
    ensures SumOfColumnSums(m, cols) == BlockSum(m, cols)
  {
    if m == [] {
      ZeroColumnSums(m, cols);
    } else {
      ColumnSumsPeel(m, cols);
      SumSwap(m[1..], cols);
    }
  }

  lemma {:induction false} ZeroColumnSums(m: Matrix, cols: seq<nat>)
    requires m == []
    ensures SumOfColumnSums(m, cols) == 0.0
  {
    if cols != [] {
      ZeroColumnSums(m, cols[1..]);
    }
  }

  /** A sum of column means is the sum of column sums over the row count. */
  lemma {:induction false} ColumnMeansScale(m: Matrix, cols: seq<nat>)
    requires |m| > 0 && Covers(m, cols)
    ensures SumOfColumnMeans(m, cols) == SumOfColumnSums(m, cols) / |m| as real
  {
    if cols != [] {
      ColumnMeansScale(m, cols[1..]);
    }
  }

  /** A sum of row means is the block sum over the column count. */
  lemma {:induction false} RowMeansScale(m: Matrix, cols: seq<nat>)
    requires |cols| > 0 && Covers(m, cols)
    ensures SumOfRowMeans(m, cols) == BlockSum(m, cols) / |cols| as real
  {
    if m != [] {
      RowMeansScale(m[1..], cols);
    }
  }

  lemma DivideTwice(s: real, a: real, b: real)
    requires a > 0.0 && b > 0.0
    ensures (s / a) / b == s / (a * b)
  {
    var q := s / (a * b);
    assert q * (a * b) == s;
    assert (q * b) * a == s;
    assert s / a == q * b;
  }

  /**
   The mean of the column means of a block equals the block's grand mean,
   because all columns have the same number of rows.
   */
  lemma MeanOfColumnMeansIsGrandMean(m: Matrix, cols: seq<nat>)
    requires |m| > 0 && |cols| > 0 && Covers(m, cols)
    ensures MeanOfColumnMeans(m, cols) == GrandMean(m, cols)
  {
    ColumnMeansScale(m, cols);
    SumSwap(m, cols);
    DivideTwice(BlockSum(m, cols), |m| as real, |cols| as real);
  }

  /** The mean of the row means of a block also equals its grand mean. */
  lemma MeanOfRowMeansIsGrandMean(m: Matrix, cols: seq<nat>)
    requires |m| > 0 && |cols| > 0 && Covers(m, cols)
    ensures MeanOfRowMeans(m, cols) == GrandMean(m, cols)
  {
    RowMeansScale(m, cols);
    DivideTwice(BlockSum(m, cols), |cols| as real, |m| as real);
  }

  /** Every cell of the block lies within [lo, hi]. */
  predicate Within(m: Matrix, cols: seq<nat>, lo: real, hi: real)
    requires Covers(m, cols)
  {
    forall i, j :: 0 <= i < |m| && 0 <= j < |cols| ==> lo <= m[i][cols[j]] <= hi
  }

  lemma {:induction false} RowSumBounds(row: seq<real>, cols: seq<nat>, lo: real, hi: real)
    requires forall j :: 0 <= j < |cols| ==> cols[j] < |row|
    requires forall j :: 0 <= j < |cols| ==> lo <= row[cols[j]] <= hi
    ensures |cols| as real * lo <= RowSum(row, cols) <= |cols| as real * hi
  {
    if cols != [] {
      var k := |cols| as real;
      RowSumBounds(row, cols[1..], lo, hi);
      assert |cols[1..]| as real == k - 1.0;
      assert k * lo == lo + (k - 1.0) * lo;
      assert k * hi == hi + (k - 1.0) * hi;
    }
  }

  lemma RowMeanBounds(row: seq<real>, cols: seq<nat>, lo: real, hi: real)
    requires |cols| > 0
    requires forall j :: 0 <= j < |cols| ==> cols[j] < |row|
    requires forall j :: 0 <= j < |cols| ==> lo <= row[cols[j]] <= hi
    ensures lo <= RowMean(row, cols) <= hi
  {
    RowSumBounds(row, cols, lo, hi);
    DivideBounds(|cols| as real, lo, hi, RowSum(row, cols));
  }

  lemma WithinTail(m: Matrix, cols: seq<nat>, lo: real, hi: real)
    requires |m| > 0 && Covers(m, cols) && Within(m, cols, lo, hi)
    ensures Covers(m[1..], cols) && Within(m[1..], cols, lo, hi)
  {
    forall i, j | 0 <= i < |m[1..]| && 0 <= j < |cols|
      ensures cols[j] < |m[1..][i]| && lo <= m[1..][i][cols[j]] <= hi
    {
      assert m[1..][i] == m[i + 1];
    }
  }

  /** One more value in [a, b] added to k values whose sum lies in [k * a, k * b]. */
  lemma AddBounds(k: real, a: real, b: real, first: real, rest: real)
    requires a <= first <= b && k * a <= rest <= k * b
    ensures (k + 1.0) * a <= first + rest <= (k + 1.0) * b
  {
    assert (k + 1.0) * a == a + k * a;
    assert (k + 1.0) * b == b + k * b;
  }

  /** Dividing a value in [k * a, k * b] by k lands in [a, b]. */
  lemma DivideBounds(k: real, a: real, b: real, x: real)
    requires k > 0.0 && k * a <= x <= k * b
    ensures a <= x / k <= b
  {
    assert (k * a) / k == a && (k * b) / k == b;
  }

  lemma {:induction false} RowMeansBounds(m: Matrix, cols: seq<nat>, lo: real, hi: real)
    requires |cols| > 0 && Covers(m, cols) && Within(m, cols, lo, hi)
    ensures |m| as real * lo <= SumOfRowMeans(m, cols) <= |m| as real * hi
  {
    if m != [] {
      var first, rest := RowMean(m[0], cols), SumOfRowMeans(m[1..], cols);
      assert SumOfRowMeans(m, cols) == first + rest;
      RowMeanBounds(m[0], cols, lo, hi);
      WithinTail(m, cols, lo, hi);
      RowMeansBounds(m[1..], cols, lo, hi);
      var k := |m[1..]| as real;
      assert |m| as real == k + 1.0;
      AddBounds(k, lo, hi, first, rest);
    }
  }

  /** A mean lies between the smallest and the largest value averaged. */
  lemma GrandMeanBounds(m: Matrix, cols: seq<nat>, lo: real, hi: real)
    requires |m| > 0 && |cols| > 0 && Covers(m, cols) && Within(m, cols, lo, hi)
    ensures lo <= GrandMean(m, cols) <= hi
  {
    RowMeansBounds(m, cols, lo, hi);
    MeanOfRowMeansIsGrandMean(m, cols);
    DivideBounds(|m| as real, lo, hi, SumOfRowMeans(m, cols));
  }
}
