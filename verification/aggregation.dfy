/**
 The per-category summary of a simulated matrix: for every category with
 at least one chosen KPI, in declaration order, the mean of the column
 means of that category's KPIs. Columns are found by KPI name in the
 chosen list, which labels the matrix's columns.
 */
module Aggregation {
  import opened Taxonomy
  import opened KpiSelection
  import opened Stats

  datatype Entry = Entry(category: string, value: real)

  /** The first position of `k` in `s`. */
  function IndexOf(s: seq<Kpi>, k: Kpi): (r: nat)
    requires k in s
    ensures r < |s| && s[r] == k
    ensures forall j :: 0 <= j < r ==> s[j] != k
  {
    if s[0] == k then 0 else 1 + IndexOf(s[1..], k)
  }

  /** The matrix columns labelled by `kpis`, looked up by name in `chosen`. */
  function Columns(chosen: seq<Kpi>, kpis: seq<Kpi>): (r: seq<nat>)
    requires forall k :: k in kpis ==> k in chosen
    ensures |r| == |kpis|
    ensures forall j :: 0 <= j < |r| ==> r[j] < |chosen| && chosen[r[j]] == kpis[j]
  {
    seq(|kpis|, j requires 0 <= j < |kpis| => IndexOf(chosen, kpis[j]))
  }

  /** Every row of `m` has exactly `width` values. */
  predicate Shaped(m: Matrix, width: nat) {
    forall i :: 0 <= i < |m| ==> |m[i]| == width
  }

  lemma ShapedCovers(m: Matrix, chosen: seq<Kpi>, kpis: seq<Kpi>)
    requires Shaped(m, |chosen|)
    requires forall k :: k in kpis ==> k in chosen
    ensures Covers(m, Columns(chosen, kpis))
  {
  }

  /**
   `e` summarises category `i`: it carries the category's name and the grand
   mean of the matrix block formed by the category's selected columns.
   */
  predicate Summarises(e: Entry, tax: seq<Category>, sel: seq<seq<Kpi>>, chosen: seq<Kpi>, m: Matrix, i: nat)
    requires |sel| == |tax| && i < |tax| && |m| > 0 && Selected(sel, chosen)
  {
    && e.category == tax[i].name
    && |sel[i]| > 0
    && Covers(m, Columns(chosen, sel[i]))
    && e.value == GrandMean(m, Columns(chosen, sel[i]))
  }

  /** The category positions, from `from` on, whose selection is not empty. */
  function NonEmptyFrom(sel: seq<seq<Kpi>>, from: nat): (r: seq<nat>)
    requires from <= |sel|
    ensures forall a :: 0 <= a < |r| ==> from <= r[a] < |sel| && sel[r[a]] != []
    ensures forall a, b :: 0 <= a < b < |r| ==> r[a] < r[b]
    ensures forall i :: from <= i < |sel| && sel[i] != [] ==> i in r
    decreases |sel| - from
  {
    if from == |sel| then []
    else if sel[from] == [] then NonEmptyFrom(sel, from + 1)
    else [from] + NonEmptyFrom(sel, from + 1)
  }

  function AggregateFrom(tax: seq<Category>, sel: seq<seq<Kpi>>, chosen: seq<Kpi>, m: Matrix, from: nat): seq<Entry>
    requires |sel| == |tax| && from <= |tax|
    requires |m| > 0 && Shaped(m, |chosen|) && Selected(sel, chosen)
    decreases |tax| - from
  {
    if from == |tax| then []
    else if sel[from] == [] then AggregateFrom(tax, sel, chosen, m, from + 1)
    else
      var cols := Columns(chosen, sel[from]);
      ShapedCovers(m, chosen, sel[from]);
      [Entry(tax[from].name, MeanOfColumnMeans(m, cols))] + AggregateFrom(tax, sel, chosen, m, from + 1)
  }

  /**
   Entry `a` of `r` summarises category `p[a]`, for every `a`.
   */
  predicate SummarisesAll(r: seq<Entry>, p: seq<nat>, tax: seq<Category>, sel: seq<seq<Kpi>>, chosen: seq<Kpi>, m: Matrix)
    requires |sel| == |tax| && |m| > 0 && Selected(sel, chosen)
  {
    && |r| == |p|
    && forall a :: 0 <= a < |r| ==> p[a] < |tax| && Summarises(r[a], tax, sel, chosen, m, p[a])
  }

  lemma SummarisesCons(e: Entry, i: nat, r: seq<Entry>, p: seq<nat>, tax: seq<Category>, sel: seq<seq<Kpi>>, chosen: seq<Kpi>, m: Matrix)
    requires |sel| == |tax| && |m| > 0 && Selected(sel, chosen) && i < |tax|
    requires Summarises(e, tax, sel, chosen, m, i) && SummarisesAll(r, p, tax, sel, chosen, m)
    ensures SummarisesAll([e] + r, [i] + p, tax, sel, chosen, m)
  {
    forall a | 0 < a < |r| + 1
      ensures ([e] + r)[a] == r[a - 1] && ([i] + p)[a] == p[a - 1]
    {
    }
  }

  /**
   Entry `a` of the aggregate from `from` on belongs to the `a`-th non-empty
   category from `from` on and holds the grand mean of its block of columns.
   */
  lemma {:induction false} AggregateFromMatches(tax: seq<Category>, sel: seq<seq<Kpi>>, chosen: seq<Kpi>, m: Matrix, from: nat)
    requires |sel| == |tax| && from <= |tax|
    requires |m| > 0 && Shaped(m, |chosen|) && Selected(sel, chosen)
    ensures SummarisesAll(AggregateFrom(tax, sel, chosen, m, from), NonEmptyFrom(sel, from), tax, sel, chosen, m)
    decreases |tax| - from
  {
    if from < |tax| {
      AggregateFromMatches(tax, sel, chosen, m, from + 1);
      var rest, restP := AggregateFrom(tax, sel, chosen, m, from + 1), NonEmptyFrom(sel, from + 1);
      if sel[from] == [] {
        assert AggregateFrom(tax, sel, chosen, m, from) == rest;
        assert NonEmptyFrom(sel, from) == restP;
      } else {
        var e := HeadEntry(tax, sel, chosen, m, from);
        SummarisesCons(e, from, rest, restP, tax, sel, chosen, m);
        assert AggregateFrom(tax, sel, chosen, m, from) == [e] + rest;
        assert NonEmptyFrom(sel, from) == [from] + restP;
      }
    }
  }

  /** The entry of a category with a non-empty selection summarises it. */
  lemma HeadEntry(tax: seq<Category>, sel: seq<seq<Kpi>>, chosen: seq<Kpi>, m: Matrix, i: nat) returns (e: Entry)
    requires |sel| == |tax| && i < |tax| && sel[i] != []
    requires |m| > 0 && Shaped(m, |chosen|) && Selected(sel, chosen)
    ensures Covers(m, Columns(chosen, sel[i]))
    ensures e == Entry(tax[i].name, MeanOfColumnMeans(m, Columns(chosen, sel[i])))
    ensures Summarises(e, tax, sel, chosen, m, i)
  {
    ShapedCovers(m, chosen, sel[i]);
    e := Entry(tax[i].name, MeanOfColumnMeans(m, Columns(chosen, sel[i])));
    MeanOfColumnMeansIsGrandMean(m, Columns(chosen, sel[i]));
  }

  /** The positions of the categories with a non-empty selection, in declaration order. */
  function NonEmpty(sel: seq<seq<Kpi>>): (r: seq<nat>)
    ensures forall a :: 0 <= a < |r| ==> r[a] < |sel| && sel[r[a]] != []
    ensures forall a, b :: 0 <= a < b < |r| ==> r[a] < r[b]
    ensures forall i :: 0 <= i < |sel| && sel[i] != [] ==> i in r
  {
    NonEmptyFrom(sel, 0)
  }

  /**
   The per-category summary. It has one entry per category with a
   non-empty selection, in declaration order, and each entry's value is the
   grand mean of the matrix block formed by that category's columns.
   */
  function Aggregate(tax: seq<Category>, sel: seq<seq<Kpi>>, chosen: seq<Kpi>, m: Matrix): (r: seq<Entry>)
    requires |sel| == |tax|
    requires |m| > 0 && Shaped(m, |chosen|) && Selected(sel, chosen)
    ensures var p := NonEmpty(sel);
      && |r| == |p|
      && forall a :: 0 <= a < |r| ==> Summarises(r[a], tax, sel, chosen, m, p[a])
  {
    AggregateFromMatches(tax, sel, chosen, m, 0);
    AggregateFrom(tax, sel, chosen, m, 0)
  }

  /**
   With distinct category names, the aggregate names exactly the categories
   whose selection is non-empty: no category is missing and none is
   zero-filled.
   */
  lemma AggregateKeys(tax: seq<Category>, sel: seq<seq<Kpi>>, chosen: seq<Kpi>, m: Matrix)
    requires Valid(tax) && |sel| == |tax|
    requires |m| > 0 && Shaped(m, |chosen|) && Selected(sel, chosen)
    ensures var r := Aggregate(tax, sel, chosen, m);
      forall i :: 0 <= i < |tax| ==>
        (sel[i] != [] <==> exists a :: 0 <= a < |r| && r[a].category == tax[i].name)
  {
    var r, p := Aggregate(tax, sel, chosen, m), NonEmpty(sel);
    forall i | 0 <= i < |tax|
      ensures sel[i] != [] <==> exists a :: 0 <= a < |r| && r[a].category == tax[i].name
    {
      if sel[i] != [] {
        var a :| 0 <= a < |p| && p[a] == i;
        assert r[a].category == tax[i].name;
      }
      if a :| 0 <= a < |r| && r[a].category == tax[i].name {
        assert Names(tax)[p[a]] == Names(tax)[i];
        assert p[a] == i;
      }
    }
  }

  /** With distinct category names, the aggregate lists each category at most once. */
  lemma AggregateNoDuplicates(tax: seq<Category>, sel: seq<seq<Kpi>>, chosen: seq<Kpi>, m: Matrix)
    requires Valid(tax) && |sel| == |tax|
    requires |m| > 0 && Shaped(m, |chosen|) && Selected(sel, chosen)
    ensures var r := Aggregate(tax, sel, chosen, m);
      forall a, b :: 0 <= a < b < |r| ==> r[a].category != r[b].category
  {
    var r, p := Aggregate(tax, sel, chosen, m), NonEmpty(sel);
    forall a, b | 0 <= a < b < |r|
      ensures r[a].category != r[b].category
    {
      assert Names(tax)[p[a]] == r[a].category && Names(tax)[p[b]] == r[b].category;
    }
  }
}
