/**
 The user's KPI selection: for every category of the taxonomy, in declaration
 order, the KPIs picked from that category's list; and the flattened list of
 chosen KPIs the simulation works on.
 */
module KpiSelection {
  import opened Taxonomy

  /** `sel[i]` holds the KPIs picked for category `i` of the taxonomy. */
  type Selection = seq<seq<Kpi>>

  /**
   What the per-category multi-select guarantees: one entry per category,
   each a duplicate-free list drawn from that category's KPIs.
   */
  predicate WellFormed(tax: seq<Category>, sel: Selection) {
    && |sel| == |tax|
    && forall i :: 0 <= i < |sel| ==>
         NoDuplicates(sel[i]) && forall k :: k in sel[i] ==> k in tax[i].kpis
  }

  /** Every KPI picked in any category is among `chosen`. */
  predicate Selected(sel: Selection, chosen: seq<Kpi>) {
    forall i, k :: 0 <= i < |sel| && k in sel[i] ==> k in chosen
  }

  /** The chosen KPIs: each category's selection, concatenated in category order. */
  function Flatten(sel: Selection): (r: seq<Kpi>)
    ensures Selected(sel, r)
  {
    if sel == [] then [] else sel[0] + Flatten(sel[1..])
  }

  /** Flattening distributes over concatenation of selections. */
  lemma {:induction false} FlattenAppend(a: Selection, b: Selection)
    ensures Flatten(a + b) == Flatten(a) + Flatten(b)
  {
    if a == [] {
      assert a + b == b;
    } else {
      assert (a + b)[1..] == a[1..] + b;
      FlattenAppend(a[1..], b);
    }
  }

  /**
   Category `i`'s selection sits in the flattened list between the selections
   of the categories declared before it and those declared after it.
   */
  lemma {:induction false} FlattenSplit(sel: Selection, i: nat)
    requires i < |sel|
    ensures Flatten(sel) == Flatten(sel[..i]) + sel[i] + Flatten(sel[i + 1..])
  {
    var before, mid, after := sel[..i], sel[i..], sel[i + 1..];
    assert sel == before + mid;
    FlattenAppend(before, mid);
    assert mid[0] == sel[i] && mid[1..] == after;
    assert Flatten(mid) == sel[i] + Flatten(after);
  }

  /** Every chosen KPI comes from the selection of some category. */
  lemma {:induction false} FlattenOnlySelected(sel: Selection, k: Kpi)
    requires k in Flatten(sel)
    ensures exists i :: 0 <= i < |sel| && k in sel[i]
  {
    if k !in sel[0] {
      FlattenOnlySelected(sel[1..], k);
      var i :| 0 <= i < |sel[1..]| && k in sel[1..][i];
      assert k in sel[i + 1];
    }
  }

  /** A KPI picked in a valid taxonomy's category belongs to that category only. */
  lemma OwnCategory(tax: seq<Category>, sel: Selection, i: nat, j: nat)
    requires Valid(tax) && WellFormed(tax, sel)
    requires i < j < |sel|
    ensures forall k :: k in sel[i] ==> k !in sel[j]
  {
    assert Separate(tax[i].kpis, tax[j].kpis);
  }

  /**
   Because the categories of a valid taxonomy share no KPI, a well-formed
   selection never chooses the same KPI twice.
   */
  lemma {:induction false} FlattenNoDuplicates(tax: seq<Category>, sel: Selection)
    requires Valid(tax) && WellFormed(tax, sel)
    ensures NoDuplicates(Flatten(sel))
  {
    if sel != [] {
      var rest := Flatten(sel[1..]);
      assert Valid(tax[1..]) by {
        assert Names(tax[1..]) == Names(tax)[1..];
        forall a, b | 0 <= a < b < |tax[1..]|
          ensures Separate(tax[1..][a].kpis, tax[1..][b].kpis)
        {
          assert Separate(tax[a + 1].kpis, tax[b + 1].kpis);
        }
      }
      FlattenNoDuplicates(tax[1..], sel[1..]);
      forall x, y | 0 <= x < |sel[0]| && 0 <= y < |rest|
        ensures sel[0][x] != rest[y]
      {
        FlattenOnlySelected(sel[1..], rest[y]);
        var i :| 0 <= i < |sel[1..]| && rest[y] in sel[1..][i];
        OwnCategory(tax, sel, 0, i + 1);
        assert sel[0][x] in sel[0];
      }
      assert Flatten(sel) == sel[0] + rest;
    }
  }

  /** The fixed taxonomy's selections never repeat a KPI. */
  lemma ChosenNoDuplicates(sel: Selection)
    requires WellFormed(Categories, sel)
    ensures NoDuplicates(Flatten(sel))
  {
    CategoriesValid();
    FlattenNoDuplicates(Categories, sel);
  }
}
