/**
 The fixed KPI taxonomy of the decision-support form: an ordered list of
 categories, each with an ordered list of KPI names. The dataset has one
 numeric column per KPI name.
 */
module Taxonomy {

  /** A KPI is named by the dataset column that holds its values. */
  type Kpi = string

  datatype Category = Category(name: string, kpis: seq<Kpi>)

  const ReliabilityKpis: seq<Kpi> := ["Quality_Consistency", "Customer_Satisfaction", "Demand_Fulfillment_Rate"]
  const ResponsivenessKpis: seq<Kpi> := ["Cycle_Time", "Lead_Time", "On_Time_Delivery"]
  const SustainabilityKpis: seq<Kpi> := ["Carbon_Emission_Cost", "Waste_Reduction", "Energy_Consumption"]
  const AgilityKpis: seq<Kpi> := ["Manufacturing_Flexibility", "Demand_Volatility_Management", "Resource_Allocation_Flexibility"]
  const CostKpis: seq<Kpi> := ["Production_Cost", "Transportation_Cost", "Inventory_Holding_Cost"]
  const AssetKpis: seq<Kpi> := ["Capacity_Utilisation", "Inventory_Levels", "Facility_Utilisation"]

  /** The six categories, in declaration order. */
  const Categories: seq<Category> := [
    Category("Reliability", ReliabilityKpis),
    Category("Responsiveness", ResponsivenessKpis),
    Category("Sustainability", SustainabilityKpis),
    Category("Agility", AgilityKpis),
    Category("Cost", CostKpis),
    Category("Asset Management Efficiency", AssetKpis)
  ]

  predicate NoDuplicates<T(==)>(s: seq<T>) {
    forall i, j :: 0 <= i < j < |s| ==> s[i] != s[j]
  }

  /** No element of `s` occurs in `t`. */
  predicate Separate<T(==)>(s: seq<T>, t: seq<T>) {
    forall i, j :: 0 <= i < |s| && 0 <= j < |t| ==> s[i] != t[j]
  }

  /** The category names, in declaration order. */
  function Names(tax: seq<Category>): seq<string> {
    seq(|tax|, i requires 0 <= i < |tax| => tax[i].name)
  }

  /**
   A taxonomy is valid when category names are distinct, no category lists
   a KPI twice, and no KPI belongs to two categories.
   */
  predicate Valid(tax: seq<Category>) {
    && NoDuplicates(Names(tax))
    && (forall i :: 0 <= i < |tax| ==> NoDuplicates(tax[i].kpis))
    && (forall a, b :: 0 <= a < b < |tax| ==> Separate(tax[a].kpis, tax[b].kpis))
  }

  /** No reliability KPI appears in a later category. */
  lemma ReliabilitySeparate()
    ensures
      Separate(ReliabilityKpis, ResponsivenessKpis) &&
      Separate(ReliabilityKpis, SustainabilityKpis) &&
      Separate(ReliabilityKpis, AgilityKpis) &&
      Separate(ReliabilityKpis, CostKpis) &&
      Separate(ReliabilityKpis, AssetKpis)
  {
    assert Separate(ReliabilityKpis, ResponsivenessKpis);
    assert Separate(ReliabilityKpis, SustainabilityKpis);
    assert Separate(ReliabilityKpis, AgilityKpis);
    assert Separate(ReliabilityKpis, CostKpis);
    assert Separate(ReliabilityKpis, AssetKpis);
  }

  /** No responsiveness KPI appears in a later category. */
  lemma ResponsivenessSeparate()
    ensures
      Separate(ResponsivenessKpis, SustainabilityKpis) &&
      Separate(ResponsivenessKpis, AgilityKpis) &&
      Separate(ResponsivenessKpis, CostKpis) &&
      Separate(ResponsivenessKpis, AssetKpis)
  {
    assert Separate(ResponsivenessKpis, SustainabilityKpis);
    assert Separate(ResponsivenessKpis, AgilityKpis);
    assert Separate(ResponsivenessKpis, CostKpis);
    assert Separate(ResponsivenessKpis, AssetKpis);
  }

  /** The last four categories share no KPI. */
  lemma LaterSeparate()
    ensures
      Separate(SustainabilityKpis, AgilityKpis) &&
      Separate(SustainabilityKpis, CostKpis) &&
      Separate(SustainabilityKpis, AssetKpis) &&
      Separate(AgilityKpis, CostKpis) &&
      Separate(AgilityKpis, AssetKpis) &&
      Separate(CostKpis, AssetKpis)
  {
    assert Separate(SustainabilityKpis, AgilityKpis);
    assert Separate(SustainabilityKpis, CostKpis);
    assert Separate(SustainabilityKpis, AssetKpis);
    assert Separate(AgilityKpis, CostKpis);
    assert Separate(AgilityKpis, AssetKpis);
    assert Separate(CostKpis, AssetKpis);
  }

  /** No category lists a KPI twice. */
  lemma ListsDistinct()
    ensures
      NoDuplicates(ReliabilityKpis) &&
      NoDuplicates(ResponsivenessKpis) &&
      NoDuplicates(SustainabilityKpis) &&
      NoDuplicates(AgilityKpis) &&
      NoDuplicates(CostKpis) &&
      NoDuplicates(AssetKpis)
  {
  }

  /** The fixed taxonomy is valid: its KPI lists are pairwise disjoint. */
  lemma CategoriesValid()
    ensures Valid(Categories)
    ensures |Categories| == 6
    ensures forall i :: 0 <= i < |Categories| ==> |Categories[i].kpis| == 3
  {
    ReliabilitySeparate();
    ResponsivenessSeparate();
    LaterSeparate();
    ListsDistinct();
  }
}
