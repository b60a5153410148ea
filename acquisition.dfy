/** The acquisition view: the key figures computed from the current page of
    inventory units and the site plans, the filter facets, and the pagination
    controls under the inventory table. */
module Acquisition {
  import opened Js
  import opened Seqs
  import opened Records

  // ---------------------------------------------------------------------------
  // Key figures (the `stats` memo)

  datatype Stats = Stats(
    totalInventory: int,
    avgPricePerSqFt: int,
    totalHomesSold: int,
    salesPace: int,
    priceIncrease: int,
    soldInventory: int)

  /** A unit enters the price-per-square-foot average only when both its price
      and its area are truthy. */
  predicate Priced(p: Property) {
    RealTruthy(p.homesitePrice) && RealTruthy(p.homesiteSqFt)
  }

  /** The price per square foot of a unit that has both. */
  function Ratio(p: Property): real
    requires Priced(p)
  {
    p.homesitePrice.value / p.homesiteSqFt.value
  }

  /** The positions of the priced units of `ps`: each priced position once, in
      increasing order, and no other. */
  function PricedIndices(ps: seq<Property>): (idx: seq<int>)
    ensures forall j :: 0 <= j < |idx| ==> 0 <= idx[j] < |ps| && Priced(ps[idx[j]])
    ensures forall j, k :: 0 <= j < k < |idx| ==> idx[j] < idx[k]
    ensures forall i :: 0 <= i < |ps| && Priced(ps[i]) ==> i in idx
  {
    if ps == [] then []
    else
      var init := ps[..|ps| - 1];
      assert forall i :: 0 <= i < |init| ==> init[i] == ps[i];
      PricedIndices(init) + (if Priced(ps[|ps| - 1]) then [|ps| - 1] else [])
  }

  /** `properties.filter(Priced).map(p => price / area)`: the ratio of each priced
      unit, in page order, and none when no unit is priced. */
  function PricesPerSqFt(ps: seq<Property>): (r: seq<real>)
    ensures |r| <= |ps|
    ensures r == [] <==> forall i :: 0 <= i < |ps| ==> !Priced(ps[i])
    ensures forall x :: x in r <==> exists i :: 0 <= i < |ps| && Priced(ps[i]) && Ratio(ps[i]) == x
  {
    if ps == [] then []
    else
      var init, p := ps[..|ps| - 1], ps[|ps| - 1];
      assert forall i :: 0 <= i < |init| ==> init[i] == ps[i];
      PricesPerSqFt(init) + (if Priced(p) then [Ratio(p)] else [])
  }

  /** The `j`-th ratio is the ratio of the `j`-th priced unit: one ratio per
      priced unit, in page order. */
  lemma {:induction false} PricesPerSqFtAt(ps: seq<Property>)
    ensures |PricesPerSqFt(ps)| == |PricedIndices(ps)|
    ensures forall j :: 0 <= j < |PricedIndices(ps)| ==>
      PricesPerSqFt(ps)[j] == Ratio(ps[PricedIndices(ps)[j]])
  {
    if ps != [] {
      var init, p := ps[..|ps| - 1], ps[|ps| - 1];
      PricesPerSqFtAt(init);
      var idx, idx0 := PricedIndices(ps), PricedIndices(init);
      var r, r0 := PricesPerSqFt(ps), PricesPerSqFt(init);
      assert idx == idx0 + (if Priced(p) then [|ps| - 1] else []);
      assert r == r0 + (if Priced(p) then [Ratio(p)] else []);
      forall j | 0 <= j < |idx| ensures r[j] == Ratio(ps[idx[j]]) {
        if j < |idx0| {
          assert r[j] == r0[j] && idx[j] == idx0[j];
          assert ps[idx0[j]] == init[idx0[j]];
        }
      }
    }
  }

  /** Sold as a whole-number percentage of the total: the nearest integer to
      the exact percentage, halves rounded up, and 0 when the total is not
      positive. */
  function PacePercent(sold: int, total: int): (r: int)
    ensures total <= 0 ==> r == 0
    ensures total > 0 ==> r as real - 0.5 <= sold as real * 100.0 / total as real < r as real + 0.5
  {
    if total > 0 then
      assert sold as real / total as real * 100.0 == sold as real * 100.0 / total as real;
      Round(sold as real / total as real * 100.0)
    else 0
  }

  /** The `stats` memo. An empty page shows six zeros; otherwise the inventory
      is the page size, sold inventory and homes sold agree, the price increase
      is 0, and a page with no priced unit shows an average of 0. */
  function ComputeStats(properties: seq<Property>, siteplans: seq<SitePlan>): (r: Stats)
    ensures |properties| == 0 ==> r == Stats(0, 0, 0, 0, 0, 0)
    ensures |properties| > 0 ==>
      r.totalInventory == |properties| && r.totalHomesSold == r.soldInventory && r.priceIncrease == 0
    ensures (forall i :: 0 <= i < |properties| ==> !Priced(properties[i])) ==> r.avgPricePerSqFt == 0
  {
    if |properties| == 0 then Stats(0, 0, 0, 0, 0, 0)
    else
      var soldInventory := Sum(siteplans, SoldOrZero);
      var totalAvailable := Sum(siteplans, TotalOrZero);
      Stats(|properties|, Round(Mean(PricesPerSqFt(properties))), soldInventory,
            PacePercent(soldInventory, totalAvailable), 0, soldInventory)
  }

  /** On a non-empty page, with `sold` and `total` the sums of `Sold || 0` and
      `Total || 0` over all site plans: sold inventory is `sold`, the pace is
      `sold` as a share of `total` in whole percent (0 when `total` is not
      positive) and lies in 0..100 when no more is sold than is available. */
  lemma StatsOfPage(properties: seq<Property>, siteplans: seq<SitePlan>)
    requires |properties| > 0
    ensures var s, sold, total := ComputeStats(properties, siteplans),
                                  Sum(siteplans, SoldOrZero), Sum(siteplans, TotalOrZero);
      && s.soldInventory == sold
      && (total > 0 ==> s.salesPace == (200 * sold + total) / (2 * total))
      && (total <= 0 ==> s.salesPace == 0)
      && (0 <= sold <= total ==> 0 <= s.salesPace <= 100)
  {
    var sold, total := Sum(siteplans, SoldOrZero), Sum(siteplans, TotalOrZero);
    if total > 0 {
      PaceIntegerForm(sold, total);
    }
    PaceIsPercentage(sold, total);
  }

  /** With some unit priced, the average shown is the rounded mean of the ratios
      of the priced units, each counted once. */
  lemma AvgPricePerSqFtIsMean(properties: seq<Property>, siteplans: seq<SitePlan>)
    requires PricedIndices(properties) != []
    ensures var idx := PricedIndices(properties);
      ComputeStats(properties, siteplans).avgPricePerSqFt
        == Round(SumReal(seq(|idx|, j requires 0 <= j < |idx| => Ratio(properties[idx[j]]))) / |idx| as real)
  {
    var idx := PricedIndices(properties);
    var xs := seq(|idx|, j requires 0 <= j < |idx| => Ratio(properties[idx[j]]));
    PricesPerSqFtAt(properties);
    assert xs == PricesPerSqFt(properties);
  }

  /** An empty page gives all-zero figures whatever the site plans hold. */
  lemma EmptyPageIsAllZero(siteplans: seq<SitePlan>)
    ensures ComputeStats([], siteplans) == Stats(0, 0, 0, 0, 0, 0)
  {
  }

  /** Even sold site plans do not show on an empty page. */
  lemma EmptyPageHidesSales()
    ensures var plans := [SitePlan(Some("Austin"), Some("TX"), Some(5), Some(10))];
      Sum(plans, SoldOrZero) == 5 && ComputeStats([], plans).soldInventory == 0
  {
    var plans := [SitePlan(Some("Austin"), Some("TX"), Some(5), Some(10))];
    assert plans[..0] == [];
  }

  /** `Math.round(sold / total * 100)` in integer arithmetic. */
  lemma {:induction false} PaceIntegerForm(sold: int, total: int)
    requires total > 0
    ensures PacePercent(sold, total) == (200 * sold + total) / (2 * total)
  {
    var q := (200 * sold + total) / (2 * total);
    var x := sold as real / total as real * 100.0;
    assert q * (2 * total) <= 200 * sold + total < (q + 1) * (2 * total);
    var a, b := sold as real, total as real;
    assert x == 100.0 * a / b;
    assert (x + 0.5) * (2.0 * b) == 200.0 * a + b;
    assert (200 * sold + total) as real == 200.0 * a + b;
    assert (2 * total) as real == 2.0 * b;
    RealQuotient(x + 0.5, 2.0 * b, 200.0 * a + b);
    DivBetween(200 * sold + total, 2 * total, q);
    RoundUnique(x, q);
  }

  lemma DivBetween(n: int, d: int, q: int)
    requires d > 0 && q * d <= n < (q + 1) * d
    ensures q as real <= n as real / d as real < (q + 1) as real
  {
    var y := n as real / d as real;
    assert y * d as real == n as real;
    assert (q * d) as real == q as real * d as real;
    assert ((q + 1) * d) as real == (q + 1) as real * d as real;
  }

  lemma RealQuotient(u: real, d: real, n: real)
    requires d != 0.0 && u * d == n
    ensures u == n / d
  {
  }

  /** `Round` is the only integer whose half-open unit interval holds `x + 0.5`. */
  lemma RoundUnique(x: real, q: int)
    requires q as real <= x + 0.5 < (q + 1) as real
    ensures Round(x) == q
  {
  }

  /** When no more is sold than is available, the pace is a percentage. */
  lemma {:induction false} PaceIsPercentage(sold: int, total: int)
    ensures 0 <= sold <= total ==> 0 <= PacePercent(sold, total) <= 100
    ensures total <= 0 ==> PacePercent(sold, total) == 0
  {
    if 0 <= sold <= total && total > 0 {
      var x := sold as real / total as real;
      assert 0.0 <= x <= 1.0 by {
        assert x * total as real == sold as real;
      }
      RoundMonotone(0.0, x * 100.0);
      RoundMonotone(x * 100.0, 100.0);
      RoundOfInt(0);
      RoundOfInt(100);
    }
  }

  /** Everything sold gives 100; nothing sold gives 0. */
  lemma PaceExtremes(total: int)
    requires total > 0
    ensures PacePercent(total, total) == 100
    ensures PacePercent(0, total) == 0
  {
    assert total as real / total as real == 1.0;
    RoundOfInt(100);
    RoundOfInt(0);
  }

  /** When some unit is priced and every priced unit's price per square foot
      lies in [lo, hi], the shown average lies in [Round(lo), Round(hi)]. */
  lemma {:induction false} AvgPricePerSqFtBounds(properties: seq<Property>, siteplans: seq<SitePlan>, lo: real, hi: real)
    requires exists i :: 0 <= i < |properties| && Priced(properties[i])
    requires forall i :: 0 <= i < |properties| && Priced(properties[i]) ==> lo <= Ratio(properties[i]) <= hi
    ensures Round(lo) <= ComputeStats(properties, siteplans).avgPricePerSqFt <= Round(hi)
  {
    var xs := PricesPerSqFt(properties);
    forall j | 0 <= j < |xs| ensures lo <= xs[j] <= hi {
      assert xs[j] in xs;
    }
    MeanBounds(xs, lo, hi);
    RoundMonotone(lo, Mean(xs));
    RoundMonotone(Mean(xs), hi);
  }

  /** A unit of 1500 sq ft at $300,000 shows $200 per sq ft. */
  lemma SingleUnitExample()
    ensures var p := Property(Some("Dallas"), Some("TX"), None, None, Some(300000.0), Some(1500.0));
      ComputeStats([p], []).avgPricePerSqFt == 200
  {
    var p := Property(Some("Dallas"), Some("TX"), None, None, Some(300000.0), Some(1500.0));
    assert [p][..0] == [];
    assert PricesPerSqFt([p]) == [200.0];
    RoundOfInt(200);
  }

  // ---------------------------------------------------------------------------
  // Filter facets (the `filterData` memo)

  /** `values.filter(Boolean)` for optional string fields. */
  function Truthy(values: seq<Option<string>>): (r: seq<string>)
    ensures |r| <= |values|
  {
    if values == [] then []
    else (if StrTruthy(values[0]) then [values[0].value] else []) + Truthy(values[1..])
  }

  /** `[...new Set(values.filter(Boolean))]`: each present, non-empty value
      once, and nothing else. */
  function Facet(values: seq<Option<string>>): (r: seq<string>)
    ensures NoDup(r) && |r| <= |values|
    ensures forall x :: x in r <==> x != "" && Some(x) in values
  {
    TruthyMembers(values);
    Dedup(Truthy(values))
  }

  datatype FilterData = FilterData(
    cities: seq<string>,
    states: seq<string>,
    builders: seq<string>,
    zipcodes: seq<string>)

  function Cities(ps: seq<Property>): seq<Option<string>> {
    seq(|ps|, i requires 0 <= i < |ps| => ps[i].city)
  }

  function States(ps: seq<Property>): seq<Option<string>> {
    seq(|ps|, i requires 0 <= i < |ps| => ps[i].state)
  }

  function Builders(ps: seq<Property>): seq<Option<string>> {
    seq(|ps|, i requires 0 <= i < |ps| => ps[i].mpc)
  }

  function Zipcodes(ps: seq<Property>): seq<Option<string>> {
    seq(|ps|, i requires 0 <= i < |ps| => ps[i].zipcode)
  }

  /** The `filterData` memo: four lists without duplicates, none longer than
      the page. */
  function ComputeFilterData(ps: seq<Property>): (r: FilterData)
    ensures NoDup(r.cities) && NoDup(r.states) && NoDup(r.builders) && NoDup(r.zipcodes)
    ensures |r.cities| <= |ps| && |r.states| <= |ps| && |r.builders| <= |ps| && |r.zipcodes| <= |ps|
  {
    FilterData(Facet(Cities(ps)), Facet(States(ps)), Facet(Builders(ps)), Facet(Zipcodes(ps)))
  }

  lemma {:induction false} TruthyMembers(values: seq<Option<string>>)
    ensures forall x :: x in Truthy(values) <==> x != "" && Some(x) in values
  {
    if values != [] {
      TruthyMembers(values[1..]);
      assert values == [values[0]] + values[1..];
    }
  }

  /** Filtering keeps the order in which values first occur. */
  lemma {:induction false} TruthyOrder(values: seq<Option<string>>, x: string, y: string)
    requires x in Truthy(values) && y in Truthy(values)
    requires FirstIndex(Truthy(values), x) < FirstIndex(Truthy(values), y)
    ensures Some(x) in values && Some(y) in values
    ensures FirstIndex(values, Some(x)) < FirstIndex(values, Some(y))
  {
    TruthyMember(values, x);
    TruthyMember(values, y);
    if StrTruthy(values[0]) && values[0].value == x {
      assert x != y;
      assert values[0] != Some(y);
    } else {
      TruthyTail(values, x, y);
      TruthyOrder(values[1..], x, y);
      FirstIndexTail(values, Some(x));
      FirstIndexTail(values, Some(y));
    }
  }

  /** When the first value is not `x`, the order of `x` and `y` carries over
      to the filtered tail. */
  lemma TruthyTail(values: seq<Option<string>>, x: string, y: string)
    requires x in Truthy(values) && y in Truthy(values)
    requires FirstIndex(Truthy(values), x) < FirstIndex(Truthy(values), y)
    requires !(StrTruthy(values[0]) && values[0].value == x)
    ensures x in Truthy(values[1..]) && y in Truthy(values[1..])
    ensures FirstIndex(Truthy(values[1..]), x) < FirstIndex(Truthy(values[1..]), y)
  {
    var t, t' := Truthy(values), Truthy(values[1..]);
    if StrTruthy(values[0]) {
      var h := values[0].value;
      assert t == [h] + t';
      FirstIndexCons(h, t', x);
      assert h != y;
      FirstIndexCons(h, t', y);
    } else {
      assert t == t';
    }
  }

  lemma TruthyMember(values: seq<Option<string>>, x: string)
    requires x in Truthy(values)
    ensures x != "" && Some(x) in values
  {
    TruthyMembers(values);
  }

  /** Each facet lists every truthy value of its field exactly once, nothing
      else, in the order of first occurrence, and is no longer than the page. */
  lemma {:induction false} FacetProperties(values: seq<Option<string>>)
    ensures NoDup(Facet(values))
    ensures |Facet(values)| <= |values|
    ensures forall x :: x in Facet(values) <==> x != "" && Some(x) in values
    ensures forall i, j :: 0 <= i < j < |Facet(values)| ==>
      Some(Facet(values)[i]) in values && Some(Facet(values)[j]) in values &&
      FirstIndex(values, Some(Facet(values)[i])) < FirstIndex(values, Some(Facet(values)[j]))
  {
    var t, f := Truthy(values), Facet(values);
    TruthyMembers(values);
    assert forall x :: x in f <==> x in t;
    DedupFirstOccurrenceOrder(t);
    forall i, j | 0 <= i < j < |f|
      ensures Some(f[i]) in values && Some(f[j]) in values
      ensures FirstIndex(values, Some(f[i])) < FirstIndex(values, Some(f[j]))
    {
      assert f[i] in t && f[j] in t;
      TruthyOrder(values, f[i], f[j]);
    }
  }

  /** The four facets are the facets of their fields. */
  lemma FilterDataFacets(ps: seq<Property>)
    ensures var d := ComputeFilterData(ps);
      && (forall x :: x in d.cities <==> x != "" && exists i :: 0 <= i < |ps| && ps[i].city == Some(x))
      && (forall x :: x in d.states <==> x != "" && exists i :: 0 <= i < |ps| && ps[i].state == Some(x))
      && (forall x :: x in d.builders <==> x != "" && exists i :: 0 <= i < |ps| && ps[i].mpc == Some(x))
      && (forall x :: x in d.zipcodes <==> x != "" && exists i :: 0 <= i < |ps| && ps[i].zipcode == Some(x))
      && NoDup(d.cities) && NoDup(d.states) && NoDup(d.builders) && NoDup(d.zipcodes)
  {
    forall x ensures Some(x) in Cities(ps) <==> exists i :: 0 <= i < |ps| && ps[i].city == Some(x) {
      if exists i :: 0 <= i < |ps| && ps[i].city == Some(x) {
        var i :| 0 <= i < |ps| && ps[i].city == Some(x);
        assert Cities(ps)[i] == Some(x);
      }
    }
    forall x ensures Some(x) in States(ps) <==> exists i :: 0 <= i < |ps| && ps[i].state == Some(x) {
      if exists i :: 0 <= i < |ps| && ps[i].state == Some(x) {
        var i :| 0 <= i < |ps| && ps[i].state == Some(x);
        assert States(ps)[i] == Some(x);
      }
    }
    forall x ensures Some(x) in Builders(ps) <==> exists i :: 0 <= i < |ps| && ps[i].mpc == Some(x) {
      if exists i :: 0 <= i < |ps| && ps[i].mpc == Some(x) {
        var i :| 0 <= i < |ps| && ps[i].mpc == Some(x);
        assert Builders(ps)[i] == Some(x);
      }
    }
    forall x ensures Some(x) in Zipcodes(ps) <==> exists i :: 0 <= i < |ps| && ps[i].zipcode == Some(x) {
      if exists i :: 0 <= i < |ps| && ps[i].zipcode == Some(x) {
        var i :| 0 <= i < |ps| && ps[i].zipcode == Some(x);
        assert Zipcodes(ps)[i] == Some(x);
      }
    }
  }

  // ---------------------------------------------------------------------------
  // Pagination controls

  /** The pagination bar: where Previous, the numbered buttons, the last-page
      button and Next send the view, and which of Previous/Next is disabled. */
  datatype Controls = Controls(
    previousTarget: int,
    previousDisabled: bool,
    numbered: seq<int>,
    lastTarget: Option<int>,
    nextTarget: int,
    nextDisabled: bool)

  function Pagination(page: int, totalPages: int): (r: Option<Controls>)
    ensures r.Some? <==> totalPages > 1
    ensures r.Some? ==> var c := r.value;
      && c.previousTarget >= 1
      && (page > 1 ==> c.previousTarget == page - 1)
      && (page <= 1 ==> c.previousTarget == 1)
      && (c.previousDisabled <==> page == 1)
      && c.nextTarget <= totalPages
      && (page < totalPages ==> c.nextTarget == page + 1)
      && (page >= totalPages ==> c.nextTarget == totalPages)
      && (c.nextDisabled <==> page == totalPages)
      && |c.numbered| == Min(5, totalPages)
      && (forall i :: 0 <= i < |c.numbered| ==> c.numbered[i] == i + 1)
      && (c.lastTarget.Some? <==> totalPages > 5)
      && (c.lastTarget.Some? ==> c.lastTarget.value == totalPages)
  {
    if totalPages > 1 then
      var n := Min(5, totalPages);
      Some(Controls(
        Max(1, page - 1), page == 1,
        seq(n, i requires 0 <= i < n => i + 1),
        if totalPages > 5 then Some(totalPages) else None,
        Min(totalPages, page + 1), page == totalPages))
    else None
  }

  /** From a page inside [1, totalPages], every control leads to a page inside
      [1, totalPages]; Previous and Next move by at most one page. */
  lemma ControlsStayInRange(page: int, totalPages: int)
    requires 1 <= page <= totalPages && totalPages > 1
    ensures var c := Pagination(page, totalPages).value;
      && 1 <= c.previousTarget <= totalPages
      && 1 <= c.nextTarget <= totalPages
      && page - 1 <= c.previousTarget <= page <= c.nextTarget <= page + 1
      && (forall i :: 0 <= i < |c.numbered| ==> 1 <= c.numbered[i] <= totalPages)
      && (c.lastTarget.Some? ==> 1 <= c.lastTarget.value <= totalPages)
  {
  }
}
