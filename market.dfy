/** The market view's aggregation (`msaData`): inventory units and site plans
    are grouped by a normalised "City, ST" key standing in for a metropolitan
    statistical area (MSA), one metric row is derived per group, and the rows
    are ranked by homes sold. The four top-10 lists rank those rows by one
    metric each (`Ranking.Top10`). */
module Market {
  import opened Js
  import opened Seqs
  import opened Records
  import opened Ranking

  // ---------------------------------------------------------------------------
  // The grouping key

  /** The first character upper-cased, the rest lower-cased. */
  function CityName(city: string): string
    requires city != ""
  {
    [UpperChar(city[0])] + Lower(city[1..])
  }

  /** `${cityName}, ${State.toUpperCase()}` */
  function MetroKey(city: string, state: string): string
    requires city != ""
  {
    CityName(city) + ", " + Upper(state)
  }

  /** A record is grouped only when both its city and its state are truthy. */
  function PropertyKey(p: Property): Option<string> {
    if StrTruthy(p.city) && StrTruthy(p.state) then Some(MetroKey(p.city.value, p.state.value)) else None
  }

  function SitePlanKey(sp: SitePlan): Option<string> {
    if StrTruthy(sp.city) && StrTruthy(sp.state) then Some(MetroKey(sp.city.value, sp.state.value)) else None
  }

  /** Two spellings of a city and a state that differ only in letter case land
      in the same group. */
  lemma MetroKeyIgnoresCase(city1: string, state1: string, city2: string, state2: string)
    requires city1 != "" && city2 != ""
    requires Lower(city1) == Lower(city2) && Lower(state1) == Lower(state2)
    ensures MetroKey(city1, state1) == MetroKey(city2, state2)
  {
    CaseRoundTrips(state1);
    CaseRoundTrips(state2);
    assert Lower(city1)[0] == Lower(city2)[0];
    UpperLowerChar(city1[0]);
    UpperLowerChar(city2[0]);
    assert Lower(city1[1..]) == Lower(city1)[1..];
    assert Lower(city2[1..]) == Lower(city2)[1..];
  }

  lemma AtlantaExample()
    ensures MetroKey("ATLANTA", "ga") == "Atlanta, GA"
    ensures MetroKey("atlanta", "Ga") == "Atlanta, GA"
  {
    assert Lower("TLANTA") == "tlanta";
    assert Lower("tlanta") == "tlanta";
    assert Upper("ga") == "GA";
    assert Upper("Ga") == "GA";
  }

  // ---------------------------------------------------------------------------
  // Groups

  function KeyList(k: Option<string>): seq<string> {
    if k.Some? then [k.value] else []
  }

  /** The keys of the keyed records of `s`, in order, with repetitions. */
  function KeysOf<T>(s: seq<T>, key: T -> Option<string>): seq<string> {
    if s == [] then [] else KeysOf(s[..|s| - 1], key) + KeyList(key(s[|s| - 1]))
  }

  /** The records of `s` whose key is `k`, in order. */
  function Members<T>(s: seq<T>, key: T -> Option<string>, k: string): seq<T> {
    if s == [] then []
    else Members(s[..|s| - 1], key, k) + (if key(s[|s| - 1]) == Some(k) then [s[|s| - 1]] else [])
  }

  /** The records of `s` that have a key, in order. */
  function Keyed<T>(s: seq<T>, key: T -> Option<string>): seq<T> {
    if s == [] then []
    else Keyed(s[..|s| - 1], key) + (if key(s[|s| - 1]).Some? then [s[|s| - 1]] else [])
  }

  /** The truthy `Homesite Price` values of `ps`, in order. */
  function Prices(ps: seq<Property>): (r: seq<real>)
    ensures |r| <= |ps|
  {
    if ps == [] then []
    else
      var p := ps[|ps| - 1];
      Prices(ps[..|ps| - 1]) + (if RealTruthy(p.homesitePrice) then [p.homesitePrice.value] else [])
  }

  /** One entry of `msaGroups`. */
  datatype Group = Group(
    name: string,
    properties: seq<Property>,
    siteplans: seq<SitePlan>,
    totalPrice: real,
    priceCount: int)

  /** The order in which keys enter `msaGroups`: the first occurrence of each key,
      properties first, then site plans. Since every key contains ", " none of
      them looks like an array index, so `Object.values` lists the groups in
      this insertion order. */
  function Order(properties: seq<Property>, siteplans: seq<SitePlan>): (r: seq<string>)
    ensures NoDup(r)
  {
    Dedup(KeysOf(properties, PropertyKey) + KeysOf(siteplans, SitePlanKey))
  }

  /** The group `msaGroups[k]` ends up as. */
  function GroupOf(properties: seq<Property>, siteplans: seq<SitePlan>, k: string): (g: Group)
    ensures g.name == k && g.priceCount <= |g.properties|
  {
    var members := Members(properties, PropertyKey, k);
    Group(k, members, Members(siteplans, SitePlanKey, k), SumReal(Prices(members)), |Prices(members)|)
  }

  lemma {:induction false} KeysOfSnoc<T>(s: seq<T>, x: T, key: T -> Option<string>)
    ensures KeysOf(s + [x], key) == KeysOf(s, key) + KeyList(key(x))
    ensures key(x).Some? ==> Members(s + [x], key, key(x).value) == Members(s, key, key(x).value) + [x]
    ensures forall k :: key(x) != Some(k) ==> Members(s + [x], key, k) == Members(s, key, k)
    ensures Keyed(s + [x], key) == Keyed(s, key) + (if key(x).Some? then [x] else [])
  {
    assert (s + [x])[..|s|] == s;
  }

  lemma {:induction false} PricesSnoc(ps: seq<Property>, p: Property)
    ensures Prices(ps + [p]) == Prices(ps) + (if RealTruthy(p.homesitePrice) then [p.homesitePrice.value] else [])
  {
    assert (ps + [p])[..|ps|] == ps;
  }

  /** A key that never occurs has no members. */
  lemma {:induction false} MembersOfAbsent<T>(s: seq<T>, key: T -> Option<string>, k: string)
    requires k !in KeysOf(s, key)
    ensures Members(s, key, k) == []
  {
    if s != [] {
      MembersOfAbsent(s[..|s| - 1], key, k);
    }
  }

  lemma DedupSnoc<T>(s: seq<T>, x: T)
    ensures Dedup(s + [x]) == if x in s then Dedup(s) else Dedup(s) + [x]
  {
    assert (s + [x])[..|s|] == s;
  }

  /** The group created on the first sight of its key. */
  function EmptyGroup(k: string): Group {
    Group(k, [], [], 0.0, 0)
  }

  /** The group as the processing of a record finds it. */
  function Lookup(groups: map<string, Group>, k: string): Group {
    if k in groups then groups[k] else EmptyGroup(k)
  }

  /** A group after an inventory unit is pushed, its price counted when truthy. */
  function AddProperty(g: Group, p: Property): (r: Group)
    ensures r.name == g.name && r.siteplans == g.siteplans && |r.properties| == |g.properties| + 1
    ensures r.priceCount - |r.properties| <= g.priceCount - |g.properties|
  {
    var pushed := g.(properties := g.properties + [p]);
    if RealTruthy(p.homesitePrice) then
      pushed.(totalPrice := pushed.totalPrice + p.homesitePrice.value, priceCount := pushed.priceCount + 1)
    else pushed
  }

  /** A group after a site plan is pushed. */
  function AddSitePlan(g: Group, sp: SitePlan): Group {
    g.(siteplans := g.siteplans + [sp])
  }

  /** `msaGroups` after one iteration of the first `forEach`. */
  function WithProperty(groups: map<string, Group>, p: Property): map<string, Group> {
    match PropertyKey(p)
    case None => groups
    case Some(k) => groups[k := AddProperty(Lookup(groups, k), p)]
  }

  /** `msaGroups` after one iteration of the second `forEach`. */
  function WithSitePlan(groups: map<string, Group>, sp: SitePlan): map<string, Group> {
    match SitePlanKey(sp)
    case None => groups
    case Some(k) => groups[k := AddSitePlan(Lookup(groups, k), sp)]
  }

  /** `msaGroups` once `properties` and then `siteplans` have been processed. */
  function Groups(properties: seq<Property>, siteplans: seq<SitePlan>): map<string, Group>
    decreases |siteplans|, |properties|
  {
    if siteplans != [] then WithSitePlan(Groups(properties, siteplans[..|siteplans| - 1]), siteplans[|siteplans| - 1])
    else if properties != [] then WithProperty(Groups(properties[..|properties| - 1], []), properties[|properties| - 1])
    else map[]
  }

  lemma {:induction false} SumRealSnoc(xs: seq<real>, x: real)
    ensures SumReal(xs + [x]) == SumReal(xs) + x
  {
    assert (xs + [x])[..|xs|] == xs;
  }

  /** `groups` holds one group per key of `Order`, and the group under each key
      is what the key's records amount to. */
  ghost predicate Describes(groups: map<string, Group>, properties: seq<Property>, siteplans: seq<SitePlan>) {
    && (forall k :: k in groups <==> k in Order(properties, siteplans))
    && (forall k :: k in groups ==> groups[k] == GroupOf(properties, siteplans, k))
  }

  /** The meaning of the two passes: `msaGroups` holds one group per key, under
      the key's first-occurrence order, and each group collects exactly the
      records carrying its key, with the sum and the count of their truthy
      prices. */
  lemma {:induction false} GroupsMeaning(properties: seq<Property>, siteplans: seq<SitePlan>)
    ensures forall k :: k in Groups(properties, siteplans) <==> k in Order(properties, siteplans)
    ensures forall k :: k in Groups(properties, siteplans) ==>
      Groups(properties, siteplans)[k] == GroupOf(properties, siteplans, k)
    decreases |siteplans|, |properties|
  {
    if siteplans != [] {
      var sps, sp := siteplans[..|siteplans| - 1], siteplans[|siteplans| - 1];
      assert siteplans == sps + [sp];
      GroupsMeaning(properties, sps);
      GroupsSitePlanSnoc(properties, sps, sp);
      SitePlanStep(Groups(properties, sps), properties, sps, sp);
    } else if properties != [] {
      var ps, p := properties[..|properties| - 1], properties[|properties| - 1];
      assert properties == ps + [p];
      GroupsMeaning(ps, []);
      GroupsPropertySnoc(ps, p);
      PropertyStep(Groups(ps, []), ps, p);
    }
  }

  /** One iteration of the first pass keeps the groups described. */
  lemma {:induction false} PropertyStep(before: map<string, Group>, ps: seq<Property>, p: Property)
    requires Describes(before, ps, [])
    ensures Describes(WithProperty(before, p), ps + [p], [])
  {
    var after := WithProperty(before, p);
    OrderPropertyStep(ps, p);
    KeysOfSnoc(ps, p, PropertyKey);
    match PropertyKey(p)
    case None =>
      assert after == before;
      forall k | k in after ensures after[k] == GroupOf(ps + [p], [], k) {
        assert Members(ps + [p], PropertyKey, k) == Members(ps, PropertyKey, k);
      }
    case Some(key) =>
      LookupIsGroupOf(before, ps, [], key);
      GroupOfAddProperty(ps, p);
      assert after == before[key := AddProperty(Lookup(before, key), p)];
      forall k | k in after ensures after[k] == GroupOf(ps + [p], [], k) {
        if k != key {
          assert after[k] == before[k];
          assert Members(ps + [p], PropertyKey, k) == Members(ps, PropertyKey, k);
        }
      }
  }

  /** Pushing a unit onto its own group is what the group of the longer input is. */
  lemma {:induction false} GroupOfAddProperty(ps: seq<Property>, p: Property)
    requires PropertyKey(p).Some?
    ensures GroupOf(ps + [p], [], PropertyKey(p).value) == AddProperty(GroupOf(ps, [], PropertyKey(p).value), p)
  {
    var k := PropertyKey(p).value;
    KeysOfSnoc(ps, p, PropertyKey);
    var members := Members(ps, PropertyKey, k);
    assert Members(ps + [p], PropertyKey, k) == members + [p];
    PricesSnoc(members, p);
    var g := GroupOf(ps, [], k);
    assert g == Group(k, members, [], SumReal(Prices(members)), |Prices(members)|);
    if RealTruthy(p.homesitePrice) {
      var x := p.homesitePrice.value;
      SumRealSnoc(Prices(members), x);
      assert Prices(members + [p]) == Prices(members) + [x];
      assert GroupOf(ps + [p], [], k) == Group(k, members + [p], [], SumReal(Prices(members)) + x, |Prices(members)| + 1);
      assert AddProperty(g, p) == Group(k, members + [p], [], SumReal(Prices(members)) + x, |Prices(members)| + 1);
    } else {
      assert Prices(members + [p]) == Prices(members);
      assert AddProperty(g, p) == Group(k, members + [p], [], SumReal(Prices(members)), |Prices(members)|);
    }
  }

  /** One iteration of the second pass keeps the groups described. */
  lemma {:induction false} SitePlanStep(before: map<string, Group>, ps: seq<Property>, sps: seq<SitePlan>, sp: SitePlan)
    requires Describes(before, ps, sps)
    ensures Describes(WithSitePlan(before, sp), ps, sps + [sp])
  {
    var after := WithSitePlan(before, sp);
    OrderSitePlanStep(ps, sps, sp);
    KeysOfSnoc(sps, sp, SitePlanKey);
    match SitePlanKey(sp)
    case None =>
      assert after == before;
      forall k | k in after ensures after[k] == GroupOf(ps, sps + [sp], k) {
        assert Members(sps + [sp], SitePlanKey, k) == Members(sps, SitePlanKey, k);
      }
    case Some(key) =>
      LookupIsGroupOf(before, ps, sps, key);
      assert after == before[key := AddSitePlan(Lookup(before, key), sp)];
      forall k | k in after ensures after[k] == GroupOf(ps, sps + [sp], k) {
        if k != key {
          assert after[k] == before[k];
          assert Members(sps + [sp], SitePlanKey, k) == Members(sps, SitePlanKey, k);
        }
      }
  }

  /** Looking up a key not yet in the groups yields the empty group, which is
      what the key's records so far amount to. */
  lemma {:induction false} LookupIsGroupOf(groups: map<string, Group>, properties: seq<Property>, siteplans: seq<SitePlan>, k: string)
    requires Describes(groups, properties, siteplans)
    ensures Lookup(groups, k) == GroupOf(properties, siteplans, k)
  {
    if k !in Order(properties, siteplans) {
      assert k !in KeysOf(properties, PropertyKey) + KeysOf(siteplans, SitePlanKey);
      MembersOfAbsent(properties, PropertyKey, k);
      MembersOfAbsent(siteplans, SitePlanKey, k);
    }
  }

  lemma {:induction false} OrderPropertyStep(ps: seq<Property>, p: Property)
    ensures Order(ps + [p], []) ==
      if PropertyKey(p).Some? && PropertyKey(p).value !in Order(ps, [])
      then Order(ps, []) + [PropertyKey(p).value] else Order(ps, [])
  {
    KeysOfSnoc(ps, p, PropertyKey);
    var before := KeysOf(ps, PropertyKey);
    assert KeysOf(ps, PropertyKey) + KeysOf([], SitePlanKey) == before;
    assert KeysOf(ps + [p], PropertyKey) + KeysOf([], SitePlanKey) == before + KeyList(PropertyKey(p));
    if PropertyKey(p).Some? {
      DedupSnoc(before, PropertyKey(p).value);
    } else {
      assert before + KeyList(PropertyKey(p)) == before;
    }
  }

  lemma {:induction false} OrderSitePlanStep(ps: seq<Property>, sps: seq<SitePlan>, sp: SitePlan)
    ensures Order(ps, sps + [sp]) ==
      if SitePlanKey(sp).Some? && SitePlanKey(sp).value !in Order(ps, sps)
      then Order(ps, sps) + [SitePlanKey(sp).value] else Order(ps, sps)
  {
    KeysOfSnoc(sps, sp, SitePlanKey);
    var before := KeysOf(ps, PropertyKey) + KeysOf(sps, SitePlanKey);
    assert KeysOf(ps, PropertyKey) + KeysOf(sps + [sp], SitePlanKey) == before + KeyList(SitePlanKey(sp));
    if SitePlanKey(sp).Some? {
      DedupSnoc(before, SitePlanKey(sp).value);
    } else {
      assert before + KeyList(SitePlanKey(sp)) == before;
    }
  }

  lemma GroupsPropertySnoc(ps: seq<Property>, p: Property)
    ensures Groups(ps + [p], []) == WithProperty(Groups(ps, []), p)
  {
    assert (ps + [p])[..|ps|] == ps;
  }

  lemma GroupsSitePlanSnoc(ps: seq<Property>, sps: seq<SitePlan>, sp: SitePlan)
    ensures Groups(ps, sps + [sp]) == WithSitePlan(Groups(ps, sps), sp)
  {
    assert (sps + [sp])[..|sps|] == sps;
  }

  lemma InGroupsIffInOrder(properties: seq<Property>, siteplans: seq<SitePlan>, k: string)
    ensures k in Groups(properties, siteplans) <==> k in Order(properties, siteplans)
  {
    GroupsMeaning(properties, siteplans);
  }

  /** The callback of the first `forEach`: file one inventory unit. */
  method PushProperty(groups: map<string, Group>, order: seq<string>, p: Property)
    returns (groups': map<string, Group>, order': seq<string>)
    ensures groups' == WithProperty(groups, p)
    ensures order' == if PropertyKey(p).Some? && PropertyKey(p).value !in groups
                      then order + [PropertyKey(p).value] else order
  {
    groups', order' := groups, order;
    if StrTruthy(p.city) && StrTruthy(p.state) {
      var key := MetroKey(p.city.value, p.state.value);
      if key !in groups' {
        groups' := groups'[key := Group(key, [], [], 0.0, 0)];
        order' := order' + [key];
      }
      var g := groups'[key];
      assert g == Lookup(groups, key);
      g := g.(properties := g.properties + [p]);
      if RealTruthy(p.homesitePrice) {
        g := g.(totalPrice := g.totalPrice + p.homesitePrice.value, priceCount := g.priceCount + 1);
      }
      assert g == AddProperty(Lookup(groups, key), p);
      groups' := groups'[key := g];
    }
  }

  /** The callback of the second `forEach`: file one site plan. */
  method PushSitePlan(groups: map<string, Group>, order: seq<string>, sp: SitePlan)
    returns (groups': map<string, Group>, order': seq<string>)
    ensures groups' == WithSitePlan(groups, sp)
    ensures order' == if SitePlanKey(sp).Some? && SitePlanKey(sp).value !in groups
                      then order + [SitePlanKey(sp).value] else order
  {
    groups', order' := groups, order;
    if StrTruthy(sp.city) && StrTruthy(sp.state) {
      var key := MetroKey(sp.city.value, sp.state.value);
      if key !in groups' {
        groups' := groups'[key := Group(key, [], [], 0.0, 0)];
        order' := order' + [key];
      }
      var g := groups'[key];
      assert g == Lookup(groups, key);
      groups' := groups'[key := g.(siteplans := g.siteplans + [sp])];
    }
  }

  /** The two `forEach` passes that fill `msaGroups`; `order` lists its keys in
      insertion order. */
  method GroupMetros(properties: seq<Property>, siteplans: seq<SitePlan>)
    returns (groups: map<string, Group>, order: seq<string>)
    ensures order == Order(properties, siteplans)
    ensures groups == Groups(properties, siteplans)
  {
    groups, order := map[], [];
    assert properties[..0] == [];
    for i := 0 to |properties|
      invariant order == Order(properties[..i], [])
      invariant groups == Groups(properties[..i], [])
    {
      var p, done := properties[i], properties[..i];
      assert properties[..i + 1] == done + [p];
      if PropertyKey(p).Some? {
        InGroupsIffInOrder(done, [], PropertyKey(p).value);
      }
      OrderPropertyStep(done, p);
      GroupsPropertySnoc(done, p);
      groups, order := PushProperty(groups, order, p);
    }
    assert properties[..|properties|] == properties;
    assert siteplans[..0] == [];
    for j := 0 to |siteplans|
      invariant order == Order(properties, siteplans[..j])
      invariant groups == Groups(properties, siteplans[..j])
    {
      var sp, done := siteplans[j], siteplans[..j];
      assert siteplans[..j + 1] == done + [sp];
      if SitePlanKey(sp).Some? {
        InGroupsIffInOrder(properties, done, SitePlanKey(sp).value);
      }
      OrderSitePlanStep(properties, done, sp);
      GroupsSitePlanSnoc(properties, done, sp);
      groups, order := PushSitePlan(groups, order, sp);
    }
    assert siteplans[..|siteplans|] == siteplans;
  }

  // ---------------------------------------------------------------------------
  // Metric rows

  /** One row of `msaData`. */
  datatype Metro = Metro(
    name: string,
    homes: int,
    priceIncrease: int,
    salesPace: int,
    newHomes: int,
    averagePrice: int)

  function Name(m: Metro): string { m.name }
  function Homes(m: Metro): int { m.homes }
  function PriceIncrease(m: Metro): int { m.priceIncrease }
  function SalesPace(m: Metro): int { m.salesPace }
  function NewHomes(m: Metro): int { m.newHomes }

  /** `Math.floor(u * 20) + 5` for a draw `u` of `Math.random()`. */
  function MockIncrease(u: real): int {
    (u * 20.0).Floor + 5
  }

  /** The metric row of one group, given the random draw made for it. */
  function MetroOf(g: Group, u: real): (m: Metro)
    ensures m.name == g.name && m.salesPace == m.homes && m.newHomes == |g.properties|
    ensures 0.0 <= u < 1.0 ==> 5 <= m.priceIncrease <= 24
  {
    var totalSold := Sum(g.siteplans, SoldOrZero);
    var averagePrice := if g.priceCount > 0 then g.totalPrice / g.priceCount as real else 0.0;
    Metro(g.name, totalSold, MockIncrease(u), totalSold, |g.properties|, Round(averagePrice))
  }

  /** `Object.values(msaGroups).map(...)`: `draw(i)` is the value `Math.random()`
      returns to the `i`-th call of the mapping function. */
  function RawMetrics(properties: seq<Property>, siteplans: seq<SitePlan>, draw: nat -> real): (r: seq<Metro>)
    ensures |r| == |Order(properties, siteplans)|
  {
    var order := Order(properties, siteplans);
    seq(|order|, i requires 0 <= i < |order| => MetroOf(GroupOf(properties, siteplans, order[i]), draw(i)))
  }

  /** `msaData` */
  function MsaData(properties: seq<Property>, siteplans: seq<SitePlan>, draw: nat -> real): (r: seq<Metro>)
    ensures |r| == |Order(properties, siteplans)|
  {
    if |properties| == 0 && |siteplans| == 0 then []
    else SortDesc(RawMetrics(properties, siteplans, draw), Homes)
  }

  /** The `useMemo` computing `msaData`: group, map to rows, sort the rows in place. */
  method ComputeMsaData(properties: seq<Property>, siteplans: seq<SitePlan>, draw: nat -> real)
    returns (msa: seq<Metro>)
    ensures msa == MsaData(properties, siteplans, draw)
  {
    if |properties| == 0 && |siteplans| == 0 {
      return [];
    }
    var groups, order := GroupMetros(properties, siteplans);
    GroupsMeaning(properties, siteplans);
    var a := new Metro[|order|](i requires 0 <= i < |order| && order[i] in groups => MetroOf(groups[order[i]], draw(i)));
    var raw := RawMetrics(properties, siteplans, draw);
    assert |a[..]| == |raw|;
    forall i | 0 <= i < |raw| ensures a[..][i] == raw[i] {
      assert order[i] in groups && groups[order[i]] == GroupOf(properties, siteplans, order[i]);
    }
    assert a[..] == raw;
    SortInPlace(a, Homes);
    msa := a[..];
    assert msa == SortDesc(raw, Homes);
  }

  // ---------------------------------------------------------------------------
  // Properties of msaData

  function Names(ms: seq<Metro>): seq<string> {
    seq(|ms|, i requires 0 <= i < |ms| => ms[i].name)
  }

  /** Before sorting, the rows follow the insertion order of their keys. */
  lemma RawMetricsOrder(properties: seq<Property>, siteplans: seq<SitePlan>, draw: nat -> real)
    ensures Names(RawMetrics(properties, siteplans, draw)) == Order(properties, siteplans)
  {
    var raw, order := RawMetrics(properties, siteplans, draw), Order(properties, siteplans);
    forall i | 0 <= i < |order| ensures Names(raw)[i] == order[i] {
      assert raw[i] == MetroOf(GroupOf(properties, siteplans, order[i]), draw(i));
    }
  }

  /** Returning `[]` early on empty input is what the general path yields too. */
  lemma MsaDataSortsRaw(properties: seq<Property>, siteplans: seq<SitePlan>, draw: nat -> real)
    ensures MsaData(properties, siteplans, draw) == SortDesc(RawMetrics(properties, siteplans, draw), Homes)
  {
  }

  /** Rows are ranked by homes sold, highest first. */
  lemma MsaDataSorted(properties: seq<Property>, siteplans: seq<SitePlan>, draw: nat -> real)
    ensures SortedDesc(MsaData(properties, siteplans, draw), Homes)
  {
    SortDescSorted(RawMetrics(properties, siteplans, draw), Homes);
  }

  /** Rows selling equally many homes keep the insertion order of their keys. */
  lemma MsaDataStable(properties: seq<Property>, siteplans: seq<SitePlan>, draw: nat -> real)
    ensures forall v :: WithKey(MsaData(properties, siteplans, draw), Homes, v)
                     == WithKey(RawMetrics(properties, siteplans, draw), Homes, v)
  {
    SortDescStable(RawMetrics(properties, siteplans, draw), Homes);
  }

  /** There is exactly one row per distinct key, and one for no other name. */
  lemma {:induction false} MsaDataNames(properties: seq<Property>, siteplans: seq<SitePlan>, draw: nat -> real)
    ensures DistinctBy(MsaData(properties, siteplans, draw), Name)
    ensures forall k :: k in Names(MsaData(properties, siteplans, draw)) <==>
      (k in KeysOf(properties, PropertyKey) || k in KeysOf(siteplans, SitePlanKey))
  {
    var raw := RawMetrics(properties, siteplans, draw);
    var all := KeysOf(properties, PropertyKey) + KeysOf(siteplans, SitePlanKey);
    MsaDataSortsRaw(properties, siteplans, draw);
    RawMetricsOrder(properties, siteplans, draw);
    DistinctNames(raw);
    SortDescDistinct(raw, Homes, Name);
    SameRows(properties, siteplans, draw);
    NamesOfPermutation(raw, MsaData(properties, siteplans, draw));
    assert forall k :: k in Dedup(all) <==> k in all;
  }

  lemma {:induction false} DistinctNames(ms: seq<Metro>)
    requires NoDup(Names(ms))
    ensures DistinctBy(ms, Name)
  {
    forall i, j | 0 <= i < j < |ms| ensures Name(ms[i]) != Name(ms[j]) {
      assert Names(ms)[i] == ms[i].name && Names(ms)[j] == ms[j].name;
    }
  }

  /** Rearranged rows carry the same names. */
  lemma {:induction false} NamesOfPermutation(ms: seq<Metro>, ms': seq<Metro>)
    requires multiset(ms') == multiset(ms)
    ensures forall k :: k in Names(ms') <==> k in Names(ms)
  {
    forall k ensures k in Names(ms') ==> k in Names(ms) {
      if k in Names(ms') {
        var i :| 0 <= i < |ms'| && Names(ms')[i] == k;
        assert ms'[i] in multiset(ms);
        var j :| 0 <= j < |ms| && ms[j] == ms'[i];
        assert Names(ms)[j] == k;
      }
    }
    forall k ensures k in Names(ms) ==> k in Names(ms') {
      if k in Names(ms) {
        var i :| 0 <= i < |ms| && Names(ms)[i] == k;
        assert ms[i] in multiset(ms');
        var j :| 0 <= j < |ms'| && ms'[j] == ms[i];
        assert Names(ms')[j] == k;
      }
    }
  }

  /** Every row of `raw` is a row of `msa` and the other way round. */
  lemma SameRows(properties: seq<Property>, siteplans: seq<SitePlan>, draw: nat -> real)
    ensures multiset(MsaData(properties, siteplans, draw)) == multiset(RawMetrics(properties, siteplans, draw))
  {
    MsaDataSortsRaw(properties, siteplans, draw);
    SortDescPermutation(RawMetrics(properties, siteplans, draw), Homes);
  }

  /** What each row says about its area: homes sold is the sum of `Sold || 0`
      over the area's site plans, sales pace equals it, new homes counts the
      area's inventory units, and the average price is the rounded mean of the
      area's truthy unit prices (0 when there is none). */
  lemma {:induction false} MsaDataRows(properties: seq<Property>, siteplans: seq<SitePlan>, draw: nat -> real)
    ensures forall m :: m in MsaData(properties, siteplans, draw) ==>
      && m.homes == Sum(Members(siteplans, SitePlanKey, m.name), SoldOrZero)
      && m.salesPace == m.homes
      && m.newHomes == |Members(properties, PropertyKey, m.name)|
      && m.averagePrice == Round(Mean(Prices(Members(properties, PropertyKey, m.name))))
  {
    var raw := RawMetrics(properties, siteplans, draw);
    SameRows(properties, siteplans, draw);
    forall m | m in MsaData(properties, siteplans, draw)
      ensures && m.homes == Sum(Members(siteplans, SitePlanKey, m.name), SoldOrZero)
              && m.salesPace == m.homes
              && m.newHomes == |Members(properties, PropertyKey, m.name)|
              && m.averagePrice == Round(Mean(Prices(Members(properties, PropertyKey, m.name))))
    {
      assert m in multiset(raw);
      var i :| 0 <= i < |raw| && raw[i] == m;
      var k := Order(properties, siteplans)[i];
      assert m == MetroOf(GroupOf(properties, siteplans, k), draw(i));
      RowOfGroup(properties, siteplans, k, draw(i));
    }
  }

  /** The row made from one area's group, field by field. */
  lemma RowOfGroup(properties: seq<Property>, siteplans: seq<SitePlan>, k: string, u: real)
    ensures var m := MetroOf(GroupOf(properties, siteplans, k), u);
      && m.name == k
      && m.homes == Sum(Members(siteplans, SitePlanKey, k), SoldOrZero)
      && m.salesPace == m.homes
      && m.newHomes == |Members(properties, PropertyKey, k)|
      && m.averagePrice == Round(Mean(Prices(Members(properties, PropertyKey, k))))
  {
  }

  /** The mock price increase lies in 5..24 whenever every draw lies in [0, 1). */
  lemma {:induction false} PriceIncreaseRange(properties: seq<Property>, siteplans: seq<SitePlan>, draw: nat -> real)
    requires forall i: nat :: 0.0 <= draw(i) < 1.0
    ensures forall m :: m in MsaData(properties, siteplans, draw) ==> 5 <= m.priceIncrease <= 24
  {
    var raw := RawMetrics(properties, siteplans, draw);
    SameRows(properties, siteplans, draw);
    forall m | m in MsaData(properties, siteplans, draw) ensures 5 <= m.priceIncrease <= 24 {
      assert m in multiset(raw);
      var i :| 0 <= i < |raw| && raw[i] == m;
      var u := draw(i);
      assert 0.0 <= u * 20.0 < 20.0;
    }
  }

  /** The prices of one area are prices of the whole inventory. */
  lemma {:induction false} PricesOfMembers(ps: seq<Property>, k: string)
    ensures forall x :: x in Prices(Members(ps, PropertyKey, k)) ==> x in Prices(ps)
  {
    if ps != [] {
      var ps', p := ps[..|ps| - 1], ps[|ps| - 1];
      assert ps == ps' + [p];
      PricesOfMembers(ps', k);
      PricesSnoc(ps', p);
      KeysOfSnoc(ps', p, PropertyKey);
      if PropertyKey(p) == Some(k) {
        PricesSnoc(Members(ps', PropertyKey, k), p);
      }
    }
  }

  /** When every truthy unit price lies in [lo, hi], each area's average price
      lies between the rounded bounds. */
  lemma {:induction false} AveragePriceBounds(properties: seq<Property>, siteplans: seq<SitePlan>, draw: nat -> real, lo: real, hi: real)
    requires forall i :: 0 <= i < |Prices(properties)| ==> lo <= Prices(properties)[i] <= hi
    ensures forall m :: m in MsaData(properties, siteplans, draw) && Prices(Members(properties, PropertyKey, m.name)) != [] ==>
      Round(lo) <= m.averagePrice <= Round(hi)
  {
    MsaDataRows(properties, siteplans, draw);
    forall m | m in MsaData(properties, siteplans, draw) && Prices(Members(properties, PropertyKey, m.name)) != []
      ensures Round(lo) <= m.averagePrice <= Round(hi)
    {
      AreaMeanBounds(properties, m.name, lo, hi);
    }
  }

  lemma {:induction false} AreaMeanBounds(properties: seq<Property>, k: string, lo: real, hi: real)
    requires forall i :: 0 <= i < |Prices(properties)| ==> lo <= Prices(properties)[i] <= hi
    requires Prices(Members(properties, PropertyKey, k)) != []
    ensures Round(lo) <= Round(Mean(Prices(Members(properties, PropertyKey, k)))) <= Round(hi)
  {
    var xs := Prices(Members(properties, PropertyKey, k));
    PricesOfMembers(properties, k);
    forall i | 0 <= i < |xs| ensures lo <= xs[i] <= hi {
      assert xs[i] in xs;
    }
    MeanBounds(xs, lo, hi);
    RoundMonotone(lo, Mean(xs));
    RoundMonotone(Mean(xs), hi);
  }

  // ---------------------------------------------------------------------------
  // Conservation: every keyed record is counted in exactly one row

  /** The sum of `w` over the members of each key of `keys`. */
  function KeySums<T>(keys: seq<string>, xs: seq<T>, key: T -> Option<string>, w: T -> int): int {
    if keys == [] then 0
    else KeySums(keys[..|keys| - 1], xs, key, w) + Sum(Members(xs, key, keys[|keys| - 1]), w)
  }

  lemma {:induction false} SumSnoc<T>(s: seq<T>, x: T, w: T -> int)
    ensures Sum(s + [x], w) == Sum(s, w) + w(x)
  {
    assert (s + [x])[..|s|] == s;
  }

  lemma {:induction false} KeySumsStep<T>(keys: seq<string>, xs: seq<T>, x: T, key: T -> Option<string>, w: T -> int)
    requires NoDup(keys)
    ensures KeySums(keys, xs + [x], key, w)
         == KeySums(keys, xs, key, w) + (if key(x).Some? && key(x).value in keys then w(x) else 0)
  {
    if keys != [] {
      var keys', d := keys[..|keys| - 1], keys[|keys| - 1];
      assert keys == keys' + [d];
      KeySumsStep(keys', xs, x, key, w);
      KeysOfSnoc(xs, x, key);
      if key(x) == Some(d) {
        SumSnoc(Members(xs, key, d), x, w);
        assert d !in keys';
      }
    }
  }

  /** Summing per key over keys that cover every key exactly once is summing over
      all keyed records. */
  lemma {:induction false} KeySumsPartition<T>(keys: seq<string>, xs: seq<T>, key: T -> Option<string>, w: T -> int)
    requires NoDup(keys)
    requires forall k :: k in KeysOf(xs, key) ==> k in keys
    ensures KeySums(keys, xs, key, w) == Sum(Keyed(xs, key), w)
  {
    if xs == [] {
      KeySumsOfEmpty(keys, key, w);
    } else {
      var xs', x := xs[..|xs| - 1], xs[|xs| - 1];
      assert xs == xs' + [x];
      KeysOfSnoc(xs', x, key);
      assert forall k :: k in KeysOf(xs', key) ==> k in KeysOf(xs, key);
      KeySumsPartition(keys, xs', key, w);
      KeySumsStep(keys, xs', x, key, w);
      if key(x).Some? {
        assert key(x).value in KeysOf(xs, key);
        SumSnoc(Keyed(xs', key), x, w);
        assert Keyed(xs, key) == Keyed(xs', key) + [x];
      } else {
        assert Keyed(xs, key) == Keyed(xs', key);
      }
    }
  }

  lemma {:induction false} KeySumsOfEmpty<T>(keys: seq<string>, key: T -> Option<string>, w: T -> int)
    ensures KeySums(keys, [], key, w) == 0
  {
    if keys != [] {
      KeySumsOfEmpty(keys[..|keys| - 1], key, w);
    }
  }

  /** A sum over rows, each of which holds the per-key sum of its own key. */
  lemma {:induction false} SumOfRows<T>(rows: seq<Metro>, f: Metro -> int, keys: seq<string>, xs: seq<T>, key: T -> Option<string>, w: T -> int)
    requires |rows| == |keys|
    requires forall i :: 0 <= i < |rows| ==> f(rows[i]) == Sum(Members(xs, key, keys[i]), w)
    ensures Sum(rows, f) == KeySums(keys, xs, key, w)
  {
    if rows != [] {
      SumOfRows(rows[..|rows| - 1], f, keys[..|keys| - 1], xs, key, w);
    }
  }

  /** Each unsorted row holds the per-key sums of its own key. */
  lemma RawRows(properties: seq<Property>, siteplans: seq<SitePlan>, draw: nat -> real)
    ensures |RawMetrics(properties, siteplans, draw)| == |Order(properties, siteplans)|
    ensures forall i :: 0 <= i < |RawMetrics(properties, siteplans, draw)| ==>
      Homes(RawMetrics(properties, siteplans, draw)[i])
        == Sum(Members(siteplans, SitePlanKey, Order(properties, siteplans)[i]), SoldOrZero)
    ensures forall i :: 0 <= i < |RawMetrics(properties, siteplans, draw)| ==>
      NewHomes(RawMetrics(properties, siteplans, draw)[i])
        == Sum(Members(properties, PropertyKey, Order(properties, siteplans)[i]), One)
  {
    var order := Order(properties, siteplans);
    var raw := RawMetrics(properties, siteplans, draw);
    forall i | 0 <= i < |order|
      ensures Homes(raw[i]) == Sum(Members(siteplans, SitePlanKey, order[i]), SoldOrZero)
      ensures NewHomes(raw[i]) == Sum(Members(properties, PropertyKey, order[i]), One)
    {
      var g := GroupOf(properties, siteplans, order[i]);
      assert raw[i] == MetroOf(g, draw(i));
      SumOneIsLength(Members(properties, PropertyKey, order[i]));
    }
  }

  /** Homes sold add up to the sales of all grouped site plans. */
  lemma {:induction false} MsaDataHomesTotal(properties: seq<Property>, siteplans: seq<SitePlan>, draw: nat -> real)
    ensures Sum(MsaData(properties, siteplans, draw), Homes) == Sum(Keyed(siteplans, SitePlanKey), SoldOrZero)
  {
    var raw := RawMetrics(properties, siteplans, draw);
    var order := Order(properties, siteplans);
    MsaDataSortsRaw(properties, siteplans, draw);
    SortDescSum(raw, Homes, Homes);
    RawRows(properties, siteplans, draw);
    SumOfRows(raw, Homes, order, siteplans, SitePlanKey, SoldOrZero);
    KeysCovered(properties, siteplans);
    KeySumsPartition(order, siteplans, SitePlanKey, SoldOrZero);
  }

  /** New homes add up to the number of all grouped inventory units. */
  lemma {:induction false} MsaDataNewHomesTotal(properties: seq<Property>, siteplans: seq<SitePlan>, draw: nat -> real)
    ensures Sum(MsaData(properties, siteplans, draw), NewHomes) == |Keyed(properties, PropertyKey)|
  {
    var raw := RawMetrics(properties, siteplans, draw);
    var order := Order(properties, siteplans);
    MsaDataSortsRaw(properties, siteplans, draw);
    SortDescSum(raw, Homes, NewHomes);
    RawRows(properties, siteplans, draw);
    SumOfRows(raw, NewHomes, order, properties, PropertyKey, One);
    KeysCovered(properties, siteplans);
    KeySumsPartition(order, properties, PropertyKey, One);
    SumOneIsLength(Keyed(properties, PropertyKey));
  }

  /** Every key of either input is in the insertion order, once. */
  lemma KeysCovered(properties: seq<Property>, siteplans: seq<SitePlan>)
    ensures NoDup(Order(properties, siteplans))
    ensures forall k :: k in KeysOf(properties, PropertyKey) ==> k in Order(properties, siteplans)
    ensures forall k :: k in KeysOf(siteplans, SitePlanKey) ==> k in Order(properties, siteplans)
  {
    var all := KeysOf(properties, PropertyKey) + KeysOf(siteplans, SitePlanKey);
    assert forall k :: k in Dedup(all) <==> k in all;
  }

  // ---------------------------------------------------------------------------
  // The top-10 lists

  /** Ranking the already ranked rows by homes again changes nothing, so the
      homes list is the first ten rows of `msaData`. */
  lemma TopByHomesIsPrefix(msa: seq<Metro>)
    requires SortedDesc(msa, Homes)
    ensures Top10(msa, Homes) == msa[..Min(10, |msa|)]
  {
    SortDescOfSorted(msa, Homes);
  }

  /** Sales pace equals homes sold on every row, so both lists coincide. */
  lemma TopBySalesPaceIsTopByHomes(properties: seq<Property>, siteplans: seq<SitePlan>, draw: nat -> real)
    ensures Top10(MsaData(properties, siteplans, draw), SalesPace) == Top10(MsaData(properties, siteplans, draw), Homes)
  {
    var msa := MsaData(properties, siteplans, draw);
    MsaDataRows(properties, siteplans, draw);
    SortDescAgreeingKeys(msa, SalesPace, Homes);
  }
}
