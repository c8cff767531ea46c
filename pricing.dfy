/** Pricing of a tenant document (`add_costs_for_tenant`): every service is
    converted into its rate's unit and charged, costs roll up into resource
    totals and the tenant total. Money is modelled in whole cents. */
module Pricing {
  import opened Common
  import opened Billing

  /** `RatesManager.rate(name)`; `None` where the rate schedule raises
      `KeyError` (no rate for the service). */
  type Rates = string -> Option<Rate>

  /** `convert_to(volume, from_unit, to_unit)`. */
  type Convert = (real, string, string) -> real

  /** `round(x, 2)` counted in cents: the whole number of cents nearest to
      `x`, halves rounded away from zero as Python 2's `round` does. */
  function RoundCents(x: real): (c: int)
    ensures -0.5 <= c as real - 100.0 * x <= 0.5
    ensures c as real - 100.0 * x == 0.5 ==> x >= 0.0
    ensures c as real - 100.0 * x == -0.5 ==> x < 0.0
  {
    if x >= 0.0 then (100.0 * x + 0.5).Floor else -((-100.0 * x + 0.5).Floor)
  }

  /** An amount that is already a whole number of cents is kept exactly, and
      rounding is symmetric around zero. */
  lemma RoundCentsExact(x: real, n: int)
    requires 100.0 * x == n as real
    ensures RoundCents(x) == n
    ensures RoundCents(-x) == -n
  {
  }

  /** What a line adds to its resource's `total_cost`: its cost, or nothing
      for a service without a rate. */
  function CostOf(s: ServiceLine): int
  {
    if s.Priced? then s.cost else 0
  }

  /** Lines as `build_tenant_dict` leaves them, not yet priced. */
  predicate AllRaw(lines: seq<ServiceLine>)
  {
    forall i :: 0 <= i < |lines| ==> lines[i].Raw?
  }

  /** The body of the inner loop of `add_costs_for_tenant` for one service. */
  function PriceLine(s: ServiceLine, rates: Rates, convert: Convert): ServiceLine
    requires s.Raw?
  {
    match rates(s.name)
    case None => MissingRate(s.name)
    case Some(rt) =>
      var volume := convert(s.volume, s.unit, rt.unit);
      Priced(s.name, volume, rt.unit, rt.rate, RoundCents(volume * rt.rate))
  }

  /** Every line of a resource, priced in place. */
  function PriceLines(lines: seq<ServiceLine>, rates: Rates, convert: Convert): seq<ServiceLine>
    requires AllRaw(lines)
  {
    seq(|lines|, i requires 0 <= i < |lines| => PriceLine(lines[i], rates, convert))
  }

  /** The sum of the costs of some lines (`resource_total`). */
  function LinesTotal(lines: seq<ServiceLine>): int
  {
    if lines == [] then 0 else LinesTotal(lines[..|lines| - 1]) + CostOf(lines[|lines| - 1])
  }

  /** A resource once priced: its lines priced and `total_cost` set to the
      sum of their costs. */
  function PriceResource(rd: ResourceDoc, rates: Rates, convert: Convert): ResourceDoc
    requires AllRaw(rd.services)
  {
    var lines := PriceLines(rd.services, rates, convert);
    rd.(services := lines, totalCost := Some(LinesTotal(lines)))
  }

  /** A document `add_costs_for_tenant` accepts: every listed resource is
      present and no line is priced yet. */
  predicate Priceable(d: Doc)
  {
    && (forall r :: r in d.order ==> r in d.resources)
    && (forall r :: r in d.resources ==> AllRaw(d.resources[r].services))
  }

  /** All resources, priced. */
  function PriceMap(res: map<ResourceId, ResourceDoc>, rates: Rates, convert: Convert): map<ResourceId, ResourceDoc>
    requires forall r :: r in res ==> AllRaw(res[r].services)
  {
    map r | r in res :: PriceResource(res[r], rates, convert)
  }

  /** What resource `r` adds to the tenant total: its `total_cost`. */
  function ResourceCost(res: map<ResourceId, ResourceDoc>, r: ResourceId): int
  {
    if r in res then res[r].totalCost.GetOr(0) else 0
  }

  /** The sum of the `total_cost`s of the resources `order` (`tenant_total`). */
  function ResourcesTotal(order: seq<ResourceId>, res: map<ResourceId, ResourceDoc>): int
  {
    if order == [] then 0
    else ResourcesTotal(order[..|order| - 1], res) + ResourceCost(res, order[|order| - 1])
  }

  /** The document `add_costs_for_tenant` returns. */
  function PriceDoc(d: Doc, rates: Rates, convert: Convert): Doc
    requires Priceable(d)
  {
    var res := PriceMap(d.resources, rates, convert);
    d.(resources := res, totalCost := Some(ResourcesTotal(d.order, res)))
  }

  /** The inner loop of `add_costs_for_tenant`: prices the services of one
      resource and sums their costs. */
  method PriceServices(services: seq<ServiceLine>, rates: Rates, convert: Convert)
    returns (priced: seq<ServiceLine>, total: int)
    requires AllRaw(services)
    ensures priced == PriceLines(services, rates, convert)
    ensures total == LinesTotal(priced)
  {
    priced := services;
    total := 0;
    for j := 0 to |services|
      invariant |priced| == |services|
      invariant forall k :: 0 <= k < j ==> priced[k] == PriceLine(services[k], rates, convert)
      invariant forall k :: j <= k < |services| ==> priced[k] == services[k]
      invariant total == LinesTotal(priced[..j])
    {
      var line, cost := PriceService(priced[j], rates, convert);
      LinesTotalStep(priced, j, line);
      PriceLinesStep(services, priced, j, line, rates, convert);
      priced := priced[j := line];
      total := total + cost;
    }
    assert priced[..|services|] == priced;
  }

  /** One pass of the inner loop: the service converted into its rate's
      unit and charged, or marked as having no rate. */
  method PriceService(s: ServiceLine, rates: Rates, convert: Convert) returns (line: ServiceLine, cost: int)
    requires s.Raw?
    ensures line == PriceLine(s, rates, convert)
    ensures cost == CostOf(line)
    ensures line.Priced? <==> rates(s.name).Some?
  {
    cost := 0;
    match rates(s.name) {
      case None =>
        line := MissingRate(s.name);
      case Some(rt) =>
        var volume := convert(s.volume, s.unit, rt.unit);
        cost := RoundCents(volume * rt.rate);
        line := Priced(s.name, volume, rt.unit, rt.rate, cost);
    }
  }

  /** Line `j` priced after the lines before it. */
  lemma PriceLinesStep(services: seq<ServiceLine>, priced: seq<ServiceLine>, j: int, line: ServiceLine,
                       rates: Rates, convert: Convert)
    requires AllRaw(services) && |priced| == |services| && 0 <= j < |services|
    requires forall k :: 0 <= k < j ==> priced[k] == PriceLine(services[k], rates, convert)
    requires forall k :: j <= k < |services| ==> priced[k] == services[k]
    requires line == PriceLine(services[j], rates, convert)
    ensures forall k :: 0 <= k < j + 1 ==> priced[j := line][k] == PriceLine(services[k], rates, convert)
    ensures forall k :: j + 1 <= k < |services| ==> priced[j := line][k] == services[k]
  {
  }

  /** Overwriting line `j` after summing the lines before it. */
  lemma LinesTotalStep(lines: seq<ServiceLine>, j: int, line: ServiceLine)
    requires 0 <= j < |lines|
    ensures LinesTotal(lines[j := line][..j + 1]) == LinesTotal(lines[..j]) + CostOf(line)
  {
    assert lines[j := line][..j + 1][..j] == lines[..j];
  }

  /** `add_costs_for_tenant`: prices every service of every resource in
      place, sets each resource's `total_cost` and the tenant's. Resources
      are visited in the document's key order. */
  method AddCostsForTenant(doc: TenantDoc, rates: Rates, convert: Convert)
    requires doc.Value().Valid() && Priceable(doc.Value())
    modifies doc
    ensures doc.Value() == PriceDoc(old(doc.Value()), rates, convert)
  {
    ghost var res0 := doc.resources;
    ghost var done := PriceMap(res0, rates, convert);
    var tenantTotal := 0;
    for i := 0 to |doc.order|
      invariant doc.Value() == old(doc.Value()).(resources := doc.resources)
      invariant forall r :: r in doc.resources <==> r in res0
      invariant forall r :: r in res0 ==> doc.resources[r] == if r in doc.order[..i] then done[r] else res0[r]
      invariant tenantTotal == ResourcesTotal(doc.order[..i], done)
    {
      var r := doc.order[i];
      NotYetPriced(doc.order, i);
      var resource := doc.resources[r];
      var services, resourceTotal := PriceServices(resource.services, rates, convert);
      ghost var before := doc.resources;
      doc.resources := doc.resources[r := resource.(services := services, totalCost := Some(resourceTotal))];
      PricedStep(res0, done, before, doc.resources, doc.order, i, rates, convert);
      TotalStep(doc.order, done, i);
      tenantTotal := tenantTotal + resourceTotal;
    }
    AllPriced(res0, done, doc.resources, doc.order, rates, convert);
    assert doc.order[..|doc.order|] == doc.order;
    doc.totalCost := Some(tenantTotal);
  }

  /** The running tenant total after one more resource. */
  lemma TotalStep(order: seq<ResourceId>, res: map<ResourceId, ResourceDoc>, i: int)
    requires 0 <= i < |order|
    requires forall r :: r in order ==> r in res
    ensures ResourcesTotal(order[..i + 1], res) == ResourcesTotal(order[..i], res) + ResourceCost(res, order[i])
  {
    assert order[..i + 1][..i] == order[..i];
  }

  /** Once every listed resource is visited, all of them are priced. */
  lemma AllPriced(res0: map<ResourceId, ResourceDoc>, done: map<ResourceId, ResourceDoc>,
                  res: map<ResourceId, ResourceDoc>, order: seq<ResourceId>, rates: Rates, convert: Convert)
    requires forall r :: r in res0 ==> AllRaw(res0[r].services)
    requires done == PriceMap(res0, rates, convert)
    requires forall r :: r in res0 <==> r in order
    requires forall r :: r in res <==> r in res0
    requires forall r :: r in res0 ==> res[r] == if r in order[..|order|] then done[r] else res0[r]
    ensures res == done
  {
    assert order[..|order|] == order;
  }

  /** In a list without repetitions, the element at `i` is not among those
      before it. */
  lemma NotYetPriced(order: seq<ResourceId>, i: int)
    requires 0 <= i < |order|
    requires forall a, b :: 0 <= a < b < |order| ==> order[a] != order[b]
    ensures order[i] !in order[..i]
  {
    var prefix := order[..i];
    assert forall k :: 0 <= k < |prefix| ==> prefix[k] == order[k] && prefix[k] != order[i];
  }

  /** One iteration of the outer loop of `add_costs_for_tenant`. */
  lemma PricedStep(res0: map<ResourceId, ResourceDoc>, done: map<ResourceId, ResourceDoc>,
                   before: map<ResourceId, ResourceDoc>, after: map<ResourceId, ResourceDoc>,
                   order: seq<ResourceId>, i: int, rates: Rates, convert: Convert)
    requires forall r :: r in res0 ==> AllRaw(res0[r].services)
    requires done == PriceMap(res0, rates, convert)
    requires 0 <= i < |order| && order[i] in res0
    requires order[i] !in order[..i]
    requires forall r :: r in before <==> r in res0
    requires forall r :: r in res0 ==> before[r] == if r in order[..i] then done[r] else res0[r]
    requires after == before[order[i] := PriceResource(res0[order[i]], rates, convert)]
    ensures forall r :: r in after <==> r in res0
    ensures forall r :: r in res0 ==> after[r] == if r in order[..i + 1] then done[r] else res0[r]
  {
    assert order[..i + 1] == order[..i] + [order[i]];
  }

  /** Pricing keeps the shape of the document: the same name, tenant, range
      and resources (in the same order, with the same metadata and as many
      services each), and sets every resource total to the sum of its line
      costs. A line gets the missing-rate sentinel exactly when the schedule
      has no rate for it; otherwise it carries the rate's unit, the volume
      converted into that unit and a cost within half a cent of volume
      times rate. */
  lemma PriceDocShape(d: Doc, rates: Rates, convert: Convert)
    requires Priceable(d)
    ensures var p := PriceDoc(d, rates, convert);
      && p.name == d.name && p.tenantId == d.tenantId && p.order == d.order
      && p.start == d.start && p.end == d.end
      && (d.Valid() ==> p.Valid())
      && (forall r :: r in p.resources <==> r in d.resources)
      && (forall r :: r in d.resources ==>
            && p.resources[r].metadata == d.resources[r].metadata
            && |p.resources[r].services| == |d.resources[r].services|
            && p.resources[r].totalCost == Some(LinesTotal(p.resources[r].services)))
  {
  }

  /** What pricing does to each line, stated per line. */
  lemma PriceLinesSpec(lines: seq<ServiceLine>, rates: Rates, convert: Convert)
    requires AllRaw(lines)
    ensures var p := PriceLines(lines, rates, convert);
      && |p| == |lines|
      && forall i :: 0 <= i < |lines| ==>
        && p[i].name == lines[i].name
        && (p[i].MissingRate? <==> rates(lines[i].name).None?)
        && (p[i].MissingRate? ==> CostOf(p[i]) == 0)
        && (p[i].Priced? ==>
              var rt := rates(lines[i].name).value;
              && p[i].unit == rt.unit && p[i].rate == rt.rate
              && p[i].volume == convert(lines[i].volume, lines[i].unit, rt.unit)
              && CostOf(p[i]) == p[i].cost
              && -0.5 <= p[i].cost as real - 100.0 * (p[i].volume * rt.rate) <= 0.5)
  {
  }

  /** Whether a line was charged. */
  predicate IsPriced(l: ServiceLine)
  {
    l.Priced?
  }

  /** Services without a rate add nothing: a total is the total of its
      priced lines alone. */
  lemma {:induction false} MissingRatesExcluded(lines: seq<ServiceLine>)
    ensures LinesTotal(lines) == LinesTotal(Filter(lines, IsPriced))
  {
    if lines != [] {
      MissingRatesExcluded(lines[..|lines| - 1]);
      var l := lines[|lines| - 1];
      var f := Filter(lines[..|lines| - 1], IsPriced);
      assert lines == lines[..|lines| - 1] + [l];
      if l.Priced? {
        assert Filter(lines, IsPriced) == f + [l];
        assert (f + [l])[..|f + [l]| - 1] == f;
      } else {
        assert Filter(lines, IsPriced) == f;
      }
    }
  }

  lemma {:induction false} LinesTotalAppend(a: seq<ServiceLine>, b: seq<ServiceLine>)
    ensures LinesTotal(a + b) == LinesTotal(a) + LinesTotal(b)
  {
    if b == [] {
      assert a + b == a;
    } else {
      assert (a + b)[..|a + b| - 1] == a + b[..|b| - 1];
      LinesTotalAppend(a, b[..|b| - 1]);
    }
  }

  /** The service lines of resource `r`. */
  function ResourceLines(res: map<ResourceId, ResourceDoc>, r: ResourceId): seq<ServiceLine>
  {
    if r in res then res[r].services else []
  }

  /** The service lines of the resources `order`, one resource after another. */
  function AllLines(order: seq<ResourceId>, res: map<ResourceId, ResourceDoc>): seq<ServiceLine>
  {
    if order == [] then [] else AllLines(order[..|order| - 1], res) + ResourceLines(res, order[|order| - 1])
  }

  /** The tenant total is the sum of the costs of all the tenant's service
      lines: summing per resource first loses nothing. */
  lemma {:induction false} TotalIsSumOfLines(order: seq<ResourceId>, res: map<ResourceId, ResourceDoc>)
    requires forall r :: r in res ==> res[r].totalCost == Some(LinesTotal(res[r].services))
    ensures ResourcesTotal(order, res) == LinesTotal(AllLines(order, res))
  {
    if order != [] {
      var prefix := order[..|order| - 1];
      TotalIsSumOfLines(prefix, res);
      LinesTotalAppend(AllLines(prefix, res), ResourceLines(res, order[|order| - 1]));
    }
  }

  /** The same for a priced document. */
  lemma TenantTotalIsSumOfLines(d: Doc, rates: Rates, convert: Convert)
    requires Priceable(d)
    ensures var p := PriceDoc(d, rates, convert);
      p.totalCost == Some(LinesTotal(AllLines(p.order, p.resources)))
  {
    var p := PriceDoc(d, rates, convert);
    TotalIsSumOfLines(p.order, p.resources);
  }

  lemma {:induction false} ResourcesTotalAppend(a: seq<ResourceId>, b: seq<ResourceId>, res: map<ResourceId, ResourceDoc>)
    ensures ResourcesTotal(a + b, res) == ResourcesTotal(a, res) + ResourcesTotal(b, res)
  {
    if b == [] {
      assert a + b == a;
    } else {
      var b' := b[..|b| - 1];
      assert (a + b)[..|a + b| - 1] == a + b';
      ResourcesTotalAppend(a, b', res);
    }
  }

  /** The tenant total does not depend on the order in which the resources
      are visited: `tenant['resources'].values()` may come in any order. */
  lemma {:induction false} TotalOrderIndependent(o1: seq<ResourceId>, o2: seq<ResourceId>, res: map<ResourceId, ResourceDoc>)
    requires multiset(o1) == multiset(o2)
    ensures ResourcesTotal(o1, res) == ResourcesTotal(o2, res)
  {
    if o1 == [] {
      assert o2 == [] by {
        assert |o2| == |multiset(o2)|;
      }
    } else {
      var n := |o1|;
      var x := o1[n - 1];
      var init := o1[..n - 1];
      assert o1 == init + [x];
      assert multiset(init) == multiset(o1) - multiset{x};
      assert x in multiset(o2);
      var k :| 0 <= k < |o2| && o2[k] == x;
      var rest := RemoveAt(o2, k);
      TotalOrderIndependent(init, rest, res);
      TotalRemoveAt(o2, k, res);
      assert ResourcesTotal(o1, res) == ResourcesTotal(init, res) + ResourceCost(res, x);
    }
  }

  /** Taking one resource out of the list takes its cost out of the total. */
  lemma TotalRemoveAt(s: seq<ResourceId>, k: int, res: map<ResourceId, ResourceDoc>)
    requires 0 <= k < |s|
    ensures ResourcesTotal(s, res) == ResourcesTotal(RemoveAt(s, k), res) + ResourceCost(res, s[k])
  {
    var before, x, after := s[..k], s[k], s[k + 1..];
    assert s == before + [x] + after;
    ResourcesTotalAppend(before + [x], after, res);
    ResourcesTotalAppend(before, [x], res);
    ResourcesTotalAppend(before, after, res);
    assert ResourcesTotal([x], res) == ResourceCost(res, x) by {
      assert [x][..0] == [];
    }
  }

  /** `s` without its element at `k`; the multiset loses exactly that element. */
  function RemoveAt(s: seq<ResourceId>, k: int): (r: seq<ResourceId>)
    requires 0 <= k < |s|
    ensures r == s[..k] + s[k + 1..]
    ensures s == s[..k] + [s[k]] + s[k + 1..]
    ensures multiset(r) == multiset(s) - multiset{s[k]}
  {
    assert s == s[..k] + [s[k]] + s[k + 1..];
    s[..k] + s[k + 1..]
  }

  /** What `build_tenant_dict` returns is what `add_costs_for_tenant`
      accepts. */
  lemma BuildDocPriceable(name: string, tenantId: TenantId, entries: seq<Entry>, metadata: ResourceId -> Metadata)
    ensures var d := BuildDoc(name, tenantId, entries, metadata);
      d.Valid() && Priceable(d)
  {
    BuildDocKeys(name, tenantId, entries, metadata);
    BuildDocResources(name, tenantId, entries, metadata);
  }

  /** A tenant without usage costs nothing. */
  lemma EmptyTenantTotal(name: string, tenantId: TenantId, metadata: ResourceId -> Metadata, rates: Rates, convert: Convert)
    ensures PriceDoc(BuildDoc(name, tenantId, [], metadata), rates, convert).totalCost == Some(0)
  {
  }

  /** The rate schedule of the pricing example: every service at 0.25 per hour. */
  function FlatRate(name: string): Option<Rate>
  {
    Some(Rate(0.25, "hour"))
  }

  /** The two services of the pricing example: 3600 seconds each. */
  function ExampleLines(): seq<ServiceLine>
  {
    [Raw("service_1", 3600.0, "second"), Raw("service_2", 3600.0, "second")]
  }

  /** One resource of the pricing example: each of its services costs 25
      cents, converted into one hour, and the resource 50. */
  lemma HourlyResource(convert: Convert)
    requires convert(3600.0, "second", "hour") == 1.0
    ensures PriceResource(ResourceDoc(map[], ExampleLines(), None), FlatRate, convert)
      == ResourceDoc(map[], [Priced("service_1", 1.0, "hour", 0.25, 25), Priced("service_2", 1.0, "hour", 0.25, 25)], Some(50))
  {
    var priced := PriceLines(ExampleLines(), FlatRate, convert);
    assert RoundCents(1.0 * 0.25) == 25;
    assert priced == [Priced("service_1", 1.0, "hour", 0.25, 25), Priced("service_2", 1.0, "hour", 0.25, 25)];
    var one := priced[..1];
    assert one == [priced[0]];
    assert one[..0] == [];
    assert LinesTotal(one) == 25;
  }

  /** Two resources with two services each of 3600 seconds, all at 0.25 per
      hour, where an hour is 3600 seconds: every service costs 25 cents,
      every resource 50 and the tenant 100. */
  lemma HourlyExample(convert: Convert)
    requires convert(3600.0, "second", "hour") == 1.0
    ensures var rd := ResourceDoc(map[], ExampleLines(), None);
      var d := Doc("tenant_1", "tenant_id_1", ["resouce_ID_1", "resouce_ID_2"],
                   map["resouce_ID_1" := rd, "resouce_ID_2" := rd], None, None, None);
      var p := PriceDoc(d, FlatRate, convert);
      && p.totalCost == Some(100)
      && forall r :: r in p.resources ==>
        && p.resources[r].totalCost == Some(50)
        && forall i :: 0 <= i < |p.resources[r].services| ==>
             p.resources[r].services[i] == Priced(ExampleLines()[i].name, 1.0, "hour", 0.25, 25)
  {
    var rd := ResourceDoc(map[], ExampleLines(), None);
    HourlyResource(convert);
    var pr := PriceResource(rd, FlatRate, convert);
    var order := ["resouce_ID_1", "resouce_ID_2"];
    var res := PriceMap(map["resouce_ID_1" := rd, "resouce_ID_2" := rd], FlatRate, convert);
    assert res == map["resouce_ID_1" := pr, "resouce_ID_2" := pr];
    var first := order[..1];
    assert first == ["resouce_ID_1"];
    assert first[..0] == [];
    assert ResourcesTotal(first, res) == 50;
  }
}
