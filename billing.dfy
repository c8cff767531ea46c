/** The billing document of a tenant (`build_tenant_dict`) and its pricing
    (`add_costs_for_tenant`). */
module Billing {
  import opened Common

  /** One aggregated usage entry as returned by the usage query. */
  datatype Entry = Entry(resourceId: ResourceId, service: string, volume: real, unit: string)

  /** The metadata dictionary the store returns for a resource. */
  type Metadata = map<string, string>

  /** A rate record of the rate schedule: price per `unit`. */
  datatype Rate = Rate(rate: real, unit: string)

  /** A service line of the document. It is built `Raw` and pricing turns it
      into `Priced` (volume converted into the rate's unit, cost in cents) or
      into the missing-rate sentinel: cost "0", volume "unknown unit
      conversion", unit "unknown", rate "missing rate". */
  datatype ServiceLine =
    | Raw(name: string, volume: real, unit: string)
    | Priced(name: string, volume: real, unit: string, rate: real, cost: int)
    | MissingRate(name: string)

  /** The resource dictionary: the store's metadata plus `services` and,
      once priced, `total_cost` (in cents). */
  datatype ResourceDoc = ResourceDoc(metadata: Metadata, services: seq<ServiceLine>, totalCost: Option<int>)

  /** The tenant dictionary. `order` lists the keys of `resources` in the
      order they were added; `totalCost`, `start` and `end` are absent until
      pricing and the sales-order range add them. */
  datatype Doc = Doc(
    name: string,
    tenantId: TenantId,
    order: seq<ResourceId>,
    resources: map<ResourceId, ResourceDoc>,
    totalCost: Option<int>,
    start: Option<Time>,
    end: Option<Time>)
  {
    /** Every resource key is listed exactly once in `order`. */
    ghost predicate Valid()
    {
      && (forall i, j :: 0 <= i < j < |order| ==> order[i] != order[j])
      && (forall r :: r in resources <==> r in order)
    }
  }

  /** The tenant dictionary as a mutable object. */
  class TenantDoc {
    var name: string
    var tenantId: TenantId
    var order: seq<ResourceId>
    var resources: map<ResourceId, ResourceDoc>
    var totalCost: Option<int>
    var start: Option<Time>
    var end: Option<Time>

    function Value(): Doc
      reads this
    {
      Doc(name, tenantId, order, resources, totalCost, start, end)
    }

    /** `{'name': ..., 'tenant_id': ..., 'resources': {}}`. */
    constructor (name: string, tenantId: TenantId)
      ensures Value() == Doc(name, tenantId, [], map[], None, None, None)
    {
      this.name := name;
      this.tenantId := tenantId;
      order := [];
      resources := map[];
      totalCost := None;
      start := None;
      end := None;
    }
  }

  /** The service dictionary built from an entry. */
  function ServiceOf(e: Entry): ServiceLine
  {
    Raw(e.service, e.volume, e.unit)
  }

  /** One iteration of the entry loop of `build_tenant_dict`: a resource seen
      for the first time gets its metadata and a one-service list, a known
      one gets the service appended. */
  function AddEntry(d: Doc, e: Entry, metadata: ResourceId -> Metadata): Doc
  {
    var r := e.resourceId;
    if r in d.resources then
      d.(resources := d.resources[r := d.resources[r].(services := d.resources[r].services + [ServiceOf(e)])])
    else
      d.(order := d.order + [r], resources := d.resources[r := ResourceDoc(metadata(r), [ServiceOf(e)], None)])
  }

  /** The document `build_tenant_dict` returns for `entries`. */
  function BuildDoc(name: string, tenantId: TenantId, entries: seq<Entry>, metadata: ResourceId -> Metadata): Doc
  {
    if entries == [] then Doc(name, tenantId, [], map[], None, None, None)
    else AddEntry(BuildDoc(name, tenantId, entries[..|entries| - 1], metadata), entries[|entries| - 1], metadata)
  }

  /** The entries of resource `r`, in order. */
  function EntriesFor(entries: seq<Entry>, r: ResourceId): seq<Entry>
  {
    Filter(entries, (e: Entry) => e.resourceId == r)
  }

  /** The service lines of some entries, in order. */
  function Lines(entries: seq<Entry>): (r: seq<ServiceLine>)
    ensures |r| == |entries|
    ensures forall i :: 0 <= i < |entries| ==> r[i] == ServiceOf(entries[i])
  {
    if entries == [] then [] else Lines(entries[..|entries| - 1]) + [ServiceOf(entries[|entries| - 1])]
  }

  /** The number of service lines over the resources `order`. */
  function ServiceCount(order: seq<ResourceId>, resources: map<ResourceId, ResourceDoc>): nat
    requires forall r :: r in order ==> r in resources
  {
    if order == [] then 0
    else ServiceCount(order[..|order| - 1], resources) + |resources[order[|order| - 1]].services|
  }

  /** `build_tenant_dict`. `metadata` stands for `db.get_resource_metadata`;
      `lookups` lists the resources whose metadata was fetched, in the
      order of the calls. */
  method BuildTenantDict(name: string, tenantId: TenantId, entries: seq<Entry>, metadata: ResourceId -> Metadata)
    returns (doc: TenantDoc, lookups: seq<ResourceId>)
    ensures fresh(doc)
    ensures doc.Value() == BuildDoc(name, tenantId, entries, metadata)
    ensures lookups == doc.order
  {
    doc := new TenantDoc(name, tenantId);
    lookups := [];
    for i := 0 to |entries|
      invariant doc.Value() == BuildDoc(name, tenantId, entries[..i], metadata)
      invariant lookups == doc.order
    {
      assert entries[..i + 1][..i] == entries[..i];
      var entry := entries[i];
      var service := ServiceOf(entry);
      if entry.resourceId !in doc.resources {
        var resource := metadata(entry.resourceId);
        lookups := lookups + [entry.resourceId];
        doc.resources := doc.resources[entry.resourceId := ResourceDoc(resource, [service], None)];
        doc.order := doc.order + [entry.resourceId];
      } else {
        var resource := doc.resources[entry.resourceId];
        doc.resources := doc.resources[entry.resourceId := resource.(services := resource.services + [service])];
      }
    }
    assert entries[..|entries|] == entries;
  }

  /** The shape of what `build_tenant_dict` builds: name and id of the
      tenant, no price and no range yet, and one resource key for every
      distinct resource id of the entries and no other, each listed once. */
  lemma {:induction false} BuildDocKeys(name: string, tenantId: TenantId, entries: seq<Entry>,
                                        metadata: ResourceId -> Metadata)
    ensures var d := BuildDoc(name, tenantId, entries, metadata);
      && d.Valid()
      && d.name == name && d.tenantId == tenantId
      && d.totalCost == None && d.start == None && d.end == None
      && (forall r :: r in d.resources <==> exists e :: e in entries && e.resourceId == r)
  {
    if entries != [] {
      var n := |entries|;
      var prefix := entries[..n - 1];
      var e := entries[n - 1];
      BuildDocKeys(name, tenantId, prefix, metadata);
      var d := BuildDoc(name, tenantId, entries, metadata);
      forall r | (exists x :: x in entries && x.resourceId == r)
        ensures r in d.resources
      {
        var x :| x in entries && x.resourceId == r;
        if x != e {
          assert x in prefix by {
            var i :| 0 <= i < n && entries[i] == x;
            assert i < n - 1 && prefix[i] == x;
          }
        }
      }
      forall r | r in d.resources
        ensures exists x :: x in entries && x.resourceId == r
      {
        if r != e.resourceId {
          var x :| x in prefix && x.resourceId == r;
          assert x in entries;
        } else {
          assert e in entries;
        }
      }
    }
  }

  /** The contents of what `build_tenant_dict` builds: each resource
      carries the metadata fetched for it and the services of its entries,
      in entry order. */
  lemma {:induction false} BuildDocResources(name: string, tenantId: TenantId, entries: seq<Entry>,
                                             metadata: ResourceId -> Metadata)
    ensures var d := BuildDoc(name, tenantId, entries, metadata);
      forall r :: r in d.resources ==>
        d.resources[r] == ResourceDoc(metadata(r), Lines(EntriesFor(entries, r)), None)
  {
    if entries != [] {
      var n := |entries|;
      var prefix := entries[..n - 1];
      var e := entries[n - 1];
      assert entries == prefix + [e];
      BuildDocResources(name, tenantId, prefix, metadata);
      BuildDocKeys(name, tenantId, prefix, metadata);
      AddEntryResources(BuildDoc(name, tenantId, prefix, metadata), prefix, e, metadata);
    }
  }

  /** The induction step of `BuildDocResources`. */
  lemma AddEntryResources(d0: Doc, prefix: seq<Entry>, e: Entry, metadata: ResourceId -> Metadata)
    requires forall r :: r in d0.resources <==> exists x :: x in prefix && x.resourceId == r
    requires forall r :: r in d0.resources ==>
      d0.resources[r] == ResourceDoc(metadata(r), Lines(EntriesFor(prefix, r)), None)
    ensures var d := AddEntry(d0, e, metadata);
      forall r :: r in d.resources ==>
        d.resources[r] == ResourceDoc(metadata(r), Lines(EntriesFor(prefix + [e], r)), None)
  {
    var d := AddEntry(d0, e, metadata);
    forall r | r in d.resources
      ensures d.resources[r] == ResourceDoc(metadata(r), Lines(EntriesFor(prefix + [e], r)), None)
    {
      AddEntryResourceAt(d0, prefix, e, metadata, r);
    }
  }

  /** `AddEntryResources` at one key. */
  lemma AddEntryResourceAt(d0: Doc, prefix: seq<Entry>, e: Entry, metadata: ResourceId -> Metadata, r: ResourceId)
    requires r !in d0.resources ==> forall x :: x in prefix ==> x.resourceId != r
    requires r in d0.resources ==> d0.resources[r] == ResourceDoc(metadata(r), Lines(EntriesFor(prefix, r)), None)
    requires r in AddEntry(d0, e, metadata).resources
    ensures AddEntry(d0, e, metadata).resources[r] == ResourceDoc(metadata(r), Lines(EntriesFor(prefix + [e], r)), None)
  {
    var d := AddEntry(d0, e, metadata);
    EntriesForSnoc(prefix, e, r);
    if r != e.resourceId {
      assert d.resources[r] == d0.resources[r];
    } else if r in d0.resources {
      assert d.resources[r] == d0.resources[r].(services := d0.resources[r].services + [ServiceOf(e)]);
    } else {
      EntriesForAbsent(prefix, r);
      assert Lines(EntriesFor(prefix, r)) == [];
      assert d.resources[r] == ResourceDoc(metadata(r), [ServiceOf(e)], None);
    }
  }

  /** Filtering one more entry. */
  lemma EntriesForSnoc(entries: seq<Entry>, e: Entry, r: ResourceId)
    ensures EntriesFor(entries + [e], r) == EntriesFor(entries, r) + (if e.resourceId == r then [e] else [])
    ensures Lines(EntriesFor(entries + [e], r))
      == Lines(EntriesFor(entries, r)) + (if e.resourceId == r then [ServiceOf(e)] else [])
  {
    assert (entries + [e])[..|entries|] == entries;
    var s := EntriesFor(entries, r);
    if e.resourceId == r {
      assert (s + [e])[..|s|] == s;
    }
  }

  /** A resource with no entry has no filtered entries. */
  lemma {:induction false} EntriesForAbsent(entries: seq<Entry>, r: ResourceId)
    requires forall e :: e in entries ==> e.resourceId != r
    ensures EntriesFor(entries, r) == []
  {
    if entries != [] {
      assert entries[|entries| - 1] in entries;
      assert forall e :: e in entries[..|entries| - 1] ==> e in entries;
      EntriesForAbsent(entries[..|entries| - 1], r);
    }
  }

  /** Replacing the resource at `r` changes the service count over `order`
      by the change in its number of services, once if `r` is listed and not
      at all otherwise. */
  lemma {:induction false} ServiceCountUpdate(order: seq<ResourceId>, res: map<ResourceId, ResourceDoc>,
                                              r: ResourceId, x: ResourceDoc)
    requires forall k :: k in order ==> k in res
    requires forall i, j :: 0 <= i < j < |order| ==> order[i] != order[j]
    requires r in res
    ensures ServiceCount(order, res[r := x])
      == ServiceCount(order, res) + (if r in order then |x.services| - |res[r].services| else 0)
  {
    if order != [] {
      var n := |order|;
      assert forall k :: k in order[..n - 1] ==> k in order;
      ServiceCountUpdate(order[..n - 1], res, r, x);
      if order[n - 1] == r {
        var prefix := order[..n - 1];
        assert forall i :: 0 <= i < |prefix| ==> prefix[i] == order[i] && prefix[i] != r;
      } else {
        assert r in order <==> r in order[..n - 1] by {
          assert order == order[..n - 1] + [order[n - 1]];
        }
      }
    }
  }

  /** A resource not yet listed does not change the count over `order`. */
  lemma {:induction false} ServiceCountFresh(order: seq<ResourceId>, res: map<ResourceId, ResourceDoc>,
                                             r: ResourceId, x: ResourceDoc)
    requires forall k :: k in order ==> k in res
    requires r !in order
    ensures ServiceCount(order, res[r := x]) == ServiceCount(order, res)
  {
    if order != [] {
      assert forall k :: k in order[..|order| - 1] ==> k in order;
      ServiceCountFresh(order[..|order| - 1], res, r, x);
    }
  }

  /** Appending a resource adds its services to the count. */
  lemma ServiceCountSnoc(order: seq<ResourceId>, res: map<ResourceId, ResourceDoc>, r: ResourceId)
    requires forall k :: k in order ==> k in res
    requires r in res
    ensures ServiceCount(order + [r], res) == ServiceCount(order, res) + |res[r].services|
  {
    assert (order + [r])[..|order|] == order;
  }

  /** Every entry becomes exactly one service line: the lines of the
      document number as many as the entries. */
  lemma {:induction false} BuildDocCount(name: string, tenantId: TenantId, entries: seq<Entry>,
                                         metadata: ResourceId -> Metadata)
    ensures var d := BuildDoc(name, tenantId, entries, metadata);
      d.Valid() && ServiceCount(d.order, d.resources) == |entries|
  {
    BuildDocKeys(name, tenantId, entries, metadata);
    if entries != [] {
      var prefix := entries[..|entries| - 1];
      var e := entries[|entries| - 1];
      BuildDocCount(name, tenantId, prefix, metadata);
      var d0 := BuildDoc(name, tenantId, prefix, metadata);
      var r := e.resourceId;
      if r in d0.resources {
        ServiceCountUpdate(d0.order, d0.resources, r, d0.resources[r].(services := d0.resources[r].services + [ServiceOf(e)]));
      } else {
        var x := ResourceDoc(metadata(r), [ServiceOf(e)], None);
        ServiceCountFresh(d0.order, d0.resources, r, x);
        ServiceCountSnoc(d0.order, d0.resources[r := x], r);
      }
    }
  }

  /** An empty usage list gives an empty `resources` dictionary. */
  lemma BuildDocEmpty(name: string, tenantId: TenantId, metadata: ResourceId -> Metadata)
    ensures BuildDoc(name, tenantId, [], metadata) == Doc(name, tenantId, [], map[], None, None, None)
  {
  }
}
