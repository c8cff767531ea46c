/** The usage filter/grouper (`filter_and_group`): drops samples from
    untrusted sources and appends the rest, per resource, to a dictionary
    owned by the caller. */
module Grouping {
  import opened Common

  /** One metering sample as returned by the external metering API. */
  datatype Sample = Sample(resourceId: ResourceId, source: string, volume: real, timestamp: Time)

  /** The trust test: with no trust list configured every sample is kept. */
  predicate Trusted(s: Sample, trust: set<string>)
    ensures trust != {} ==> (Trusted(s, trust) <==> s.source in trust)
    ensures trust == {} ==> Trusted(s, trust)
  {
    trust == {} || s.source in trust
  }

  /** The samples of resource `r` that survive the filter, in input order. */
  function Selected(usage: seq<Sample>, trust: set<string>, r: ResourceId): seq<Sample>
  {
    Filter(usage, s => Trusted(s, trust) && s.resourceId == r)
  }

  /** The value of a `usage_by_resource` dictionary: its keys in the order
      they were first inserted, and the sample list under each key. */
  datatype Groups = Groups(order: seq<ResourceId>, entries: map<ResourceId, seq<Sample>>)
  {
    /** Keys are listed once each, and every list holds at least the sample
        that created its key. */
    ghost predicate Valid()
    {
      && (forall i, j :: 0 <= i < j < |order| ==> order[i] != order[j])
      && (forall r :: r in entries <==> r in order)
      && (forall r :: r in entries ==> |entries[r]| > 0)
    }

    /** `usage_by_resource.get(r, [])`. */
    function EntriesOf(r: ResourceId): seq<Sample>
    {
      if r in entries then entries[r] else []
    }
  }

  /** One iteration of the loop: `setdefault(resource_id, []).append(u)`
      for a trusted sample, nothing for an untrusted one. */
  function Add(g: Groups, s: Sample, trust: set<string>): Groups
  {
    if !Trusted(s, trust) then g
    else if s.resourceId in g.entries then
      g.(entries := g.entries[s.resourceId := g.entries[s.resourceId] + [s]])
    else
      Groups(g.order + [s.resourceId], g.entries[s.resourceId := [s]])
  }

  /** The whole loop over `usage`, starting from the caller's dictionary. */
  function GroupAll(g: Groups, usage: seq<Sample>, trust: set<string>): Groups
  {
    if usage == [] then g
    else Add(GroupAll(g, usage[..|usage| - 1], trust), usage[|usage| - 1], trust)
  }

  /** The caller-owned dictionary that `filter_and_group` fills in place. */
  class UsageByResource {
    var order: seq<ResourceId>
    var entries: map<ResourceId, seq<Sample>>

    function Value(): Groups
      reads this
    {
      Groups(order, entries)
    }

    constructor ()
      ensures Value() == Groups([], map[])
    {
      order := [];
      entries := map[];
    }
  }

  method FilterAndGroup(usage: seq<Sample>, groups: UsageByResource, trust: set<string>)
    requires groups.Value().Valid()
    modifies groups
    ensures groups.Value().Valid()
    ensures groups.Value() == GroupAll(old(groups.Value()), usage, trust)
  {
    ghost var start := groups.Value();
    for i := 0 to |usage|
      invariant groups.Value().Valid()
      invariant groups.Value() == GroupAll(start, usage[..i], trust)
    {
      ghost var prev := groups.Value();
      GroupAllSnoc(start, usage, i, trust);
      AddValid(prev, usage[i], trust);
      var u := usage[i];
      if !Trusted(u, trust) {
        continue;
      }
      var resourceId := u.resourceId;
      if resourceId in groups.entries {
        groups.entries := groups.entries[resourceId := groups.entries[resourceId] + [u]];
      } else {
        groups.order := groups.order + [resourceId];
        groups.entries := groups.entries[resourceId := [u]];
      }
      assert groups.Value() == Add(prev, u, trust);
    }
    assert usage[..|usage|] == usage;
  }

  /** The loop over the first `i + 1` samples is the loop over the first `i`
      followed by one more step. */
  lemma GroupAllSnoc(g: Groups, usage: seq<Sample>, i: int, trust: set<string>)
    requires 0 <= i < |usage|
    ensures GroupAll(g, usage[..i + 1], trust) == Add(GroupAll(g, usage[..i], trust), usage[i], trust)
  {
    assert usage[..i + 1][..i] == usage[..i];
  }

  /** One step of the loop keeps every key listed once, with a non-empty
      list under it. */
  lemma AddValid(h: Groups, s: Sample, trust: set<string>)
    requires h.Valid()
    ensures Add(h, s, trust).Valid()
  {
    if Trusted(s, trust) && s.resourceId !in h.entries {
      var o := h.order + [s.resourceId];
      forall i, j | 0 <= i < j < |o|
        ensures o[i] != o[j]
      {
        if j == |h.order| {
          assert o[i] == h.order[i];
        }
      }
    }
  }

  /** One step of the loop appends the sample under its own key, and only
      there, when it is trusted. */
  lemma AddSpec(h: Groups, s: Sample, trust: set<string>)
    ensures forall r ::
      Add(h, s, trust).EntriesOf(r) == h.EntriesOf(r) + (if Trusted(s, trust) && s.resourceId == r then [s] else [])
    ensures forall r :: r in Add(h, s, trust).entries <==> r in h.entries || (Trusted(s, trust) && s.resourceId == r)
    ensures h.order <= Add(h, s, trust).order
  {
  }

  /** The kept samples of one resource, one sample further on. */
  lemma SelectedSnoc(usage: seq<Sample>, trust: set<string>, r: ResourceId)
    requires usage != []
    ensures Selected(usage, trust, r) ==
      Selected(usage[..|usage| - 1], trust, r)
        + (if Trusted(usage[|usage| - 1], trust) && usage[|usage| - 1].resourceId == r then [usage[|usage| - 1]] else [])
  {
  }

  /** The loop keeps the dictionary well formed and the caller's keys in
      front. */
  lemma {:induction false} GroupAllValid(g: Groups, usage: seq<Sample>, trust: set<string>)
    requires g.Valid()
    ensures GroupAll(g, usage, trust).Valid()
    ensures g.order <= GroupAll(g, usage, trust).order
  {
    if usage != [] {
      var init := usage[..|usage| - 1];
      GroupAllValid(g, init, trust);
      var h := GroupAll(g, init, trust);
      AddValid(h, usage[|usage| - 1], trust);
      AddSpec(h, usage[|usage| - 1], trust);
    }
  }

  /** What the loop does to each key: the kept samples of that resource are
      appended, in input order, after whatever the caller had already put
      under it; keys of the caller stay where they were and new keys come
      after them. */
  lemma {:induction false} GroupAllSpec(g: Groups, usage: seq<Sample>, trust: set<string>)
    requires g.Valid()
    ensures GroupAll(g, usage, trust).Valid()
    ensures forall r :: GroupAll(g, usage, trust).EntriesOf(r) == g.EntriesOf(r) + Selected(usage, trust, r)
    ensures forall r :: r in GroupAll(g, usage, trust).entries <==> r in g.entries || Selected(usage, trust, r) != []
    ensures g.order <= GroupAll(g, usage, trust).order
  {
    GroupAllValid(g, usage, trust);
    GroupAllEntries(g, usage, trust);
  }

  /** The per-key half of `GroupAllSpec`. */
  lemma GroupAllEntries(g: Groups, usage: seq<Sample>, trust: set<string>)
    ensures forall r :: GroupAll(g, usage, trust).EntriesOf(r) == g.EntriesOf(r) + Selected(usage, trust, r)
    ensures forall r :: r in GroupAll(g, usage, trust).entries <==> r in g.entries || Selected(usage, trust, r) != []
  {
    forall r
      ensures GroupAll(g, usage, trust).EntriesOf(r) == g.EntriesOf(r) + Selected(usage, trust, r)
      ensures r in GroupAll(g, usage, trust).entries <==> r in g.entries || Selected(usage, trust, r) != []
    {
      GroupAllEntriesAt(g, usage, trust, r);
    }
  }

  /** `GroupAllEntries` for one key, by induction on the samples. */
  lemma {:induction false} GroupAllEntriesAt(g: Groups, usage: seq<Sample>, trust: set<string>, r: ResourceId)
    ensures GroupAll(g, usage, trust).EntriesOf(r) == g.EntriesOf(r) + Selected(usage, trust, r)
    ensures r in GroupAll(g, usage, trust).entries <==> r in g.entries || Selected(usage, trust, r) != []
  {
    if usage == [] {
      assert g.EntriesOf(r) + [] == g.EntriesOf(r);
    } else {
      var init := usage[..|usage| - 1];
      var s := usage[|usage| - 1];
      GroupAllEntriesAt(g, init, trust, r);
      var h := GroupAll(g, init, trust);
      AddSpec(h, s, trust);
      SelectedSnoc(usage, trust, r);
      assert g.EntriesOf(r) + Selected(init, trust, r) + (if Trusted(s, trust) && s.resourceId == r then [s] else [])
        == g.EntriesOf(r) + Selected(usage, trust, r);
    }
  }

  /** Started from an empty dictionary (as `collect_usage` does), the
      dictionary holds exactly the trusted samples, each under its own
      resource id: an untrusted sample never reaches a transformer. */
  lemma GroupedFromEmpty(usage: seq<Sample>, trust: set<string>)
    ensures var g := GroupAll(Groups([], map[]), usage, trust);
      && g.Valid()
      && (forall r :: r in g.entries ==> g.entries[r] == Selected(usage, trust, r))
      && (forall r, s :: r in g.entries && s in g.entries[r] ==> s in usage && Trusted(s, trust) && s.resourceId == r)
      && (forall s :: s in usage && Trusted(s, trust) ==> s.resourceId in g.entries)
  {
    var e := Groups([], map[]);
    GroupAllSpec(e, usage, trust);
    var g := GroupAll(e, usage, trust);
    forall r | r in g.entries
      ensures g.entries[r] == Selected(usage, trust, r)
    {
      assert g.EntriesOf(r) == e.EntriesOf(r) + Selected(usage, trust, r);
    }
    forall s | s in usage && Trusted(s, trust)
      ensures s.resourceId in g.entries
    {
      assert s in Selected(usage, trust, s.resourceId);
    }
  }
}
