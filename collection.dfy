/** The per-tenant collection cycle (`collect_usage`) and the two steps it
    runs for every meter in every window (`filter_and_group`, then
    `transform_and_insert`). */
module Collection {
  import opened Common
  import opened Windowing
  import opened Grouping
  import opened Store

  /** One entry of `meter_mappings`. */
  datatype MeterMapping = MeterMapping(
    meterName: string,
    transformer: string,
    service: Option<string>,
    resIdTemplate: Option<string>,
    resourceType: string,
    unit: string,
    metadataDef: string)

  /** The collection settings the cycle reads. `maxWindows == 0` means no cap,
      an empty `trustSources` means no trust list. */
  datatype CollectionConfig = CollectionConfig(
    mappings: seq<MeterMapping>,
    meterPairs: map<string, string>,
    maxWindows: nat,
    trustSources: set<string>)

  /** What a transformer returns for one resource in one window. */
  datatype Billable = NoUsage | Amount(volume: real)

  /** Python truthiness of a transformer result: `None` and zero are both false. */
  predicate Truthy(b: Billable)
    ensures Truthy(b) <==> b != NoUsage && b != Amount(0.0)
  {
    b.Amount? && b.volume != 0.0
  }

  /** A tenant as listed by the identity service. */
  datatype TenantInfo = TenantInfo(id: TenantId, name: string, description: string)

  /** The collaborators the cycle calls but that are not part of this model:
      the metering API (`tenant.usage`), the transformer registry
      (`transformers[name]().transform_usage`), `%`-formatting of
      `res_id_template`, and the store's verdict on each window's commit. */
  datatype Env = Env(
    fetch: (TenantId, string, Time, Time) -> seq<Sample>,
    transform: (string, string, seq<Sample>, Time, Time) -> Billable,
    format: (string, ResourceId) -> ResourceId,
    commits: (TenantId, Window) -> bool)

  /** `meter_info['service']` when present, else the meter name. */
  function ServiceName(m: MeterMapping): string
  {
    match m.service
    case Some(s) => s
    case None => m.meterName
  }

  /** `meter_pairs.get(meter_name, meter_name)`. */
  function QueryName(cfg: CollectionConfig, m: MeterMapping): string
  {
    if m.meterName in cfg.meterPairs then cfg.meterPairs[m.meterName] else m.meterName
  }

  /** `meter_info.get('res_id_template', '%s') % res`. */
  function BilledId(m: MeterMapping, res: ResourceId, env: Env): ResourceId
  {
    match m.resIdTemplate
    case None => res
    case Some(t) => env.format(t, res)
  }

  /** The transformer's result for resource `k` of the grouped samples. */
  function Outcome(env: Env, m: MeterMapping, service: string, g: Groups, k: ResourceId, w: Window): Billable
    requires k in g.entries
  {
    env.transform(m.transformer, service, g.entries[k], w.start, w.end)
  }

  /** The usage entry recorded for resource `k` with billable result `b`. */
  function RowFor(tid: TenantId, m: MeterMapping, service: string, k: ResourceId, b: Billable,
                  w: Window, ts: Time, env: Env): UsageRow
    requires b.Amount?
  {
    UsageRow(tid, BilledId(m, k, env), service, b.volume, m.unit, w.start, w.end, ts)
  }

  /** The writes `transform_and_insert` stages for one resource. */
  function WritesFor(tid: TenantId, g: Groups, k: ResourceId, m: MeterMapping, service: string,
                     w: Window, ts: Time, env: Env): seq<Write>
    requires k in g.entries && |g.entries[k]| > 0
  {
    var b := Outcome(env, m, service, g, k, w);
    if Truthy(b) then
      var samples := g.entries[k];
      [ResourceWrite(tid, BilledId(m, k, env), ResourceRow(m.resourceType, ts, samples[|samples| - 1], m.metadataDef)),
       UsageWrite(RowFor(tid, m, service, k, b, w, ts, env))]
    else
      []
  }

  /** The writes staged for the resources `keys`, in that order. */
  function TransformWrites(tid: TenantId, g: Groups, keys: seq<ResourceId>, m: MeterMapping, service: string,
                           w: Window, ts: Time, env: Env): seq<Write>
    requires forall k :: k in keys ==> k in g.entries && |g.entries[k]| > 0
  {
    if keys == [] then []
    else
      TransformWrites(tid, g, keys[..|keys| - 1], m, service, w, ts, env)
      + WritesFor(tid, g, keys[|keys| - 1], m, service, w, ts, env)
  }

  method TransformAndInsert(tenantId: TenantId, groups: UsageByResource, service: string, m: MeterMapping,
                            w: Window, store: Store, timestamp: Time, env: Env)
    requires groups.Value().Valid()
    modifies store`pending
    ensures store.pending == old(store.pending)
      + TransformWrites(tenantId, groups.Value(), groups.order, m, service, w, timestamp, env)
  {
    for i := 0 to |groups.order|
      invariant store.pending == old(store.pending)
        + TransformWrites(tenantId, groups.Value(), groups.order[..i], m, service, w, timestamp, env)
    {
      ghost var before := store.pending;
      var res := groups.order[i];
      var entries := groups.entries[res];
      var transformed := env.transform(m.transformer, service, entries, w.start, w.end);
      if Truthy(transformed) {
        var id := BilledId(m, res, env);
        store.InsertResource(tenantId, id, m.resourceType, timestamp, entries[|entries| - 1], m.metadataDef);
        store.InsertUsage(tenantId, id, transformed.volume, m.unit, service, w.start, w.end, timestamp);
        assert store.pending == before + [store.pending[|before|], store.pending[|before| + 1]];
      }
      assert store.pending == before + WritesFor(tenantId, groups.Value(), res, m, service, w, timestamp, env);
      TransformWritesStep(old(store.pending), before, store.pending, tenantId, groups.Value(), groups.order, i,
                          m, service, w, timestamp, env);
    }
    assert groups.order[..|groups.order|] == groups.order;
  }

  lemma TransformWritesStep(p0: seq<Write>, p1: seq<Write>, p2: seq<Write>, tid: TenantId, g: Groups,
                            keys: seq<ResourceId>, i: nat, m: MeterMapping, service: string,
                            w: Window, ts: Time, env: Env)
    requires i < |keys|
    requires forall k :: k in keys ==> k in g.entries && |g.entries[k]| > 0
    requires p1 == p0 + TransformWrites(tid, g, keys[..i], m, service, w, ts, env)
    requires p2 == p1 + WritesFor(tid, g, keys[i], m, service, w, ts, env)
    ensures p2 == p0 + TransformWrites(tid, g, keys[..i + 1], m, service, w, ts, env)
  {
    assert keys[..i + 1][..i] == keys[..i];
  }

  /** The usage rows among some staged writes, in order. */
  function UsageRowsOf(ws: seq<Write>): seq<UsageRow>
  {
    if ws == [] then []
    else UsageRowsOf(ws[..|ws| - 1]) + (if ws[|ws| - 1].UsageWrite? then [ws[|ws| - 1].row] else [])
  }

  lemma {:induction false} UsageRowsOfAppend(a: seq<Write>, b: seq<Write>)
    ensures UsageRowsOf(a + b) == UsageRowsOf(a) + UsageRowsOf(b)
  {
    if b == [] {
      assert a + b == a;
    } else {
      assert (a + b)[..|a + b| - 1] == a + b[..|b| - 1];
      UsageRowsOfAppend(a, b[..|b| - 1]);
    }
  }

  /** Committed row writes append exactly their usage rows. */
  lemma {:induction false} ApplyRowWritesUsage(db: DbState, ws: seq<Write>)
    requires forall w :: w in ws ==> RowWrite(w)
    ensures ApplyAll(db, ws).usage == db.usage + UsageRowsOf(ws)
  {
    if ws != [] {
      assert ws[|ws| - 1] in ws;
      ApplyRowWritesUsage(db, ws[..|ws| - 1]);
    }
  }

  /** The writes for one resource: a usage entry and a resource write when
      the transformer result is truthy, nothing otherwise. */
  lemma WritesForSpec(tid: TenantId, g: Groups, k: ResourceId, m: MeterMapping,
                      service: string, w: Window, ts: Time, env: Env)
    requires k in g.entries && |g.entries[k]| > 0
    ensures var b := Outcome(env, m, service, g, k, w);
      && (forall x :: x in WritesFor(tid, g, k, m, service, w, ts, env) ==> RowWrite(x))
      && UsageRowsOf(WritesFor(tid, g, k, m, service, w, ts, env))
         == if Truthy(b) then [RowFor(tid, m, service, k, b, w, ts, env)] else []
  {
    var b := WritesFor(tid, g, k, m, service, w, ts, env);
    if b != [] {
      assert |b| == 2 && b[0].ResourceWrite? && b[1].UsageWrite?;
      assert b[..1][..0] == [];
      assert UsageRowsOf(b[..1]) == [];
      assert UsageRowsOf(b) == UsageRowsOf(b[..1]) + [b[1].row];
    }
  }

  /** Every staged write of `transform_and_insert` is a resource or usage write. */
  lemma {:induction false} TransformWritesAreRows(tid: TenantId, g: Groups, keys: seq<ResourceId>, m: MeterMapping,
                                                  service: string, w: Window, ts: Time, env: Env)
    requires forall k :: k in keys ==> k in g.entries && |g.entries[k]| > 0
    ensures forall x :: x in TransformWrites(tid, g, keys, m, service, w, ts, env) ==> RowWrite(x)
  {
    if keys != [] {
      var k := keys[|keys| - 1];
      assert k in keys;
      TransformWritesAreRows(tid, g, keys[..|keys| - 1], m, service, w, ts, env);
      WritesForSpec(tid, g, k, m, service, w, ts, env);
    }
  }

  /** The suppression rule of `transform_and_insert`, as the sequence of
      usage entries it stages: one entry per resource whose transformer
      result is truthy, in resource order, and none for a resource whose
      result is falsy (no result, or zero). */
  lemma {:induction false} TransformRows(tid: TenantId, g: Groups, keys: seq<ResourceId>, m: MeterMapping,
                                         service: string, w: Window, ts: Time, env: Env)
    requires forall k :: k in keys ==> k in g.entries && |g.entries[k]| > 0
    ensures UsageRowsOf(TransformWrites(tid, g, keys, m, service, w, ts, env))
      == BilledRows(tid, g, keys, m, service, w, ts, env)
  {
    if keys != [] {
      var k := keys[|keys| - 1];
      assert k in keys;
      TransformRows(tid, g, keys[..|keys| - 1], m, service, w, ts, env);
      WritesForSpec(tid, g, k, m, service, w, ts, env);
      UsageRowsOfAppend(TransformWrites(tid, g, keys[..|keys| - 1], m, service, w, ts, env),
                        WritesFor(tid, g, k, m, service, w, ts, env));
    }
  }

  /** The usage entries of the resources with a truthy result, in order. */
  function BilledRows(tid: TenantId, g: Groups, keys: seq<ResourceId>, m: MeterMapping,
                      service: string, w: Window, ts: Time, env: Env): seq<UsageRow>
    requires forall k :: k in keys ==> k in g.entries
  {
    if keys == [] then []
    else
      var k := keys[|keys| - 1];
      var b := Outcome(env, m, service, g, k, w);
      BilledRows(tid, g, keys[..|keys| - 1], m, service, w, ts, env)
      + (if Truthy(b) then [RowFor(tid, m, service, k, b, w, ts, env)] else [])
  }

  /** What the billed rows are: each belongs to the tenant and the window,
      carries a non-zero volume and the meter's unit and service; there is
      one for every resource with a truthy result and one per such resource. */
  lemma {:induction false} BilledRowsSpec(tid: TenantId, g: Groups, keys: seq<ResourceId>, m: MeterMapping,
                                          service: string, w: Window, ts: Time, env: Env)
    requires forall k :: k in keys ==> k in g.entries
    ensures var rows := BilledRows(tid, g, keys, m, service, w, ts, env);
      && |rows| == |Filter(keys, k => k in g.entries && Truthy(Outcome(env, m, service, g, k, w)))|
      && (forall u :: u in rows ==>
            && u.tenantId == tid && u.start == w.start && u.end == w.end
            && u.volume != 0.0 && u.unit == m.unit && u.service == service && u.created == ts)
      && (forall k :: k in keys && Truthy(Outcome(env, m, service, g, k, w)) ==>
            RowFor(tid, m, service, k, Outcome(env, m, service, g, k, w), w, ts, env) in rows)
  {
    if keys != [] {
      var k := keys[|keys| - 1];
      assert k in keys;
      assert forall j :: j in keys[..|keys| - 1] ==> j in keys;
      BilledRowsSpec(tid, g, keys[..|keys| - 1], m, service, w, ts, env);
    }
  }

  /** Each staged resource write names a resource whose transformer result
      was truthy, and records as metadata source the last sample grouped
      under that resource. */
  lemma {:induction false} TransformResources(tid: TenantId, g: Groups, keys: seq<ResourceId>, m: MeterMapping,
                                              service: string, w: Window, ts: Time, env: Env)
    requires forall k :: k in keys ==> k in g.entries && |g.entries[k]| > 0
    ensures forall x :: x in TransformWrites(tid, g, keys, m, service, w, ts, env) && x.ResourceWrite? ==>
      exists k :: k in keys && Truthy(Outcome(env, m, service, g, k, w))
                  && x.tenantId == tid && x.resourceId == BilledId(m, k, env)
                  && x.resource.metadataSource == g.entries[k][|g.entries[k]| - 1]
  {
    if keys != [] {
      var k := keys[|keys| - 1];
      assert k in keys;
      assert forall j :: j in keys[..|keys| - 1] ==> j in keys;
      TransformResources(tid, g, keys[..|keys| - 1], m, service, w, ts, env);
    }
  }

  /** The samples of one meter in one window, grouped from an empty dictionary. */
  function MeterGroups(tid: TenantId, cfg: CollectionConfig, m: MeterMapping, w: Window, env: Env): (g: Groups)
    ensures g.Valid()
  {
    var usage := env.fetch(tid, QueryName(cfg, m), w.start, w.end);
    GroupedFromEmpty(usage, cfg.trustSources);
    GroupAll(Groups([], map[]), usage, cfg.trustSources)
  }

  /** The writes one meter mapping stages in one window. */
  function MeterWrites(tid: TenantId, cfg: CollectionConfig, m: MeterMapping, w: Window, ts: Time, env: Env): seq<Write>
  {
    var g := MeterGroups(tid, cfg, m, w, env);
    TransformWrites(tid, g, g.order, m, ServiceName(m), w, ts, env)
  }

  /** The writes of the meter mappings `ms`, in order. */
  function MetersWrites(tid: TenantId, cfg: CollectionConfig, ms: seq<MeterMapping>, w: Window, ts: Time, env: Env): seq<Write>
  {
    if ms == [] then []
    else MetersWrites(tid, cfg, ms[..|ms| - 1], w, ts, env) + MeterWrites(tid, cfg, ms[|ms| - 1], w, ts, env)
  }

  /** The whole transaction of one window: every meter's writes, then the
      watermark moved to the window's end. */
  function WindowWrites(tid: TenantId, cfg: CollectionConfig, w: Window, ts: Time, env: Env): seq<Write>
  {
    MetersWrites(tid, cfg, cfg.mappings, w, ts, env) + [WatermarkWrite(tid, w.end)]
  }

  /** One iteration of the meter loop of a window: fetch, group, transform, stage. */
  method StageMeter(tenant: TenantInfo, store: Store, cfg: CollectionConfig, m: MeterMapping, w: Window,
                    timestamp: Time, env: Env)
    modifies store`pending
    ensures store.pending == old(store.pending) + MeterWrites(tenant.id, cfg, m, w, timestamp, env)
  {
    var usage := env.fetch(tenant.id, QueryName(cfg, m), w.start, w.end);
    var groups := new UsageByResource();
    FilterAndGroup(usage, groups, cfg.trustSources);
    var service := ServiceName(m);
    TransformAndInsert(tenant.id, groups, service, m, w, store, timestamp, env);
  }

  /** The body of the per-window `with session.begin(...)` block. */
  method StageWindow(tenant: TenantInfo, store: Store, cfg: CollectionConfig, w: Window, timestamp: Time, env: Env)
    modifies store`pending
    ensures store.pending == old(store.pending) + WindowWrites(tenant.id, cfg, w, timestamp, env)
  {
    var i := 0;
    while i < |cfg.mappings|
      invariant 0 <= i <= |cfg.mappings|
      invariant store.pending == old(store.pending) + MetersWrites(tenant.id, cfg, cfg.mappings[..i], w, timestamp, env)
    {
      ghost var before := store.pending;
      StageMeter(tenant, store, cfg, cfg.mappings[i], w, timestamp, env);
      MetersWritesStep(old(store.pending), before, store.pending, tenant.id, cfg, cfg.mappings, i, w, timestamp, env);
      i := i + 1;
    }
    assert cfg.mappings[..i] == cfg.mappings;
    store.SetWatermark(tenant.id, w.end);
  }

  lemma MetersWritesStep(p0: seq<Write>, p1: seq<Write>, p2: seq<Write>, tid: TenantId, cfg: CollectionConfig,
                         ms: seq<MeterMapping>, i: nat, w: Window, ts: Time, env: Env)
    requires i < |ms|
    requires p1 == p0 + MetersWrites(tid, cfg, ms[..i], w, ts, env)
    requires p2 == p1 + MeterWrites(tid, cfg, ms[i], w, ts, env)
    ensures p2 == p0 + MetersWrites(tid, cfg, ms[..i + 1], w, ts, env)
  {
    MetersWritesSnoc(tid, cfg, ms, i, w, ts, env);
    var a := MetersWrites(tid, cfg, ms[..i], w, ts, env);
    var b := MeterWrites(tid, cfg, ms[i], w, ts, env);
    AppendTwice(p0, p1, p2, a, b);
  }

  lemma MetersWritesSnoc(tid: TenantId, cfg: CollectionConfig, ms: seq<MeterMapping>, i: nat, w: Window, ts: Time, env: Env)
    requires i < |ms|
    ensures MetersWrites(tid, cfg, ms[..i + 1], w, ts, env)
      == MetersWrites(tid, cfg, ms[..i], w, ts, env) + MeterWrites(tid, cfg, ms[i], w, ts, env)
  {
    assert ms[..i + 1][..i] == ms[..i];
  }

  /** The effect on the store of committing one window. */
  type Step = (DbState, Window) -> DbState

  /** The store after committing the windows `ws` one after the other. */
  function ApplyWindows(db: DbState, ws: seq<Window>, step: Step): DbState
  {
    if ws == [] then db
    else step(ApplyWindows(db, ws[..|ws| - 1], step), ws[|ws| - 1])
  }

  /** The store after one window's writes are committed together. */
  function ApplyWindow(db: DbState, tid: TenantId, cfg: CollectionConfig, w: Window, ts: Time, env: Env): DbState
  {
    ApplyAll(db, WindowWrites(tid, cfg, w, ts, env))
  }

  /** `ApplyWindow` for one tenant's cycle, as a step function. */
  function CommitStep(tid: TenantId, cfg: CollectionConfig, ts: Time, env: Env): Step
  {
    (d: DbState, w: Window) => ApplyWindow(d, tid, cfg, w, ts, env)
  }

  /** `step` commits a window of tenant `tid` exactly as `ApplyWindow` does. */
  ghost predicate StepIs(step: Step, tid: TenantId, cfg: CollectionConfig, ts: Time, env: Env)
  {
    forall d, w {:trigger ApplyWindow(d, tid, cfg, w, ts, env)} :: step(d, w) == ApplyWindow(d, tid, cfg, w, ts, env)
  }

  /** One window of `collect_usage`: stage all meters and the watermark, then
      commit; a rejected commit rolls everything back. */
  method CollectWindow(tenant: TenantInfo, store: Store, cfg: CollectionConfig, w: Window, timestamp: Time, env: Env,
                       ghost step: Step)
    returns (ok: bool)
    requires store.pending == []
    requires StepIs(step, tenant.id, cfg, timestamp, env)
    modifies store
    ensures store.pending == []
    ensures ok == env.commits(tenant.id, w)
    ensures store.db == if ok then step(old(store.db), w) else old(store.db)
  {
    ghost var db0 := store.db;
    StageWindow(tenant, store, cfg, w, timestamp, env);
    assert store.pending == WindowWrites(tenant.id, cfg, w, timestamp, env);
    ok := store.Commit(env.commits(tenant.id, w));
    assert step(db0, w) == ApplyWindow(db0, tenant.id, cfg, w, timestamp, env);
  }

  /** How many windows commit before the first one the store rejects. */
  function CommittedCount(tid: TenantId, ws: seq<Window>, commits: (TenantId, Window) -> bool): (k: nat)
    ensures k <= |ws|
    ensures forall j :: 0 <= j < k ==> commits(tid, ws[j])
    ensures k < |ws| ==> !commits(tid, ws[k])
  {
    if ws == [] || !commits(tid, ws[0]) then 0 else 1 + CommittedCount(tid, ws[1..], commits)
  }

  /** One line of the sweep's response: `updated: False` carries the
      "Integrity error" message in the source. */
  datatype Report = Report(tenantId: TenantId, updated: bool, window: Window)

  /** The `updated: True` lines for the windows `ws`. */
  function Updated(tid: TenantId, ws: seq<Window>): (r: seq<Report>)
    ensures |r| == |ws|
    ensures forall i :: 0 <= i < |ws| ==> r[i] == Report(tid, true, ws[i])
  {
    if ws == [] then [] else Updated(tid, ws[..|ws| - 1]) + [Report(tid, true, ws[|ws| - 1])]
  }

  /** The response dictionary that the sweep threads through every tenant. */
  class SweepResponse {
    var tenants: seq<Report>
    var errors: nat

    constructor ()
      ensures tenants == [] && errors == 0
    {
      tenants := [];
      errors := 0;
    }
  }

  /** The result of one tenant's cycle. */
  datatype TenantOutcome = TenantOutcome(db: DbState, reports: seq<Report>, errors: nat, runOnce: bool)

  /** The tenant's watermark once its row has been upserted. */
  function StartOf(db: DbState, tenant: TenantInfo, ts: Time): Time
  {
    UpsertTenant(db, tenant.id, tenant.name, tenant.description, ts).tenants[tenant.id].lastCollected
  }

  /** The windows one cycle attempts: whole hours from the watermark to the
      ceiling, capped by `max_windows_per_cycle`. */
  function CycleWindows(db: DbState, tenant: TenantInfo, end: Time, cfg: CollectionConfig, ts: Time): seq<Window>
  {
    CapWindows(Windows(StartOf(db, tenant, ts), end), cfg.maxWindows)
  }

  /** Committing the windows `ws` in order until the first one the store
      rejects; that one is reported as failed and ends the cycle. */
  function RunWindows(db: DbState, tid: TenantId, ws: seq<Window>, commits: (TenantId, Window) -> bool, step: Step): TenantOutcome
  {
    var k := CommittedCount(tid, ws, commits);
    TenantOutcome(
      ApplyWindows(db, ws[..k], step),
      Updated(tid, ws[..k]) + (if k < |ws| then [Report(tid, false, ws[k])] else []),
      if k < |ws| then 1 else 0,
      k > 0)
  }

  /** One tenant's cycle: upsert the tenant row, then run its windows. */
  function CollectSpec(db: DbState, tenant: TenantInfo, end: Time, cfg: CollectionConfig, ts: Time, env: Env): TenantOutcome
  {
    RunWindows(UpsertTenant(db, tenant.id, tenant.name, tenant.description, ts), tenant.id,
               CycleWindows(db, tenant, end, cfg, ts), env.commits, CommitStep(tenant.id, cfg, ts, env))
  }

  /** `collect_usage`. */
  method CollectUsage(tenant: TenantInfo, store: Store, resp: SweepResponse, end: Time,
                      cfg: CollectionConfig, timestamp: Time, env: Env) returns (runOnce: bool)
    requires store.pending == []
    modifies store, resp
    ensures store.pending == []
    ensures var o := CollectSpec(old(store.db), tenant, end, cfg, timestamp, env);
      && store.db == o.db
      && resp.tenants == old(resp.tenants) + o.reports
      && resp.errors == old(resp.errors) + o.errors
      && runOnce == o.runOnce
  {
    ghost var db0 := store.db;
    var dbTenant := store.InsertTenant(tenant.id, tenant.name, tenant.description, timestamp);
    var start := dbTenant.lastCollected;

    var windows := GenerateWindows(start, end);
    if cfg.maxWindows > 0 && cfg.maxWindows < |windows| {
      windows := windows[..cfg.maxWindows];
    }
    assert windows == CycleWindows(db0, tenant, end, cfg, timestamp);
    runOnce := CollectWindows(tenant, store, resp, windows, cfg, timestamp, env, CommitStep(tenant.id, cfg, timestamp, env));
  }

  /** The window loop of `collect_usage`. */
  method CollectWindows(tenant: TenantInfo, store: Store, resp: SweepResponse, windows: seq<Window>,
                        cfg: CollectionConfig, timestamp: Time, env: Env, ghost step: Step) returns (runOnce: bool)
    requires store.pending == []
    requires StepIs(step, tenant.id, cfg, timestamp, env)
    modifies store, resp
    ensures store.pending == []
    ensures var o := RunWindows(old(store.db), tenant.id, windows, env.commits, step);
      && store.db == o.db
      && resp.tenants == old(resp.tenants) + o.reports
      && resp.errors == old(resp.errors) + o.errors
      && runOnce == o.runOnce
  {
    runOnce := false;
    ghost var db1 := store.db;
    var i := 0;
    while i < |windows|
      invariant 0 <= i <= |windows|
      invariant store.pending == []
      invariant store.db == ApplyWindows(db1, windows[..i], step)
      invariant resp.tenants == old(resp.tenants) + Updated(tenant.id, windows[..i])
      invariant resp.errors == old(resp.errors)
      invariant forall j :: 0 <= j < i ==> env.commits(tenant.id, windows[j])
      invariant runOnce == (i > 0)
    {
      var w := windows[i];
      ghost var before := store.db;
      var ok := CollectWindow(tenant, store, cfg, w, timestamp, env, step);
      if !ok {
        RecordFailure(resp, tenant.id, w);
        RunWindowsAt(db1, tenant.id, windows, env.commits, step, i);
        return;
      }
      ApplyWindowsStep(db1, before, store.db, windows, i, step);
      UpdatedStep(old(resp.tenants), resp.tenants, tenant.id, windows, i);
      resp.tenants := resp.tenants + [Report(tenant.id, true, w)];
      runOnce := true;
      i := i + 1;
    }
    RunWindowsAt(db1, tenant.id, windows, env.commits, step, i);
  }

  /** The failure branch of `collect_usage`: one `updated: False` entry and
      one more error. */
  method RecordFailure(resp: SweepResponse, tid: TenantId, w: Window)
    modifies resp
    ensures resp.tenants == old(resp.tenants) + [Report(tid, false, w)]
    ensures resp.errors == old(resp.errors) + 1
  {
    resp.tenants := resp.tenants + [Report(tid, false, w)];
    resp.errors := resp.errors + 1;
  }

  lemma ApplyWindowsStep(db1: DbState, d0: DbState, d1: DbState, ws: seq<Window>, i: nat, step: Step)
    requires i < |ws|
    requires d0 == ApplyWindows(db1, ws[..i], step)
    requires d1 == step(d0, ws[i])
    ensures d1 == ApplyWindows(db1, ws[..i + 1], step)
  {
    assert ws[..i + 1][..i] == ws[..i];
  }

  lemma UpdatedStep(base: seq<Report>, t: seq<Report>, tid: TenantId, ws: seq<Window>, i: nat)
    requires i < |ws|
    requires t == base + Updated(tid, ws[..i])
    ensures t + [Report(tid, true, ws[i])] == base + Updated(tid, ws[..i + 1])
  {
    assert ws[..i + 1][..i] == ws[..i];
  }

  /** The outcome of running windows of which exactly the first `i` commit. */
  lemma RunWindowsAt(db: DbState, tid: TenantId, ws: seq<Window>, commits: (TenantId, Window) -> bool, step: Step, i: nat)
    requires i <= |ws|
    requires forall j :: 0 <= j < i ==> commits(tid, ws[j])
    requires i < |ws| ==> !commits(tid, ws[i])
    ensures RunWindows(db, tid, ws, commits, step) == TenantOutcome(
        ApplyWindows(db, ws[..i], step),
        Updated(tid, ws[..i]) + (if i < |ws| then [Report(tid, false, ws[i])] else []),
        if i < |ws| then 1 else 0,
        i > 0)
  {
    CommittedCountIs(tid, ws, commits, i);
  }

  /** The count of committed windows is the index of the first rejected one. */
  lemma {:induction false} CommittedCountIs(tid: TenantId, ws: seq<Window>, commits: (TenantId, Window) -> bool, i: nat)
    requires i <= |ws|
    requires forall j :: 0 <= j < i ==> commits(tid, ws[j])
    requires i < |ws| ==> !commits(tid, ws[i])
    ensures CommittedCount(tid, ws, commits) == i
  {
    if i > 0 {
      assert commits(tid, ws[0]);
      CommittedCountIs(tid, ws[1..], commits, i - 1);
    }
  }
}
