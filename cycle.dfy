/** What one collection cycle does to the store: the watermark state
    machine, append-only usage, and the exactly-once guarantee that the
    watermark gives across cycles. */
module Cycle {
  import opened Common
  import opened Windowing
  import opened Grouping
  import opened Store
  import opened Collection

  /** The samples grouped for one meter in one window are a valid grouping
      of that window's fetched samples, so every key `transform_and_insert`
      visits has at least one sample. */
  lemma MeterGroupsKeys(tid: TenantId, cfg: CollectionConfig, m: MeterMapping, w: Window, env: Env)
    ensures var g := MeterGroups(tid, cfg, m, w, env);
      forall k :: k in g.order ==> k in g.entries && |g.entries[k]| > 0
  {
  }

  /** Every write a window stages for its meters is a resource or usage write. */
  lemma {:induction false} MetersWritesAreRows(tid: TenantId, cfg: CollectionConfig, ms: seq<MeterMapping>,
                                               w: Window, ts: Time, env: Env)
    ensures forall x :: x in MetersWrites(tid, cfg, ms, w, ts, env) ==> RowWrite(x)
  {
    if ms != [] {
      var m := ms[|ms| - 1];
      MetersWritesAreRows(tid, cfg, ms[..|ms| - 1], w, ts, env);
      var g := MeterGroups(tid, cfg, m, w, env);
      MeterGroupsKeys(tid, cfg, m, w, env);
      TransformWritesAreRows(tid, g, g.order, m, ServiceName(m), w, ts, env);
    }
  }

  /** The resource rows one meter stages in a window take as metadata
      source a sample the metering API returned for that window, from a
      trusted source, and are keyed by the billed form of that sample's own
      resource id. */
  lemma MeterResourcesTrusted(tid: TenantId, cfg: CollectionConfig, m: MeterMapping, w: Window, ts: Time, env: Env)
    ensures forall x :: x in MeterWrites(tid, cfg, m, w, ts, env) && x.ResourceWrite? ==>
      && x.tenantId == tid
      && x.resource.metadataSource in env.fetch(tid, QueryName(cfg, m), w.start, w.end)
      && Trusted(x.resource.metadataSource, cfg.trustSources)
      && x.resourceId == BilledId(m, x.resource.metadataSource.resourceId, env)
  {
    var usage := env.fetch(tid, QueryName(cfg, m), w.start, w.end);
    var g := MeterGroups(tid, cfg, m, w, env);
    MeterGroupsKeys(tid, cfg, m, w, env);
    GroupedFromEmpty(usage, cfg.trustSources);
    TransformResources(tid, g, g.order, m, ServiceName(m), w, ts, env);
    forall x | x in MeterWrites(tid, cfg, m, w, ts, env) && x.ResourceWrite?
      ensures && x.tenantId == tid
              && x.resource.metadataSource in usage
              && Trusted(x.resource.metadataSource, cfg.trustSources)
              && x.resourceId == BilledId(m, x.resource.metadataSource.resourceId, env)
    {
      var k :| k in g.order && Truthy(Outcome(env, m, ServiceName(m), g, k, w))
               && x.tenantId == tid && x.resourceId == BilledId(m, k, env)
               && x.resource.metadataSource == g.entries[k][|g.entries[k]| - 1];
      assert g.entries[k][|g.entries[k]| - 1] in g.entries[k];
    }
  }

  /** The usage entries one meter stages in a window: all for the tenant and
      exactly that window, none with a zero volume. */
  lemma MeterRows(tid: TenantId, cfg: CollectionConfig, m: MeterMapping, w: Window, ts: Time, env: Env)
    ensures forall u :: u in UsageRowsOf(MeterWrites(tid, cfg, m, w, ts, env)) ==>
      u.tenantId == tid && u.start == w.start && u.end == w.end && u.volume != 0.0
  {
    var g := MeterGroups(tid, cfg, m, w, env);
    MeterGroupsKeys(tid, cfg, m, w, env);
    TransformRows(tid, g, g.order, m, ServiceName(m), w, ts, env);
    BilledRowsSpec(tid, g, g.order, m, ServiceName(m), w, ts, env);
  }

  /** The same for all meters of a window. */
  lemma {:induction false} MetersRows(tid: TenantId, cfg: CollectionConfig, ms: seq<MeterMapping>,
                                      w: Window, ts: Time, env: Env)
    ensures forall u :: u in UsageRowsOf(MetersWrites(tid, cfg, ms, w, ts, env)) ==>
      u.tenantId == tid && u.start == w.start && u.end == w.end && u.volume != 0.0
  {
    if ms != [] {
      var m := ms[|ms| - 1];
      MetersRows(tid, cfg, ms[..|ms| - 1], w, ts, env);
      MeterRows(tid, cfg, m, w, ts, env);
      UsageRowsOfAppend(MetersWrites(tid, cfg, ms[..|ms| - 1], w, ts, env), MeterWrites(tid, cfg, m, w, ts, env));
    }
  }

  /** New usage entries: those past the first `n` of `usage`. */
  function NewRows(usage: seq<UsageRow>, n: nat): seq<UsageRow>
  {
    if n <= |usage| then usage[n..] else []
  }

  /** Committing one window of tenant `tid`: its watermark moves to the
      window's end, every other tenant row, the sales orders and the LastRun
      marker stay as they were, usage entries are only appended, each new one
      for `tid` and exactly this window with a non-zero volume, and resources
      already recorded keep their rows. */
  lemma ApplyWindowSpec(db: DbState, tid: TenantId, cfg: CollectionConfig, w: Window, ts: Time, env: Env)
    requires tid in db.tenants
    ensures var d := ApplyWindow(db, tid, cfg, w, ts, env);
      && d.tenants == db.tenants[tid := db.tenants[tid].(lastCollected := w.end)]
      && d.orders == db.orders && d.lastRun == db.lastRun
      && db.usage <= d.usage
      && (forall u :: u in NewRows(d.usage, |db.usage|) ==>
            u.tenantId == tid && u.start == w.start && u.end == w.end && u.volume != 0.0)
      && (forall k :: k in db.resources ==> k in d.resources && d.resources[k] == db.resources[k])
  {
    var rows := MetersWrites(tid, cfg, cfg.mappings, w, ts, env);
    ApplyAllAppend(db, rows, [WatermarkWrite(tid, w.end)]);
    MetersWritesAreRows(tid, cfg, cfg.mappings, w, ts, env);
    ApplyRowWrites(db, rows);
    ApplyRowWritesUsage(db, rows);
    MetersRows(tid, cfg, cfg.mappings, w, ts, env);
    var d1 := ApplyAll(db, rows);
    assert ApplyAll(d1, [WatermarkWrite(tid, w.end)]) == Apply(d1, WatermarkWrite(tid, w.end));
    assert NewRows(d1.usage, |db.usage|) == UsageRowsOf(rows);
  }

  /** `u` covers exactly one of the windows `ws`. */
  ghost predicate InSomeWindow(u: UsageRow, ws: seq<Window>)
  {
    exists j :: 0 <= j < |ws| && u.start == ws[j].start && u.end == ws[j].end
  }

  /** The watermark after committing `ws` in order: the end of the last one. */
  function LastEnd(ws: seq<Window>, start: Time): Time
  {
    if ws == [] then start else ws[|ws| - 1].end
  }

  /** A row appended by two successive commits was appended by one of them. */
  lemma NewRowsSplit(a: seq<UsageRow>, b: seq<UsageRow>, c: seq<UsageRow>, u: UsageRow)
    requires a <= b <= c
    requires u in NewRows(c, |a|)
    ensures u in NewRows(b, |a|) || u in NewRows(c, |b|)
  {
    var i :| |a| <= i < |c| && c[i] == u;
    if i < |b| {
      assert b[i] == u;
    } else {
      assert NewRows(c, |b|)[i - |b|] == u;
    }
  }

  /** Windows committed in order: a row covering one of the first windows
      covers one of all of them. */
  lemma InSomeWindowPrefix(u: UsageRow, ws: seq<Window>, n: nat)
    requires n <= |ws|
    requires InSomeWindow(u, ws[..n])
    ensures InSomeWindow(u, ws)
  {
    var j :| 0 <= j < n && u.start == ws[..n][j].start && u.end == ws[..n][j].end;
    assert ws[..n][j] == ws[j];
  }

  /** One more window in the induction of `ApplyWindowsSpec`. */
  lemma ApplyWindowsLast(db: DbState, ws: seq<Window>, step: Step)
    requires ws != []
    ensures ApplyWindows(db, ws, step) == step(ApplyWindows(db, ws[..|ws| - 1], step), ws[|ws| - 1])
  {
  }

  /** Committing the windows `ws` of tenant `tid` one after the other moves
      its watermark to the end of the last one and leaves every other table
      row in place, appending usage entries only. */
  lemma {:induction false} ApplyWindowsTables(db: DbState, tid: TenantId, cfg: CollectionConfig, ts: Time, env: Env,
                                              ws: seq<Window>)
    requires tid in db.tenants
    ensures var d := ApplyWindows(db, ws, CommitStep(tid, cfg, ts, env));
      && d.tenants == db.tenants[tid := db.tenants[tid].(lastCollected := LastEnd(ws, db.tenants[tid].lastCollected))]
      && d.orders == db.orders && d.lastRun == db.lastRun
      && db.usage <= d.usage
      && (forall k :: k in db.resources ==> k in d.resources && d.resources[k] == db.resources[k])
  {
    if ws != [] {
      var step := CommitStep(tid, cfg, ts, env);
      var w := ws[|ws| - 1];
      ApplyWindowsTables(db, tid, cfg, ts, env, ws[..|ws| - 1]);
      var d1 := ApplyWindows(db, ws[..|ws| - 1], step);
      ApplyWindowsLast(db, ws, step);
      assert step(d1, w) == ApplyWindow(d1, tid, cfg, w, ts, env);
      ApplyWindowSpec(d1, tid, cfg, w, ts, env);
    }
  }

  /** Every usage entry appended while committing the windows `ws` of tenant
      `tid` belongs to `tid`, has a non-zero volume and covers one of `ws`. */
  lemma {:induction false} ApplyWindowsRows(db: DbState, tid: TenantId, cfg: CollectionConfig, ts: Time, env: Env,
                                            ws: seq<Window>)
    requires tid in db.tenants
    ensures var d := ApplyWindows(db, ws, CommitStep(tid, cfg, ts, env));
      forall u :: u in NewRows(d.usage, |db.usage|) ==> u.tenantId == tid && u.volume != 0.0 && InSomeWindow(u, ws)
  {
    var step := CommitStep(tid, cfg, ts, env);
    if ws == [] {
      assert NewRows(db.usage, |db.usage|) == [];
    } else {
      var n := |ws|;
      var w := ws[n - 1];
      ApplyWindowsRows(db, tid, cfg, ts, env, ws[..n - 1]);
      ApplyWindowsTables(db, tid, cfg, ts, env, ws[..n - 1]);
      var d1 := ApplyWindows(db, ws[..n - 1], step);
      ApplyWindowsLast(db, ws, step);
      assert step(d1, w) == ApplyWindow(d1, tid, cfg, w, ts, env);
      var d := ApplyWindow(d1, tid, cfg, w, ts, env);
      ApplyWindowSpec(d1, tid, cfg, w, ts, env);
      forall u | u in NewRows(d.usage, |db.usage|)
        ensures u.tenantId == tid && u.volume != 0.0 && InSomeWindow(u, ws)
      {
        NewRowsSplit(db.usage, d1.usage, d.usage, u);
        if u in NewRows(d1.usage, |db.usage|) {
          InSomeWindowPrefix(u, ws, n - 1);
        } else {
          assert u.start == ws[n - 1].start && u.end == ws[n - 1].end;
        }
      }
    }
  }

  /** One tenant's cycle, as the state machine of `collect_usage`. With `k`
      the number of windows committed before the first rejected one: the
      watermark ends at the end of the last committed window (unchanged when
      none committed), the cycle reports `k` updated windows and, when it
      stopped early, one failed window and one error; it ran iff `k > 0`.
      Other tenants, sales orders and the LastRun marker are untouched,
      earlier usage entries and resources stay, and every new usage entry
      belongs to the tenant, is non-zero and covers one committed window. */
  lemma CycleOutcome(db: DbState, tenant: TenantInfo, end: Time, cfg: CollectionConfig, ts: Time, env: Env)
    ensures var o := CollectSpec(db, tenant, end, cfg, ts, env);
      var ws := CycleWindows(db, tenant, end, cfg, ts);
      var k := CommittedCount(tenant.id, ws, env.commits);
      var start := StartOf(db, tenant, ts);
      && tenant.id in o.db.tenants
      && o.db.tenants[tenant.id].lastCollected == LastEnd(ws[..k], start)
      && (o.runOnce <==> k > 0)
      && (o.errors == 1 <==> k < |ws|) && (o.errors == 0 <==> k == |ws|)
      && o.reports[..k] == Updated(tenant.id, ws[..k])
      && |o.reports| == (if k < |ws| then k + 1 else k)
      && (k < |ws| ==> o.reports[k] == Report(tenant.id, false, ws[k]))
      && (forall t :: t != tenant.id ==> (t in o.db.tenants <==> t in db.tenants))
      && (forall t :: t != tenant.id && t in db.tenants ==> o.db.tenants[t] == db.tenants[t])
      && o.db.orders == db.orders && o.db.lastRun == db.lastRun
      && db.usage <= o.db.usage
      && (forall r :: r in db.resources ==> r in o.db.resources && o.db.resources[r] == db.resources[r])
      && (forall u :: u in NewRows(o.db.usage, |db.usage|) ==>
            u.tenantId == tenant.id && u.volume != 0.0 && InSomeWindow(u, ws[..k]))
  {
    var db1 := UpsertTenant(db, tenant.id, tenant.name, tenant.description, ts);
    var ws := CycleWindows(db, tenant, end, cfg, ts);
    var k := CommittedCount(tenant.id, ws, env.commits);
    ApplyWindowsTables(db1, tenant.id, cfg, ts, env, ws[..k]);
    ApplyWindowsRows(db1, tenant.id, cfg, ts, env, ws[..k]);
  }

  /** The watermark only moves forward, by whole hours, never past the
      ceiling `end`: after `k` committed windows it is `k` hours after where
      the cycle started. */
  lemma WatermarkAdvance(db: DbState, tenant: TenantInfo, end: Time, cfg: CollectionConfig, ts: Time, env: Env)
    ensures var o := CollectSpec(db, tenant, end, cfg, ts, env);
      var k := CommittedCount(tenant.id, CycleWindows(db, tenant, end, cfg, ts), env.commits);
      var start := StartOf(db, tenant, ts);
      && tenant.id in o.db.tenants
      && o.db.tenants[tenant.id].lastCollected == start + k * HourSeconds
      && (k > 0 ==> o.db.tenants[tenant.id].lastCollected <= end)
  {
    CycleOutcome(db, tenant, end, cfg, ts, env);
    var ws := CycleWindows(db, tenant, end, cfg, ts);
    var k := CommittedCount(tenant.id, ws, env.commits);
    var start := StartOf(db, tenant, ts);
    if k > 0 {
      var all := Windows(start, end);
      assert ws[k - 1] == all[k - 1];
      WindowAt(start, end, k - 1);
    }
  }

  /** The invariant behind exactly-once collection: every usage entry lies
      behind its tenant's watermark. */
  ghost predicate RowsBehindWatermark(db: DbState)
  {
    forall u :: u in db.usage ==> u.tenantId in db.tenants && u.end <= db.tenants[u.tenantId].lastCollected
  }

  /** A usage entry covering one of the first `k` windows of a chain lies
      between the chain's start and the end of its `k`-th window. */
  lemma CommittedRowInRange(u: UsageRow, ws: seq<Window>, start: Time, k: nat)
    requires ChainFrom(ws, start)
    requires 0 < k <= |ws|
    requires InSomeWindow(u, ws[..k])
    ensures start <= u.start && u.end <= ws[k - 1].end
  {
    var j :| 0 <= j < k && u.start == ws[..k][j].start && u.end == ws[..k][j].end;
    assert ws[..k][j] == ws[j];
    ChainMonotone(ws, start, j, k - 1);
  }

  /** The invariant step on its own: a change that moves one tenant's
      watermark forward from `start` to `wm`, keeps every other tenant row,
      and only appends entries of that tenant inside `[start, wm]`. */
  lemma BehindPreserved(db: DbState, d: DbState, tid: TenantId, start: Time, wm: Time)
    requires RowsBehindWatermark(db)
    requires db.usage <= d.usage
    requires tid in d.tenants && d.tenants[tid].lastCollected == wm
    requires tid in db.tenants ==> db.tenants[tid].lastCollected == start
    requires forall t :: t != tid && t in db.tenants ==> t in d.tenants && d.tenants[t] == db.tenants[t]
    requires start <= wm
    requires forall v :: v in NewRows(d.usage, |db.usage|) ==> v.tenantId == tid && start <= v.start && v.end <= wm
    ensures RowsBehindWatermark(d)
    ensures forall u, v :: u in db.usage && v in NewRows(d.usage, |db.usage|) && u.tenantId == v.tenantId ==>
      u.end <= v.start
  {
    forall u | u in d.usage
      ensures u.tenantId in d.tenants && u.end <= d.tenants[u.tenantId].lastCollected
    {
      var i :| 0 <= i < |d.usage| && d.usage[i] == u;
      if i < |db.usage| {
        assert u == db.usage[i];
      } else {
        assert u == NewRows(d.usage, |db.usage|)[i - |db.usage|];
      }
    }
  }

  /** A cycle keeps every usage entry behind its tenant's watermark, and no
      entry it adds overlaps an entry the tenant already had: each new entry
      starts no earlier than every earlier entry of the tenant ends. So no
      hour is collected twice, whatever the cycles before it did. */
  lemma CycleExactlyOnce(db: DbState, tenant: TenantInfo, end: Time, cfg: CollectionConfig, ts: Time, env: Env)
    requires RowsBehindWatermark(db)
    ensures var o := CollectSpec(db, tenant, end, cfg, ts, env);
      && RowsBehindWatermark(o.db)
      && (forall u, v :: u in db.usage && v in NewRows(o.db.usage, |db.usage|) && u.tenantId == v.tenantId ==>
            u.end <= v.start)
  {
    var o := CollectSpec(db, tenant, end, cfg, ts, env);
    var ws := CycleWindows(db, tenant, end, cfg, ts);
    var k := CommittedCount(tenant.id, ws, env.commits);
    var start := StartOf(db, tenant, ts);
    CycleOutcome(db, tenant, end, cfg, ts, env);
    WatermarkAdvance(db, tenant, end, cfg, ts, env);
    var wm := o.db.tenants[tenant.id].lastCollected;
    CappedWindowsChain(start, end, cfg.maxWindows);
    forall v | v in NewRows(o.db.usage, |db.usage|)
      ensures v.tenantId == tenant.id && start <= v.start && v.end <= wm
    {
      CommittedRowInRange(v, ws, start, k);
    }
    BehindPreserved(db, o.db, tenant.id, start, wm);
  }

  /** Idempotence: once a cycle has committed every window up to the
      ceiling (none rejected, none held back by the cap), the next cycle
      with the same ceiling has no window left to collect. */
  lemma SecondCycleIdle(db: DbState, tenant: TenantInfo, end: Time, cfg: CollectionConfig, ts: Time, ts2: Time, env: Env)
    requires var ws := CycleWindows(db, tenant, end, cfg, ts);
      && CommittedCount(tenant.id, ws, env.commits) == |ws|
      && |ws| == |Windows(StartOf(db, tenant, ts), end)|
    ensures CycleWindows(CollectSpec(db, tenant, end, cfg, ts, env).db, tenant, end, cfg, ts2) == []
  {
    var ws := CycleWindows(db, tenant, end, cfg, ts);
    var start := StartOf(db, tenant, ts);
    var o := CollectSpec(db, tenant, end, cfg, ts, env);
    WatermarkAdvance(db, tenant, end, cfg, ts, env);
    CycleOutcome(db, tenant, end, cfg, ts, env);
    WindowsCount(start, end);
    WindowsCount(start + |ws| * HourSeconds, end);
    assert StartOf(o.db, tenant, ts2) == start + |ws| * HourSeconds;
  }

  /** The number of `updated: False` lines in a response. */
  function Failures(rs: seq<Report>): nat
  {
    if rs == [] then 0 else Failures(rs[..|rs| - 1]) + (if rs[|rs| - 1].updated then 0 else 1)
  }

  lemma {:induction false} FailuresAppend(a: seq<Report>, b: seq<Report>)
    ensures Failures(a + b) == Failures(a) + Failures(b)
  {
    if b == [] {
      assert a + b == a;
    } else {
      assert (a + b)[..|a + b| - 1] == a + b[..|b| - 1];
      FailuresAppend(a, b[..|b| - 1]);
    }
  }

  lemma {:induction false} FailuresUpdated(tid: TenantId, ws: seq<Window>)
    ensures Failures(Updated(tid, ws)) == 0
  {
    if ws != [] {
      FailuresUpdated(tid, ws[..|ws| - 1]);
      assert Updated(tid, ws)[..|ws| - 1] == Updated(tid, ws[..|ws| - 1]);
    }
  }

  /** The lines of a cycle that committed `k` of the windows `ws`. */
  lemma OutcomeReports(tid: TenantId, ws: seq<Window>, k: nat, reports: seq<Report>)
    requires k <= |ws|
    requires reports == Updated(tid, ws[..k]) + (if k < |ws| then [Report(tid, false, ws[k])] else [])
    ensures Failures(reports) == (if k < |ws| then 1 else 0)
    ensures k > 0 <==> exists r :: r in reports && r.updated
  {
    var tail := if k < |ws| then [Report(tid, false, ws[k])] else [];
    FailuresAppend(Updated(tid, ws[..k]), tail);
    FailuresUpdated(tid, ws[..k]);
    assert tail != [] ==> tail[..0] == [];
    if k > 0 {
      assert reports[0] in reports && reports[0].updated;
    }
  }

  /** The response lines of one cycle agree with its counters: `errors` is
      the number of `updated: False` lines, and the cycle counts as having
      run exactly when it reported an updated window. */
  lemma CycleReports(db: DbState, tenant: TenantInfo, end: Time, cfg: CollectionConfig, ts: Time, env: Env)
    ensures var o := CollectSpec(db, tenant, end, cfg, ts, env);
      && o.errors == Failures(o.reports)
      && (o.runOnce <==> exists r :: r in o.reports && r.updated)
  {
    var ws := CycleWindows(db, tenant, end, cfg, ts);
    var k := CommittedCount(tenant.id, ws, env.commits);
    OutcomeReports(tenant.id, ws, k, CollectSpec(db, tenant, end, cfg, ts, env).reports);
  }

  /** No cycle moves any tenant's watermark backwards or drops a tenant. */
  lemma CycleWatermarksMonotone(db: DbState, tenant: TenantInfo, end: Time, cfg: CollectionConfig, ts: Time, env: Env)
    ensures var o := CollectSpec(db, tenant, end, cfg, ts, env);
      forall t :: t in db.tenants ==> t in o.db.tenants && db.tenants[t].lastCollected <= o.db.tenants[t].lastCollected
  {
    CycleOutcome(db, tenant, end, cfg, ts, env);
    WatermarkAdvance(db, tenant, end, cfg, ts, env);
  }
}
