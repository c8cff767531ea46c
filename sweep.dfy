/** The collection sweep (`run_usage_collection`): one cycle per tenant
    against a shared response, then the LastRun marker when any tenant made
    progress. */
module Sweep {
  import opened Common
  import opened Windowing
  import opened Store
  import opened Collection
  import opened Cycle

  /** The response, the store and the `run_once` flag after some tenants. */
  datatype SweepOutcome = SweepOutcome(db: DbState, reports: seq<Report>, errors: nat, runOnce: bool)

  /** The tenant loop: each tenant's cycle runs on the store the previous
      one left, and appends to the same response. `clock(i)` is the clock
      reading `collect_usage` takes for the i-th tenant, which stamps that
      tenant's rows. */
  function SweepTenants(db: DbState, tenants: seq<TenantInfo>, end: Time, cfg: CollectionConfig, clock: nat -> Time, env: Env)
    : SweepOutcome
  {
    if tenants == [] then SweepOutcome(db, [], 0, false)
    else
      var prev := SweepTenants(db, tenants[..|tenants| - 1], end, cfg, clock, env);
      var o := CollectSpec(prev.db, tenants[|tenants| - 1], end, cfg, clock(|tenants| - 1), env);
      SweepOutcome(o.db, prev.reports + o.reports, prev.errors + o.errors, prev.runOnce || o.runOnce)
  }

  /** The whole sweep at clock reading `now`: the ceiling is `now` truncated
      to the hour; the LastRun marker is set to it only if some tenant
      committed a window. */
  function SweepSpec(db: DbState, tenants: seq<TenantInfo>, now: Time, cfg: CollectionConfig, clock: nat -> Time, env: Env)
    : SweepOutcome
  {
    var end := FloorHour(now);
    var s := SweepTenants(db, tenants, end, cfg, clock, env);
    if s.runOnce then s.(db := RecordLastRun(s.db, end)) else s
  }

  /** `run_usage_collection`; the i-th tenant's cycle is stamped with
      `clock(i)`. */
  method RunUsageCollection(store: Store, tenants: seq<TenantInfo>, now: Time, cfg: CollectionConfig,
                            clock: nat -> Time, env: Env) returns (resp: SweepResponse)
    requires store.pending == []
    modifies store
    ensures fresh(resp) && store.pending == []
    ensures var s := SweepSpec(old(store.db), tenants, now, cfg, clock, env);
      store.db == s.db && resp.tenants == s.reports && resp.errors == s.errors
  {
    var end := FloorHour(now);
    resp := new SweepResponse();
    var runOnce := false;
    ghost var db0 := store.db;
    for i := 0 to |tenants|
      invariant store.pending == []
      invariant var s := SweepTenants(db0, tenants[..i], end, cfg, clock, env);
        store.db == s.db && resp.tenants == s.reports && resp.errors == s.errors && runOnce == s.runOnce
    {
      ghost var before := SweepTenants(db0, tenants[..i], end, cfg, clock, env);
      var ran := CollectUsage(tenants[i], store, resp, end, cfg, clock(i), env);
      if ran {
        runOnce := true;
      }
      SweepStep(db0, tenants, i, end, cfg, clock, env, before,
                CollectSpec(before.db, tenants[i], end, cfg, clock(i), env));
    }
    assert tenants[..|tenants|] == tenants;
    if runOnce {
      store.UpsertLastRun(end);
    }
  }

  lemma SweepStep(db: DbState, tenants: seq<TenantInfo>, i: nat, end: Time, cfg: CollectionConfig, clock: nat -> Time, env: Env,
                  before: SweepOutcome, o: TenantOutcome)
    requires i < |tenants|
    requires before == SweepTenants(db, tenants[..i], end, cfg, clock, env)
    requires o == CollectSpec(before.db, tenants[i], end, cfg, clock(i), env)
    ensures SweepTenants(db, tenants[..i + 1], end, cfg, clock, env)
      == SweepOutcome(o.db, before.reports + o.reports, before.errors + o.errors, before.runOnce || o.runOnce)
  {
    assert tenants[..i + 1][..i] == tenants[..i];
  }

  /** The tenant loop touches neither the sales orders nor the LastRun
      marker, only appends usage entries, keeps every tenant, and moves no
      watermark backwards. */
  lemma {:induction false} SweepTenantsTables(db: DbState, tenants: seq<TenantInfo>, end: Time, cfg: CollectionConfig,
                                              clock: nat -> Time, env: Env)
    ensures var s := SweepTenants(db, tenants, end, cfg, clock, env);
      && s.db.lastRun == db.lastRun && s.db.orders == db.orders
      && db.usage <= s.db.usage
      && (forall t :: t in db.tenants ==>
            t in s.db.tenants && db.tenants[t].lastCollected <= s.db.tenants[t].lastCollected)
  {
    if tenants != [] {
      var prev := SweepTenants(db, tenants[..|tenants| - 1], end, cfg, clock, env);
      SweepTenantsTables(db, tenants[..|tenants| - 1], end, cfg, clock, env);
      CycleOutcome(prev.db, tenants[|tenants| - 1], end, cfg, clock(|tenants| - 1), env);
      CycleWatermarksMonotone(prev.db, tenants[|tenants| - 1], end, cfg, clock(|tenants| - 1), env);
    }
  }

  /** The response of the tenant loop agrees with its counters: `errors`
      counts the `updated: False` lines, and `run_once` holds exactly when
      some line reports an updated window. */
  lemma {:induction false} SweepTenantsCounters(db: DbState, tenants: seq<TenantInfo>, end: Time, cfg: CollectionConfig,
                                                clock: nat -> Time, env: Env)
    ensures var s := SweepTenants(db, tenants, end, cfg, clock, env);
      && s.errors == Failures(s.reports)
      && (s.runOnce <==> exists r :: r in s.reports && r.updated)
  {
    if tenants != [] {
      var prev := SweepTenants(db, tenants[..|tenants| - 1], end, cfg, clock, env);
      var o := CollectSpec(prev.db, tenants[|tenants| - 1], end, cfg, clock(|tenants| - 1), env);
      SweepTenantsCounters(db, tenants[..|tenants| - 1], end, cfg, clock, env);
      CycleReports(prev.db, tenants[|tenants| - 1], end, cfg, clock(|tenants| - 1), env);
      FailuresAppend(prev.reports, o.reports);
      var all := prev.reports + o.reports;
      if exists r :: r in all && r.updated {
        var r :| r in all && r.updated;
        assert r in prev.reports || r in o.reports;
      }
    }
  }

  /** Exactly-once across a whole sweep: every usage entry stays behind its
      tenant's watermark. */
  lemma {:induction false} SweepTenantsExactlyOnce(db: DbState, tenants: seq<TenantInfo>, end: Time,
                                                   cfg: CollectionConfig, clock: nat -> Time, env: Env)
    requires RowsBehindWatermark(db)
    ensures RowsBehindWatermark(SweepTenants(db, tenants, end, cfg, clock, env).db)
  {
    if tenants != [] {
      var prev := SweepTenants(db, tenants[..|tenants| - 1], end, cfg, clock, env);
      SweepTenantsExactlyOnce(db, tenants[..|tenants| - 1], end, cfg, clock, env);
      CycleExactlyOnce(prev.db, tenants[|tenants| - 1], end, cfg, clock(|tenants| - 1), env);
    }
  }

  /** The LastRun marker after a sweep: it stays at most one row; when a
      tenant committed a window it holds the hour-truncated clock reading and
      `get_last_collected` reads that back; otherwise it is untouched. The
      usage invariant survives the whole sweep. */
  lemma SweepLastRun(db: DbState, tenants: seq<TenantInfo>, now: Time, cfg: CollectionConfig, clock: nat -> Time, env: Env)
    requires |db.lastRun| <= 1
    ensures var s := SweepSpec(db, tenants, now, cfg, clock, env);
      && |s.db.lastRun| <= 1
      && (s.runOnce ==> s.db.lastRun == [FloorHour(now)] && LastCollected(s.db) == FloorHour(now))
      && (!s.runOnce ==> s.db.lastRun == db.lastRun && LastCollected(s.db) == LastCollected(db))
      && (RowsBehindWatermark(db) ==> RowsBehindWatermark(s.db))
  {
    var end := FloorHour(now);
    var s := SweepTenants(db, tenants, end, cfg, clock, env);
    SweepTenantsTables(db, tenants, end, cfg, clock, env);
    if s.runOnce {
      RecordLastRunSpec(s.db, end);
    }
    if RowsBehindWatermark(db) {
      SweepTenantsExactlyOnce(db, tenants, end, cfg, clock, env);
    }
  }
}
