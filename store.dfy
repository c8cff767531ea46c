/** The relational store behind the service, reduced to the rows the core
    reads and writes, and the session through which it writes them: writes
    are staged and reach the store only when the transaction commits. */
module Store {
  import opened Common
  import opened Grouping

  datatype TenantRow = TenantRow(name: string, description: string, lastCollected: Time, created: Time)

  /** A resource keeps the sample it was first seen with (its metadata
      source) and the metadata definition of the meter that saw it. */
  datatype ResourceRow = ResourceRow(resourceType: string, created: Time, metadataSource: Sample, metadataDef: string)

  /** A usage entry: billable volume of one service of one resource over `[start, end)`. */
  datatype UsageRow = UsageRow(
    tenantId: TenantId, resourceId: ResourceId, service: string,
    volume: real, unit: string, start: Time, end: Time, created: Time)

  datatype SalesOrderRow = SalesOrderRow(tenantId: TenantId, start: Time, end: Time)

  /** The committed content of the tables Tenant, Resource, UsageEntry,
      SalesOrder and LastRun. */
  datatype DbState = DbState(
    tenants: map<TenantId, TenantRow>,
    resources: map<(TenantId, ResourceId), ResourceRow>,
    usage: seq<UsageRow>,
    orders: seq<SalesOrderRow>,
    lastRun: seq<Time>)

  const EmptyDb: DbState := DbState(map[], map[], [], [], [])

  /** A write staged in the session until commit. */
  datatype Write =
    | ResourceWrite(tenantId: TenantId, resourceId: ResourceId, resource: ResourceRow)
    | UsageWrite(row: UsageRow)
    | WatermarkWrite(tenantId: TenantId, at: Time)
    | OrderWrite(order: SalesOrderRow)

  /** The effect of one write at commit. A resource is recorded the first
      time it is seen and left as it is afterwards. */
  function Apply(db: DbState, w: Write): DbState
  {
    match w
    case ResourceWrite(t, r, row) =>
      if (t, r) in db.resources then db else db.(resources := db.resources[(t, r) := row])
    case UsageWrite(row) => db.(usage := db.usage + [row])
    case WatermarkWrite(t, at) =>
      if t in db.tenants then db.(tenants := db.tenants[t := db.tenants[t].(lastCollected := at)]) else db
    case OrderWrite(o) => db.(orders := db.orders + [o])
  }

  function ApplyAll(db: DbState, ws: seq<Write>): DbState
  {
    if ws == [] then db else Apply(ApplyAll(db, ws[..|ws| - 1]), ws[|ws| - 1])
  }

  lemma {:induction false} ApplyAllAppend(db: DbState, a: seq<Write>, b: seq<Write>)
    ensures ApplyAll(db, a + b) == ApplyAll(ApplyAll(db, a), b)
  {
    if b == [] {
      assert a + b == a;
    } else {
      assert (a + b)[..|a + b| - 1] == a + b[..|b| - 1];
      ApplyAllAppend(db, a, b[..|b| - 1]);
    }
  }

  /** Writes that do not touch the Tenant and SalesOrder tables. */
  predicate RowWrite(w: Write)
  {
    w.ResourceWrite? || w.UsageWrite?
  }

  /** Committing resource and usage writes only appends: tenants, orders and
      the LastRun marker are untouched, earlier usage rows stay in place,
      and a resource already present keeps its row. */
  lemma {:induction false} ApplyRowWrites(db: DbState, ws: seq<Write>)
    requires forall w :: w in ws ==> RowWrite(w)
    ensures var db' := ApplyAll(db, ws);
      && db'.tenants == db.tenants && db'.orders == db.orders && db'.lastRun == db.lastRun
      && db.usage <= db'.usage
      && |db'.usage| == |db.usage| + |Filter(ws, (w: Write) => w.UsageWrite?)|
      && (forall k :: k in db.resources ==> k in db'.resources && db'.resources[k] == db.resources[k])
  {
    if ws != [] {
      assert ws[|ws| - 1] in ws;
      ApplyRowWrites(db, ws[..|ws| - 1]);
    }
  }

  /** The `tenant` upsert of the collection run: a tenant seen for the first
      time starts with its watermark at `dawn_of_time`; a known tenant keeps
      its row. */
  function UpsertTenant(db: DbState, id: TenantId, name: string, description: string, timestamp: Time): (r: DbState)
    ensures id in r.tenants
    ensures id in db.tenants ==> r == db
    ensures id !in db.tenants ==> r.tenants[id].lastCollected == DawnOfTime
    ensures r.usage == db.usage && r.orders == db.orders && r.resources == db.resources && r.lastRun == db.lastRun
    ensures forall t :: t != id ==> (t in r.tenants <==> t in db.tenants)
    ensures forall t :: t != id && t in db.tenants ==> r.tenants[t] == db.tenants[t]
  {
    if id in db.tenants then db
    else db.(tenants := db.tenants[id := TenantRow(name, description, DawnOfTime, timestamp)])
  }

  /** `get_last_collected`: the LastRun row, or `dawn_of_time` when none exists. */
  function LastCollected(db: DbState): (t: Time)
    ensures t == DawnOfTime || t in db.lastRun
    ensures db.lastRun == [] ==> t == DawnOfTime
    ensures |db.lastRun| == 1 ==> db.lastRun == [t]
  {
    if |db.lastRun| == 0 then DawnOfTime else db.lastRun[0]
  }

  /** A store that never completed a collection reports `dawn_of_time`. */
  lemma LastCollectedDefault()
    ensures LastCollected(EmptyDb) == DawnOfTime
  {
  }

  /** The LastRun upsert of the collection sweep: insert a row when there is
      none, otherwise overwrite the first one. */
  function RecordLastRun(db: DbState, end: Time): DbState
  {
    if |db.lastRun| == 0 then db.(lastRun := [end]) else db.(lastRun := db.lastRun[0 := end])
  }

  /** The marker table never grows past one row, and reading it back gives
      the recorded ceiling; nothing else changes. */
  lemma RecordLastRunSpec(db: DbState, end: Time)
    requires |db.lastRun| <= 1
    ensures RecordLastRun(db, end).lastRun == [end]
    ensures LastCollected(RecordLastRun(db, end)) == end
    ensures RecordLastRun(db, end).(lastRun := db.lastRun) == db
  {
  }

  /** A session bound to the store. */
  class Store {
    var db: DbState
    var pending: seq<Write>

    constructor ()
      ensures db == EmptyDb && pending == []
    {
      db := EmptyDb;
      pending := [];
    }

    /** `insert_tenant` followed by `session.commit()`. */
    method InsertTenant(id: TenantId, name: string, description: string, timestamp: Time)
      returns (row: TenantRow)
      requires pending == []
      modifies this
      ensures db == UpsertTenant(old(db), id, name, description, timestamp) && pending == []
      ensures row == db.tenants[id]
    {
      db := UpsertTenant(db, id, name, description, timestamp);
      row := db.tenants[id];
    }

    /** `insert_resource`, staged until commit. */
    method InsertResource(tenantId: TenantId, resourceId: ResourceId, resourceType: string,
                          timestamp: Time, source: Sample, metadataDef: string)
      modifies this`pending
      ensures pending == old(pending) + [ResourceWrite(tenantId, resourceId, ResourceRow(resourceType, timestamp, source, metadataDef))]
    {
      pending := pending + [ResourceWrite(tenantId, resourceId, ResourceRow(resourceType, timestamp, source, metadataDef))];
    }

    /** `insert_usage`, staged until commit. */
    method InsertUsage(tenantId: TenantId, resourceId: ResourceId, volume: real, unit: string,
                       service: string, start: Time, end: Time, timestamp: Time)
      modifies this`pending
      ensures pending == old(pending) + [UsageWrite(UsageRow(tenantId, resourceId, service, volume, unit, start, end, timestamp))]
    {
      pending := pending + [UsageWrite(UsageRow(tenantId, resourceId, service, volume, unit, start, end, timestamp))];
    }

    /** `db_tenant.last_collected = t; session.add(db_tenant)`. */
    method SetWatermark(tenantId: TenantId, t: Time)
      modifies this`pending
      ensures pending == old(pending) + [WatermarkWrite(tenantId, t)]
    {
      pending := pending + [WatermarkWrite(tenantId, t)];
    }

    /** `session.add(SalesOrder(...))`. */
    method AddOrder(order: SalesOrderRow)
      modifies this`pending
      ensures pending == old(pending) + [OrderWrite(order)]
    {
      pending := pending + [OrderWrite(order)];
    }

    /** The LastRun upsert of the sweep, committed on its own: a new row when
        the table is empty, otherwise the first row overwritten. */
    method UpsertLastRun(end: Time)
      requires pending == []
      modifies this
      ensures db == RecordLastRun(old(db), end) && pending == []
    {
      if |db.lastRun| == 0 {
        db := db.(lastRun := [end]);
      } else {
        db := db.(lastRun := db.lastRun[0 := end]);
      }
    }

    /** Ends the transaction. `succeeds` is the store's verdict: false stands
        for an IntegrityError or OperationalError, after which the session is
        rolled back and every staged write is discarded. */
    method Commit(succeeds: bool) returns (committed: bool)
      modifies this
      ensures committed == succeeds && pending == []
      ensures db == if succeeds then ApplyAll(old(db), old(pending)) else old(db)
    {
      if succeeds {
        db := ApplyAll(db, pending);
      }
      pending := [];
      committed := succeeds;
    }
  }
}
