/** Sales orders: the priced statement of a tenant over a range of time.
    `generate_sales_order` claims the next range after the tenant's last
    order and bills it; `regenerate_sales_order` and
    `regenerate_sales_order_range` re-bill stored orders without writing. */
module SalesOrders {
  import opened Common
  import opened Store
  import opened Billing
  import opened Pricing

  /** `db.usage(start, end, tenant_id)`: the aggregated usage entries of a
      tenant over `[start, end)`, read from the UsageEntry table. */
  type UsageQuery = (seq<UsageRow>, TenantId, Time, Time) -> seq<Entry>

  /** The responses of the sales-order surfaces. */
  datatype SalesResponse =
    | Bill(doc: Doc)                          // 200 and the priced document
    | Bills(docs: seq<Doc>)                   // 200 and a list of documents
    | UnknownTenant(tenantId: TenantId)       // the tenant validation's refusal
    | Rejected(errors: seq<string>)           // 400 {"errors": [...]}
    | Overlap(tenantId: TenantId, error: string)  // 400 {"id": ..., "error": ...}
  {
    function Status(): int
    {
      if Bill? || Bills? then 200 else 400
    }
  }

  const EndNotAfterStart: string := "end date must be greater than the end of the last sales order range."
  const EndInFuture: string := "end date cannot be a future date."
  const OverlapError: string := "IntegrityError, existing sales_order overlap."
  const DateNotInOrders: string := "Given date not in existing sales orders."

  /** The sales orders of tenant `t`, in the order they were stored. */
  function TenantOrders(orders: seq<SalesOrderRow>, t: TenantId): (r: seq<SalesOrderRow>)
    ensures forall o :: o in r <==> o in orders && o.tenantId == t
  {
    if orders == [] then []
    else
      var last := orders[|orders| - 1];
      TenantOrders(orders[..|orders| - 1], t) + (if last.tenantId == t then [last] else [])
  }

  /** `max(SalesOrder.end)`: `None` when there is no order. */
  function MaxEnd(s: seq<SalesOrderRow>): (m: Option<Time>)
    ensures m.None? <==> s == []
    ensures m.Some? ==> exists i :: 0 <= i < |s| && s[i].end == m.value
    ensures m.Some? ==> forall i :: 0 <= i < |s| ==> s[i].end <= m.value
  {
    if s == [] then None
    else
      var last := s[|s| - 1].end;
      var m := MaxEnd(s[..|s| - 1]);
      if m.Some? && m.value > last then m else Some(last)
  }

  /** Where the tenant's next sales order starts: the latest end among its
      orders, or `dawn_of_time` when it has none. */
  function NextStart(orders: seq<SalesOrderRow>, t: TenantId): Time
  {
    MaxEnd(TenantOrders(orders, t)).GetOr(DawnOfTime)
  }

  /** The orders of one tenant form a chain from `dawn_of_time`: each is a
      non-empty range and starts where the one before it ended. */
  ghost predicate Chain(s: seq<SalesOrderRow>)
  {
    && (|s| > 0 ==> s[0].start == DawnOfTime)
    && (forall i :: 0 <= i < |s| ==> s[i].start < s[i].end)
    && (forall i :: 0 < i < |s| ==> s[i].start == s[i - 1].end)
  }

  /** Every tenant's orders form a chain. */
  ghost predicate Chained(orders: seq<SalesOrderRow>)
  {
    forall t :: Chain(TenantOrders(orders, t))
  }

  /** The tenant's document over `[start, end)`: `build_tenant_dict` over the
      stored usage, `add_costs_for_tenant`, then the range. */
  function BillDoc(db: DbState, t: TenantId, start: Time, end: Time, query: UsageQuery,
                   metadata: ResourceId -> Metadata, rates: Rates, convert: Convert): Doc
    requires t in db.tenants
  {
    var entries := query(db.usage, t, start, end);
    BuildDocPriceable(db.tenants[t].name, t, entries, metadata);
    PriceDoc(BuildDoc(db.tenants[t].name, t, entries, metadata), rates, convert).(start := Some(start), end := Some(end))
  }

  /** The response of `generate_sales_order` and the store after it. */
  datatype Generated = Generated(resp: SalesResponse, db: DbState)

  /** `generate_sales_order`. `commits` is the store's verdict on the commit;
      in draft mode nothing is staged, so the commit writes nothing. */
  function GenerateSpec(db: DbState, draft: bool, t: TenantId, end: Time, now: Time, query: UsageQuery,
                        metadata: ResourceId -> Metadata, rates: Rates, convert: Convert, commits: bool): Generated
  {
    if t !in db.tenants then Generated(UnknownTenant(t), db)
    else
      var start := NextStart(db.orders, t);
      if end <= start then Generated(Rejected([EndNotAfterStart]), db)
      else if end > now then Generated(Rejected([EndInFuture]), db)
      else if !commits then Generated(Overlap(t, OverlapError), db)
      else
        var db' := if draft then db else db.(orders := db.orders + [SalesOrderRow(t, start, end)]);
        Generated(Bill(BillDoc(db, t, start, end, query, metadata, rates, convert)), db')
  }

  /** `build_tenant_dict` followed by `add_costs_for_tenant`. */
  method PricedTenantDict(name: string, t: TenantId, entries: seq<Entry>,
                          metadata: ResourceId -> Metadata, rates: Rates, convert: Convert)
    returns (doc: TenantDoc)
    ensures fresh(doc)
    ensures Priceable(BuildDoc(name, t, entries, metadata))
    ensures doc.Value() == PriceDoc(BuildDoc(name, t, entries, metadata), rates, convert)
  {
    var lookups;
    doc, lookups := BuildTenantDict(name, t, entries, metadata);
    BuildDocPriceable(name, t, entries, metadata);
    AddCostsForTenant(doc, rates, convert);
  }

  /** The block `generate_sales_order` and both `regenerate_*` functions
      share: build the tenant dictionary, price it, attach the range. */
  method MakeBill(db: DbState, t: TenantId, start: Time, end: Time, query: UsageQuery,
                  metadata: ResourceId -> Metadata, rates: Rates, convert: Convert)
    returns (d: Doc)
    requires t in db.tenants
    ensures d == BillDoc(db, t, start, end, query, metadata, rates, convert)
  {
    var entries := query(db.usage, t, start, end);
    var doc := PricedTenantDict(db.tenants[t].name, t, entries, metadata, rates, convert);
    doc.start := Some(start);
    doc.end := Some(end);
    d := doc.Value();
  }

  /** `generate_sales_order`: validates the tenant and the requested end,
      then, unless `draft`, stores the order `[start, end)` and commits it
      before the document is priced. */
  method GenerateSalesOrder(store: Store, draft: bool, t: TenantId, end: Time, now: Time, query: UsageQuery,
                            metadata: ResourceId -> Metadata, rates: Rates, convert: Convert, commits: bool)
    returns (resp: SalesResponse)
    requires store.pending == []
    modifies store
    ensures store.pending == []
    ensures var g := GenerateSpec(old(store.db), draft, t, end, now, query, metadata, rates, convert, commits);
      resp == g.resp && store.db == g.db
  {
    if t !in store.db.tenants {
      return UnknownTenant(t);
    }
    var start := NextStart(store.db.orders, t);
    if end <= start {
      return Rejected([EndNotAfterStart]);
    }
    if end > now {
      return Rejected([EndInFuture]);
    }
    var db0 := store.db;
    if !draft {
      store.AddOrder(SalesOrderRow(t, start, end));
    }
    var ok := store.Commit(commits);
    if !ok {
      return Overlap(t, OverlapError);
    }
    var d := MakeBill(db0, t, start, end, query, metadata, rates, convert);
    resp := Bill(d);
  }

  /** The orders of `s` whose range `[o.start, o.end)` meets the instants
      from `start` to `end`, in stored order (`db.get_sales_orders`). */
  function Within(s: seq<SalesOrderRow>, start: Time, end: Time): (r: seq<SalesOrderRow>)
    ensures forall o :: o in r <==> o in s && o.start <= end && start < o.end
  {
    if s == [] then []
    else
      var last := s[|s| - 1];
      Within(s[..|s| - 1], start, end) + (if last.start <= end && start < last.end then [last] else [])
  }

  /** `regenerate_sales_order`: the bill of the first stored order of the
      tenant that contains `target`. */
  function RegenerateSpec(db: DbState, t: TenantId, target: Time, query: UsageQuery,
                          metadata: ResourceId -> Metadata, rates: Rates, convert: Convert): SalesResponse
  {
    if t !in db.tenants then UnknownTenant(t)
    else
      var found := Within(TenantOrders(db.orders, t), target, target);
      if found == [] then Rejected([DateNotInOrders])
      else Bill(BillDoc(db, t, found[0].start, found[0].end, query, metadata, rates, convert))
  }

  /** `regenerate_sales_order`; it only reads the store. */
  method RegenerateSalesOrder(db: DbState, t: TenantId, target: Time, query: UsageQuery,
                              metadata: ResourceId -> Metadata, rates: Rates, convert: Convert)
    returns (resp: SalesResponse)
    ensures resp == RegenerateSpec(db, t, target, query, metadata, rates, convert)
  {
    if t !in db.tenants {
      return UnknownTenant(t);
    }
    var found := Within(TenantOrders(db.orders, t), target, target);
    if found == [] {
      return Rejected([DateNotInOrders]);
    }
    var d := MakeBill(db, t, found[0].start, found[0].end, query, metadata, rates, convert);
    resp := Bill(d);
  }

  /** The bills of some orders, in order. */
  function BillsFor(db: DbState, t: TenantId, os: seq<SalesOrderRow>, query: UsageQuery,
                    metadata: ResourceId -> Metadata, rates: Rates, convert: Convert): (r: seq<Doc>)
    requires t in db.tenants
    ensures |r| == |os|
    ensures forall i :: 0 <= i < |os| ==>
      r[i] == BillDoc(db, t, os[i].start, os[i].end, query, metadata, rates, convert)
  {
    if os == [] then []
    else
      var last := os[|os| - 1];
      BillsFor(db, t, os[..|os| - 1], query, metadata, rates, convert)
        + [BillDoc(db, t, last.start, last.end, query, metadata, rates, convert)]
  }

  lemma BillsForStep(db: DbState, t: TenantId, os: seq<SalesOrderRow>, i: int, query: UsageQuery,
                     metadata: ResourceId -> Metadata, rates: Rates, convert: Convert)
    requires t in db.tenants && 0 <= i < |os|
    ensures BillsFor(db, t, os[..i + 1], query, metadata, rates, convert)
      == BillsFor(db, t, os[..i], query, metadata, rates, convert)
        + [BillDoc(db, t, os[i].start, os[i].end, query, metadata, rates, convert)]
  {
    assert os[..i + 1][..i] == os[..i];
  }

  /** `regenerate_sales_order_range`. */
  function RegenerateRangeSpec(db: DbState, t: TenantId, start: Time, end: Time, query: UsageQuery,
                               metadata: ResourceId -> Metadata, rates: Rates, convert: Convert): SalesResponse
  {
    if t !in db.tenants then UnknownTenant(t)
    else Bills(BillsFor(db, t, Within(TenantOrders(db.orders, t), start, end), query, metadata, rates, convert))
  }

  /** `regenerate_sales_order_range`: one bill per stored order of the
      tenant meeting `[start, end]`; it only reads the store. */
  method RegenerateSalesOrderRange(db: DbState, t: TenantId, start: Time, end: Time, query: UsageQuery,
                                   metadata: ResourceId -> Metadata, rates: Rates, convert: Convert)
    returns (resp: SalesResponse)
    ensures resp == RegenerateRangeSpec(db, t, start, end, query, metadata, rates, convert)
  {
    if t !in db.tenants {
      return UnknownTenant(t);
    }
    var orders := Within(TenantOrders(db.orders, t), start, end);
    var docs: seq<Doc> := [];
    for i := 0 to |orders|
      invariant docs == BillsFor(db, t, orders[..i], query, metadata, rates, convert)
    {
      var d := MakeBill(db, t, orders[i].start, orders[i].end, query, metadata, rates, convert);
      BillsForStep(db, t, orders, i, query, metadata, rates, convert);
      docs := docs + [d];
    }
    assert orders[..|orders|] == orders;
    resp := Bills(docs);
  }

  // ---------------------------------------------------------------------
  // Properties

  /** What `generate_sales_order` does to the store and what it answers:
      a bill exactly when the tenant exists, the end lies after the
      tenant's next start and not after now, and the commit succeeds; the
      bill covers `[start, end)`; only a committed, non-draft bill stores
      anything, and then exactly the order `[start, end)`. */
  lemma GenerateOutcome(db: DbState, draft: bool, t: TenantId, end: Time, now: Time, query: UsageQuery,
                        metadata: ResourceId -> Metadata, rates: Rates, convert: Convert, commits: bool)
    ensures var g := GenerateSpec(db, draft, t, end, now, query, metadata, rates, convert, commits);
      var start := NextStart(db.orders, t);
      && (g.resp.Bill? <==> t in db.tenants && start < end <= now && commits)
      && (t in db.tenants && end <= start ==> g.resp == Rejected([EndNotAfterStart]))
      && (t in db.tenants && start < end && end > now ==> g.resp == Rejected([EndInFuture]))
      && (g.resp.Status() == 400 ==> g.db == db)
      && (draft ==> g.db == db)
      && (g.resp.Bill? ==> g.resp.doc.start == Some(start) && g.resp.doc.end == Some(end))
      && (g.resp.Bill? && !draft ==> g.db == db.(orders := db.orders + [SalesOrderRow(t, start, end)]))
  {
  }

  lemma TenantOrdersSnoc(orders: seq<SalesOrderRow>, o: SalesOrderRow, t: TenantId)
    ensures TenantOrders(orders + [o], t) == TenantOrders(orders, t) + (if o.tenantId == t then [o] else [])
  {
    assert (orders + [o])[..|orders|] == orders;
  }

  /** In a chain the last order ends latest. */
  lemma {:induction false} ChainMaxEnd(s: seq<SalesOrderRow>)
    requires Chain(s) && s != []
    ensures MaxEnd(s) == Some(s[|s| - 1].end)
  {
    var n := |s|;
    if n > 1 {
      var prefix := s[..n - 1];
      assert Chain(prefix);
      ChainMaxEnd(prefix);
      assert s[n - 2].end == s[n - 1].start < s[n - 1].end;
    }
  }

  /** The tenant's next start continues its chain. */
  lemma ChainNextStart(orders: seq<SalesOrderRow>, t: TenantId)
    requires Chain(TenantOrders(orders, t))
    ensures var s := TenantOrders(orders, t);
      NextStart(orders, t) == if s == [] then DawnOfTime else s[|s| - 1].end
  {
    var s := TenantOrders(orders, t);
    if s != [] {
      ChainMaxEnd(s);
    }
  }

  /** Appending a range that starts where the chain ends keeps a chain. */
  lemma ChainExtend(s: seq<SalesOrderRow>, o: SalesOrderRow)
    requires Chain(s)
    requires o.start == (if s == [] then DawnOfTime else s[|s| - 1].end)
    requires o.start < o.end
    ensures Chain(s + [o])
  {
  }

  /** Storing the order `[NextStart, end)` of tenant `t`, with `end` after
      `NextStart`, keeps every tenant's orders a chain. */
  lemma {:induction false} AppendKeepsChain(orders: seq<SalesOrderRow>, t: TenantId, end: Time, u: TenantId)
    requires Chain(TenantOrders(orders, u))
    requires NextStart(orders, t) < end
    ensures Chain(TenantOrders(orders + [SalesOrderRow(t, NextStart(orders, t), end)], u))
  {
    var o := SalesOrderRow(t, NextStart(orders, t), end);
    TenantOrdersSnoc(orders, o, u);
    if u == t {
      ChainNextStart(orders, t);
      ChainExtend(TenantOrders(orders, t), o);
    }
  }

  /** Every tenant's sales orders stay a contiguous chain from
      `dawn_of_time` through `generate_sales_order`, whatever its outcome. */
  lemma GenerateKeepsChain(db: DbState, draft: bool, t: TenantId, end: Time, now: Time, query: UsageQuery,
                           metadata: ResourceId -> Metadata, rates: Rates, convert: Convert, commits: bool)
    requires Chained(db.orders)
    ensures Chained(GenerateSpec(db, draft, t, end, now, query, metadata, rates, convert, commits).db.orders)
  {
    var g := GenerateSpec(db, draft, t, end, now, query, metadata, rates, convert, commits);
    GenerateOutcome(db, draft, t, end, now, query, metadata, rates, convert, commits);
    if g.db != db {
      forall u
        ensures Chain(TenantOrders(g.db.orders, u))
      {
        AppendKeepsChain(db.orders, t, end, u);
      }
    }
  }

  /** In a chain, an order ends no later than any later one starts: stored
      orders never overlap. */
  lemma {:induction false} ChainDisjoint(s: seq<SalesOrderRow>)
    requires Chain(s)
    ensures forall i, j :: 0 <= i < j < |s| ==> s[i].end <= s[j].start
  {
    if |s| > 1 {
      var n := |s|;
      var prefix := s[..n - 1];
      assert Chain(prefix);
      ChainDisjoint(prefix);
      forall i | 0 <= i < n - 1
        ensures s[i].end <= s[n - 1].start
      {
        if i < n - 2 {
          assert prefix[i].end <= prefix[n - 2].start;
        }
      }
    }
  }

  /** No order of `s` contains an instant at or after all their ends. */
  lemma {:induction false} WithinNone(s: seq<SalesOrderRow>, x: Time)
    requires forall i :: 0 <= i < |s| ==> s[i].end <= x
    ensures Within(s, x, x) == []
  {
    if s != [] {
      WithinNone(s[..|s| - 1], x);
    }
  }

  /** At most one order of a chain contains a given instant, so the order
      `regenerate_sales_order` picks is the only candidate. */
  lemma {:induction false} ChainContainsOnce(s: seq<SalesOrderRow>, x: Time)
    requires Chain(s)
    ensures |Within(s, x, x)| <= 1
  {
    if s != [] {
      var n := |s|;
      var prefix := s[..n - 1];
      var last := s[n - 1];
      assert Chain(prefix);
      if last.start <= x < last.end {
        ChainDisjoint(s);
        assert forall i :: 0 <= i < |prefix| ==> prefix[i].end <= x by {
          assert forall i :: 0 <= i < |prefix| ==> prefix[i] == s[i];
        }
        WithinNone(prefix, x);
      } else {
        ChainContainsOnce(prefix, x);
      }
    }
  }

  /** When the tenant's chain has an order containing `target`,
      `regenerate_sales_order` bills exactly that order's range. */
  lemma RegenerateFindsContaining(db: DbState, t: TenantId, target: Time, o: SalesOrderRow, query: UsageQuery,
                                  metadata: ResourceId -> Metadata, rates: Rates, convert: Convert)
    requires t in db.tenants
    requires Chain(TenantOrders(db.orders, t))
    requires o in db.orders && o.tenantId == t && o.start <= target < o.end
    ensures RegenerateSpec(db, t, target, query, metadata, rates, convert)
      == Bill(BillDoc(db, t, o.start, o.end, query, metadata, rates, convert))
  {
    ContainingAlone(TenantOrders(db.orders, t), o, target);
  }

  /** The order of a chain containing `x` is the only one found for `x`. */
  lemma ContainingAlone(s: seq<SalesOrderRow>, o: SalesOrderRow, x: Time)
    requires Chain(s)
    requires o in s && o.start <= x < o.end
    ensures Within(s, x, x) == [o]
  {
    ChainContainsOnce(s, x);
    assert o in Within(s, x, x);
  }

  /** After storing the order `[NextStart, end)` of tenant `t`, it is the
      only order of `t` containing any instant of its range. */
  lemma {:induction false} NewOrderContainsAlone(orders: seq<SalesOrderRow>, t: TenantId, end: Time, target: Time)
    requires NextStart(orders, t) <= target < end
    ensures var o := SalesOrderRow(t, NextStart(orders, t), end);
      Within(TenantOrders(orders + [o], t), target, target) == [o]
  {
    var o := SalesOrderRow(t, NextStart(orders, t), end);
    var prev := TenantOrders(orders, t);
    TenantOrdersSnoc(orders, o, t);
    EndsBeforeNext(orders, t);
    WithinNone(prev, target);
    WithinSnoc(prev, o, target);
  }

  /** Every order of the tenant ends no later than its next start. */
  lemma EndsBeforeNext(orders: seq<SalesOrderRow>, t: TenantId)
    ensures var s := TenantOrders(orders, t);
      forall i :: 0 <= i < |s| ==> s[i].end <= NextStart(orders, t)
  {
  }

  /** The orders containing `x`, one order further on. */
  lemma WithinSnoc(s: seq<SalesOrderRow>, o: SalesOrderRow, x: Time)
    ensures Within(s + [o], x, x) == Within(s, x, x) + (if o.start <= x < o.end then [o] else [])
  {
    assert (s + [o])[..|s|] == s;
  }

  /** Re-deriving a freshly committed order, at any instant of its range,
      reproduces the bill `generate_sales_order` returned: the new order is
      the only one of the tenant containing that instant, and the usage it
      is priced from is unchanged. */
  lemma RegenerateReproduces(db: DbState, t: TenantId, end: Time, now: Time, target: Time, query: UsageQuery,
                             metadata: ResourceId -> Metadata, rates: Rates, convert: Convert)
    requires GenerateSpec(db, false, t, end, now, query, metadata, rates, convert, true).resp.Bill?
    requires NextStart(db.orders, t) <= target < end
    ensures var g := GenerateSpec(db, false, t, end, now, query, metadata, rates, convert, true);
      RegenerateSpec(g.db, t, target, query, metadata, rates, convert) == g.resp
  {
    var g := GenerateSpec(db, false, t, end, now, query, metadata, rates, convert, true);
    GenerateOutcome(db, false, t, end, now, query, metadata, rates, convert, true);
    NewOrderContainsAlone(db.orders, t, end, target);
    var start := NextStart(db.orders, t);
    assert g.db == db.(orders := db.orders + [SalesOrderRow(t, start, end)]);
    assert BillDoc(g.db, t, start, end, query, metadata, rates, convert)
      == BillDoc(db, t, start, end, query, metadata, rates, convert);
  }
}
