# Distil usage collection and billing, modelled in Dafny

Distil meters the cloud resources each tenant uses and bills them.
Its web API does two jobs, and this project models both and proves
properties about them.

Usage collection (`run_usage_collection`, `collect_usage`):
- For every tenant, the period since its watermark (`last_collected`) is cut
  into one-hour windows, optionally capped by `max_windows_per_cycle`.
- In each window, every meter's samples are fetched.
- Samples from untrusted sources are dropped, and the rest are grouped by
  resource (`filter_and_group`).
- Each group goes through the meter's transformer, and the result is
  written as a usage entry (`transform_and_insert`).
- Each window commits together with the tenant's new watermark. The first
  rejected commit is reported as an error and ends that tenant's cycle.
- When some tenant made progress, the LastRun marker records the
  hour-truncated clock reading. `get_last_collected` reads it back.

Billing:
- `build_tenant_dict` turns usage entries into a tenant document with one
  resource per resource id and one service line per entry.
- `add_costs_for_tenant` prices every line from the rate schedule (with a
  sentinel line when a service has no rate) and sums the resource and
  tenant totals.
- `generate_sales_order` claims the range from the tenant's last order up
  to a requested end, commits that claim, then bills the range.
- `regenerate_sales_order` and `regenerate_sales_order_range` re-bill
  stored orders without writing anything.
- `make_serializable` renders every decimal as a string for the JSON
  encoder.

Modules:

| module | file | models |
|---|---|---|
| `Common` | `common.dfy` | `Option`, time in seconds, `dawn_of_time`, hour truncation, filtering |
| `Windowing` | `windows.dfy` | `generate_windows` and the window cap |
| `Grouping` | `grouping.dfy` | the trust filter and `filter_and_group` on a caller-owned dictionary |
| `Store` | `store.dfy` | the tables, the session that stages writes until commit, the tenant upsert and the LastRun marker |
| `Collection` | `collection.dfy` | `transform_and_insert`, the window transaction and `collect_usage` |
| `Cycle` | `cycle.dfy` | what one `collect_usage` cycle does to the store and the response |
| `Sweep` | `sweep.dfy` | `run_usage_collection` and the LastRun update |
| `Billing` | `billing.dfy` | the tenant document and `build_tenant_dict` |
| `Pricing` | `pricing.dfy` | `add_costs_for_tenant`, with money in whole cents |
| `SalesOrders` | `sales_orders.dfy` | `generate_sales_order` and both `regenerate_*` functions |
| `Serialize` | `serialize.dfy` | `make_serializable` |

How the model is built:
- Code that updates state step by step is imperative Dafny.
  - The dictionaries that `filter_and_group`, `build_tenant_dict` and
    `add_costs_for_tenant` fill in place are classes.
  - The database session is the class `Store.Store`. Its writes wait in
    `pending` until `Commit`.
  - The loops are methods, each proved equal to a specification function.
- What the code reads from outside is passed in as a parameter:
  - the metering API, the transformers and the `%`-formatting of resource
    ids;
  - the store's verdict on each commit, and the clock. The sweep's clock
    reading is `now`; each tenant's `collect_usage` takes its own reading,
    `clock(i)` for the i-th tenant, which stamps that tenant's rows;
  - the usage query, the resource metadata, the rate schedule and
    `convert_to`.
- Times are whole seconds and `dawn_of_time` is 0.
- Money is an integer number of cents. On exact amounts, Python 2's
  `round(x, 2)` is `Pricing.RoundCents`, which rounds halves away from
  zero. On floats the two can differ (see "Floating point" below).

## Model

| member | source | states |
|---|---|---|
| `Common.FloorHour` | distil/api/web.py:243-244 | the ceiling of a sweep is a whole hour, at most one hour before the clock reading |
| `Windowing.Windows` | distil/api/web.py:101-107 | every window is one hour long and lies inside `[start, end]`; there are none exactly when less than an hour fits |
| `Windowing.GenerateWindows` | distil/api/web.py:101-107 | the generator loop yields exactly the windows of `Windows(start, end)` |
| `Windowing.WindowAt` | distil/api/web.py:101-107 | window `i` is the `i`-th hour after `start` and ends no later than `end` |
| `Windowing.WindowsCount` | distil/api/web.py:104 | as many windows as whole hours fit: none exactly when less than an hour fits, and no trailing partial hour |
| `Windowing.WindowsContiguous` | distil/api/web.py:101-107 | windows are one hour long, start at `start`, each starts where the previous ended, and all end by `end` |
| `Windowing.ChainMonotone` | distil/api/web.py:101-107 | in a window chain, earlier windows end before later ones start |
| `Windowing.CapWindows` | distil/api/web.py:164-168 | the cap keeps a prefix, no longer than `max_windows` when that is non-zero, and cuts only at the cap |
| `Windowing.CappedWindowsChain` | distil/api/web.py:164-168 | the capped windows still form a chain from the watermark inside `[start, end]` |
| `Grouping.UsageByResource.constructor` | distil/api/web.py:181 | a new dictionary is empty |
| `Grouping.FilterAndGroup` | distil/api/web.py:110-126 | the caller's dictionary, updated in place, stays well formed and equals the fold of one step per sample over its old value |
| `Grouping.Trusted` | distil/api/web.py:119 | with a trust list configured, a sample is kept exactly when its source is listed; with none, every sample is kept; its consequence for grouping is `Grouping.GroupedFromEmpty` |
| `Grouping.AddValid` | distil/api/web.py:124-126 | one `setdefault(...).append` keeps every key listed once with a non-empty list |
| `Grouping.AddSpec` | distil/api/web.py:119-126 | one step appends a trusted sample under its own key and changes nothing else; an untrusted sample changes nothing |
| `Grouping.GroupAllValid` | distil/api/web.py:113-126 | the loop keeps the dictionary well formed and keeps the caller's keys first |
| `Grouping.GroupAllSpec` | distil/api/web.py:110-126 | each key ends with the caller's samples followed by the trusted samples of that resource in input order; a key exists iff it was there before or some trusted sample names it |
| `Grouping.GroupAllEntriesAt` | distil/api/web.py:110-126 | the per-key half of `GroupAllSpec`, by induction on the samples |
| `Grouping.GroupedFromEmpty` | distil/api/web.py:119-126 | from an empty dictionary, the groups hold exactly the trusted samples, each under its own resource id |
| `Store.ApplyAllAppend` | distil/api/web.py:172-198 | committing two batches of writes in sequence is committing them in one batch |
| `Store.ApplyRowWrites` | distil/api/web.py:143-147 | committing resource and usage writes leaves tenants, orders and LastRun alone, only appends usage entries (one per usage write), and keeps known resources |
| `Store.UpsertTenant` | distil/api/web.py:159-161 | a new tenant starts with its watermark at `dawn_of_time` and a known tenant and every other row are unchanged, as the model reads `insert_tenant` (see "## Left out") |
| `Store.LastCollected` | distil/api/web.py:88-98 | `get_last_collected` answers `dawn_of_time` or a stored LastRun time, `dawn_of_time` when there is no row, and the row's time when there is exactly one |
| `Store.LastCollectedDefault` | distil/api/web.py:93-94 | with no LastRun row, `get_last_collected` answers `dawn_of_time` (tests/test_api.py:249-253) |
| `Store.RecordLastRunSpec` | distil/api/web.py:255-264 | the LastRun upsert leaves exactly one row holding `end`, which `get_last_collected` reads back, and changes nothing else |
| `Store.Store.constructor` | distil/api/web.py:235 | a new session starts on an empty store with nothing staged |
| `Store.Store.InsertTenant` | distil/api/web.py:159-162 | the tenant upsert is committed at once, and the returned row is the stored one |
| `Store.Store.InsertResource` | distil/api/web.py:143-144 | stages exactly one resource write |
| `Store.Store.InsertUsage` | distil/api/web.py:145-147 | stages exactly one usage write |
| `Store.Store.SetWatermark` | distil/api/web.py:197-198 | stages exactly one watermark write |
| `Store.Store.AddOrder` | distil/api/web.py:420-422 | stages exactly one sales-order write |
| `Store.Store.UpsertLastRun` | distil/api/web.py:256-264 | the store becomes `RecordLastRun` of the old store, with nothing left staged |
| `Store.Store.Commit` | distil/api/web.py:208-210 | a successful commit applies every staged write in order; a failed one rolls all of them back; either way nothing stays staged |
| `Collection.TransformAndInsert` | distil/api/web.py:129-147 | stages, resource by resource in key order, exactly the writes `TransformWrites` names |
| `Collection.UsageRowsOfAppend` | distil/api/web.py:129-147 | the usage entries of two batches of writes are those of the first followed by those of the second |
| `Collection.ApplyRowWritesUsage` | distil/api/web.py:143-147 | committing resource and usage writes appends exactly their usage entries, in order |
| `Collection.Truthy` | distil/api/web.py:138 | a transformer result counts as present exactly when it is neither none nor zero; its consequence for the writes is `Collection.WritesForSpec` and `Collection.BilledRowsSpec` |
| `Collection.WritesForSpec` | distil/api/web.py:138-147 | a resource with a truthy transformer result gets one usage entry and one resource write; a falsy result (none or zero) gets nothing |
| `Collection.TransformWritesAreRows` | distil/api/web.py:129-147 | `transform_and_insert` stages only resource and usage writes |
| `Collection.TransformRows` | distil/api/web.py:133-147 | the staged usage entries are exactly the billed rows, in resource order |
| `Collection.BilledRowsSpec` | distil/api/web.py:133-147 | one entry per resource with a truthy result and none for the others; each has the tenant, the window, the meter's unit and service, the timestamp and a non-zero volume |
| `Collection.TransformResources` | distil/api/web.py:138-144 | each staged resource write is for a resource with a truthy result, under its templated id, and records the last sample grouped under it |
| `Collection.MeterGroups` | distil/api/web.py:180-185 | one meter's samples in one window form a well-formed grouping |
| `Collection.StageMeter` | distil/api/web.py:178-195 | stages exactly one meter's writes for the window |
| `Collection.StageWindow` | distil/api/web.py:172-198 | stages every meter's writes in mapping order, then the watermark moved to the window's end |
| `Collection.CollectWindow` | distil/api/web.py:170-224 | a window commits all of its writes or none: the store becomes the step's result iff the commit succeeds, and is unchanged otherwise |
| `Collection.CommittedCount` | distil/api/web.py:170-224 | the number of windows committed is the index of the first rejected window |
| `Collection.Updated` | distil/api/web.py:200-206 | one `updated: True` line per committed window, in order |
| `Collection.SweepResponse.constructor` | distil/api/web.py:248 | the response starts with no tenant lines and no errors |
| `Collection.CollectUsage` | distil/api/web.py:150-225 | the store, the response lines, the error count and `run_once` after the method equal those of the cycle specification `CollectSpec` |
| `Collection.CollectWindows` | distil/api/web.py:170-225 | the window loop matches `RunWindows`: it commits until the first rejection, which adds one failed line and one error and ends the loop |
| `Collection.RecordFailure` | distil/api/web.py:210-219 | a failed window adds exactly one `updated: False` line and exactly one error |
| `Collection.RunWindowsAt` | distil/api/web.py:170-225 | when exactly the first `i` windows commit: the store after `i` commits, `i` updated lines, then one failed line and one error if the cycle stopped early, and `run_once` iff `i > 0` |
| `Collection.CommittedCountIs` | distil/api/web.py:170-224 | the committed count is the index of the first rejected window, whatever that index is |
| `Cycle.MeterGroupsKeys` | distil/api/web.py:133-144 | every key `transform_and_insert` visits has at least one sample, so `entries[-1]` exists |
| `Cycle.MetersWritesAreRows` | distil/api/web.py:178-195 | a window's meter loop stages only resource and usage writes |
| `Cycle.MeterResourcesTrusted` | distil/api/web.py:119-144 | a staged resource row takes as metadata a trusted sample fetched for that window, keyed by that sample's templated resource id |
| `Cycle.MeterRows` | distil/api/web.py:145-147 | one meter's usage entries are for the tenant and exactly that window, each with a non-zero volume |
| `Cycle.MetersRows` | distil/api/web.py:178-195 | the same for all meters of a window |
| `Cycle.ApplyWindowSpec` | distil/api/web.py:172-198 | committing a window moves only this tenant's watermark, to the window's end; it leaves orders and LastRun alone, only appends entries for the tenant and window, and keeps known resources |
| `Cycle.NewRowsSplit` | distil/api/web.py:170-198 | an entry appended by two commits in a row was appended by one of them |
| `Cycle.InSomeWindowPrefix` | distil/api/web.py:170 | an entry covering one of the first windows covers one of them all |
| `Cycle.ApplyWindowsTables` | distil/api/web.py:170-198 | committing windows in order puts the watermark at the last one's end, keeps the other rows, and only appends usage entries |
| `Cycle.ApplyWindowsRows` | distil/api/web.py:170-198 | every entry appended by those commits belongs to the tenant, is non-zero and covers one of the windows |
| `Cycle.CycleOutcome` | distil/api/web.py:150-225 | with `k` windows committed before the first rejection: watermark at the end of window `k`; `k` updated lines, plus one failed line and one error iff it stopped early; `run_once` iff `k > 0`; other tenants, orders and LastRun untouched; new entries only for this tenant, inside committed windows |
| `Cycle.WatermarkAdvance` | distil/api/web.py:161-198 | the watermark moves forward by exactly one hour per committed window and never past the ceiling |
| `Cycle.CommittedRowInRange` | distil/api/web.py:170-198 | an entry of one of the first `k` windows lies between the watermark and the end of window `k` |
| `Cycle.BehindPreserved` | distil/api/web.py:170-198 | moving one watermark forward while appending only that tenant's entries inside the range it moved over keeps every entry behind its watermark, and no new entry overlaps an old one of the same tenant |
| `Cycle.CycleExactlyOnce` | distil/api/web.py:150-225 | a cycle keeps every usage entry behind its tenant's watermark, and each new entry starts no earlier than every earlier entry of the tenant ends: no hour is collected twice |
| `Cycle.SecondCycleIdle` | distil/api/web.py:161-168 | after a cycle has committed every window up to the ceiling, the next cycle with the same ceiling has no window to collect |
| `Cycle.FailuresAppend` | distil/api/web.py:211-219 | the failed lines of two responses add up |
| `Cycle.FailuresUpdated` | distil/api/web.py:200-206 | updated lines are never failures |
| `Cycle.OutcomeReports` | distil/api/web.py:200-219 | the lines of a cycle hold one failure iff it stopped early, and an updated line iff some window committed |
| `Cycle.CycleReports` | distil/api/web.py:200-224 | a cycle's error count equals its number of failed lines, and `run_once` holds iff some line reports an update |
| `Cycle.CycleWatermarksMonotone` | distil/api/web.py:159-198 | no cycle drops a tenant or moves any tenant's watermark backwards |
| `Sweep.RunUsageCollection` | distil/api/web.py:230-268 | the store and the response after the sweep equal those of `SweepSpec`: one cycle per tenant in order, each stamped with its own clock reading (distil/api/web.py:154), then LastRun only if some tenant ran |
| `Sweep.SweepStep` | distil/api/web.py:251-253 | one more tenant runs its cycle on the store the previous tenants left and appends to the same response |
| `Sweep.SweepTenantsTables` | distil/api/web.py:251-253 | the tenant loop leaves orders and LastRun alone, only appends usage entries, and moves no watermark backwards |
| `Sweep.SweepTenantsCounters` | distil/api/web.py:248-253 | the sweep's `errors` is its number of failed lines, and `run_once` holds iff some line reports an update |
| `Sweep.SweepTenantsExactlyOnce` | distil/api/web.py:251-253 | every usage entry stays behind its tenant's watermark across the whole sweep |
| `Sweep.SweepLastRun` | distil/api/web.py:243-266 | LastRun stays at most one row; it holds the hour-truncated clock reading exactly when some tenant ran, and `get_last_collected` returns it; otherwise LastRun is unchanged (tests/test_api.py:240-247) |
| `Billing.TenantDoc.constructor` | distil/api/web.py:333-334 | the document starts with the tenant's name and id and no resources |
| `Billing.Lines` | distil/api/web.py:337-338 | one service line per entry, in order, carrying its name, volume and unit |
| `Billing.BuildTenantDict` | distil/api/web.py:331-351 | the in-place loop builds exactly `BuildDoc`, and fetches metadata once per new resource, in first-seen order |
| `Billing.BuildDocKeys` | distil/api/web.py:331-351 | the document keeps the tenant's name and id, has no price or range yet, and has one key for each distinct resource id of the entries, listed once (tests/test_api.py:137-158) |
| `Billing.BuildDocResources` | distil/api/web.py:336-349 | each resource carries its fetched metadata and the service lines of its own entries, in entry order, given a fresh metadata dictionary per resource (see "## Left out") |
| `Billing.AddEntryResources` | distil/api/web.py:336-349 | one entry extends only its own resource's lines |
| `Billing.AddEntryResourceAt` | distil/api/web.py:340-349 | the same for one key |
| `Billing.EntriesForSnoc` | distil/api/web.py:336 | one more entry adds one line to its own resource only |
| `Billing.EntriesForAbsent` | distil/api/web.py:340 | a resource with no entry has no lines |
| `Billing.ServiceCountUpdate` | distil/api/web.py:345-349 | replacing a listed resource changes the line count by the change in its own lines |
| `Billing.ServiceCountFresh` | distil/api/web.py:340-345 | a resource not yet listed does not change the line count |
| `Billing.ServiceCountSnoc` | distil/api/web.py:345 | listing a resource adds its lines to the count |
| `Billing.BuildDocCount` | distil/api/web.py:336-349 | every entry becomes exactly one service line |
| `Billing.BuildDocEmpty` | distil/api/web.py:331-351 | no entries give an empty `resources` (tests/test_api.py:164-180) |
| `Pricing.RoundCents` | distil/api/web.py:374-375 | the cost is within half a cent of the exact amount, and a half is rounded away from zero |
| `Pricing.RoundCentsExact` | distil/api/web.py:375 | a whole number of cents is kept exactly, and rounding is symmetric around zero |
| `Pricing.PriceServices` | distil/api/web.py:358-382 | the inner loop prices every line as `PriceLine` does and returns their summed cost |
| `Pricing.PriceService` | distil/api/web.py:360-382 | one service is priced as `PriceLine` says, adds its cost, and gets a price iff the schedule has a rate for it |
| `Pricing.AddCostsForTenant` | distil/api/web.py:354-387 | the document, priced in place, becomes `PriceDoc` of the old document |
| `Pricing.TotalStep` | distil/api/web.py:384 | the running tenant total gains one resource's total |
| `Pricing.AllPriced` | distil/api/web.py:357-383 | once every resource has been visited, all of them are priced |
| `Pricing.NotYetPriced` | distil/api/web.py:357 | no resource is visited twice |
| `Pricing.PricedStep` | distil/api/web.py:357-383 | one outer iteration prices exactly the resource it visits |
| `Pricing.PriceDocShape` | distil/api/web.py:354-387 | pricing keeps the name, tenant, range, key order, metadata and number of lines, and sets each resource total to the sum of its line costs |
| `Pricing.PriceLinesSpec` | distil/api/web.py:359-382 | a line gets the missing-rate sentinel (cost 0) iff the schedule has no rate for it; otherwise it gets the rate's unit and rate, the converted volume, and a cost within half a cent of volume times rate |
| `Pricing.MissingRatesExcluded` | distil/api/web.py:362-368 | lines without a rate add nothing: a total equals the total of its priced lines alone |
| `Pricing.LinesTotalAppend` | distil/api/web.py:382 | line totals add up over concatenation |
| `Pricing.TotalIsSumOfLines` | distil/api/web.py:382-384 | summing per resource first loses nothing: the tenant total is the sum of all line costs |
| `Pricing.TenantTotalIsSumOfLines` | distil/api/web.py:354-387 | the tenant total of a priced document is the sum of all its line costs |
| `Pricing.ResourcesTotalAppend` | distil/api/web.py:384 | resource totals add up over concatenation |
| `Pricing.TotalOrderIndependent` | distil/api/web.py:357 | the tenant total does not depend on the order in which `values()` yields the resources |
| `Pricing.TotalRemoveAt` | distil/api/web.py:384 | taking one resource out of the list takes its cost out of the total |
| `Pricing.RemoveAt` | distil/api/web.py:357 | removing one element of the visit order removes exactly that element from its multiset |
| `Pricing.BuildDocPriceable` | distil/api/web.py:431-432 | what `build_tenant_dict` returns is what `add_costs_for_tenant` accepts |
| `Pricing.EmptyTenantTotal` | distil/api/web.py:356-385 | a tenant without usage costs 0 (tests/test_api.py:228-238) |
| `Pricing.HourlyResource` | distil/api/web.py:358-383 | two 3600-second services at 0.25 per hour cost 25 cents each and the resource 50 (tests/test_api.py:182-226) |
| `Pricing.HourlyExample` | distil/api/web.py:354-387 | two such resources make a tenant total of 100 cents, each resource 50 and each line 25 at one hour (tests/test_api.py:182-226) |
| `SalesOrders.TenantOrders` | distil/api/web.py:404-405 | a tenant's orders are exactly the stored orders with its id |
| `SalesOrders.MaxEnd` | distil/api/web.py:404-407 | `max(end)` is absent iff there are no orders; otherwise it is attained and bounds every end |
| `SalesOrders.PricedTenantDict` | distil/api/web.py:431-432 | building then pricing gives `PriceDoc` of `BuildDoc` |
| `SalesOrders.MakeBill` | distil/api/web.py:431-436 | the bill is the priced document of the range's usage, with the range attached |
| `SalesOrders.GenerateSalesOrder` | distil/api/web.py:390-449 | the response and the store after it equal those of `GenerateSpec` |
| `SalesOrders.Within` | distil/api/web.py:464 | the orders found are exactly those whose range meets the requested instants |
| `SalesOrders.RegenerateSalesOrder` | distil/api/web.py:452-478 | answers exactly `RegenerateSpec`: the bill of the first order containing `target`, the 400 error when none does, and it writes nothing |
| `SalesOrders.BillsFor` | distil/api/web.py:495-506 | one bill per order, in order, each over that order's range |
| `SalesOrders.BillsForStep` | distil/api/web.py:495-506 | one more order adds its bill at the end |
| `SalesOrders.RegenerateSalesOrderRange` | distil/api/web.py:481-508 | answers exactly `RegenerateRangeSpec`: one bill per order of the tenant meeting the range, and it writes nothing |
| `SalesOrders.GenerateOutcome` | distil/api/web.py:396-449 | a bill iff the tenant exists, the end is after the last order's end and not in the future, and the commit succeeds; each 400 error carries the code's message; a 400 or a draft stores nothing; a committed bill stores exactly the order `[start, end)`, and its document carries that range (tests/test_api.py:128-135) |
| `SalesOrders.TenantOrdersSnoc` | distil/api/web.py:421-422 | storing an order extends only its own tenant's list |
| `SalesOrders.ChainMaxEnd` | distil/api/web.py:404-405 | in a chain, the last order ends latest |
| `SalesOrders.ChainNextStart` | distil/api/web.py:404-407 | in a chain, the next order starts at `dawn_of_time` or at the end of the last order |
| `SalesOrders.ChainExtend` | distil/api/web.py:421 | an order starting where the chain ends, and not empty, extends the chain |
| `SalesOrders.AppendKeepsChain` | distil/api/web.py:404-422 | storing `[next start, end)` with `end` after the next start keeps every tenant's orders a chain |
| `SalesOrders.GenerateKeepsChain` | distil/api/web.py:390-449 | whatever its outcome, `generate_sales_order` keeps every tenant's orders a contiguous chain from `dawn_of_time` |
| `SalesOrders.ChainDisjoint` | distil/api/web.py:404-422 | the orders of a chain never overlap |
| `SalesOrders.WithinNone` | distil/api/web.py:464-466 | no order ending by `x` contains `x` |
| `SalesOrders.ChainContainsOnce` | distil/api/web.py:464 | at most one order of a chain contains an instant, so the `[0]` of `regenerate_sales_order` is the only candidate |
| `SalesOrders.ContainingAlone` | distil/api/web.py:464 | the order of a chain containing `x` is the only one found for `x` |
| `SalesOrders.RegenerateFindsContaining` | distil/api/web.py:452-478 | when an order of the tenant's chain contains `target`, regenerating bills exactly that order's range |
| `SalesOrders.NewOrderContainsAlone` | distil/api/web.py:404-422 | after it is stored, the new order is the only one of its tenant containing any instant of its range |
| `SalesOrders.WithinSnoc` | distil/api/web.py:464 | one more order is found iff it contains the instant |
| `SalesOrders.RegenerateReproduces` | distil/api/web.py:390-478 | regenerating at any instant of a freshly committed order returns the same bill `generate_sales_order` returned |
| `Serialize.MakeSerializable` | distil/api/web.py:275-284 | the result is never a `Decimal`, a `Decimal` becomes its string, lists stay lists of the same length, dicts stay dicts, and nothing else becomes a list or dict |
| `Serialize.KeyIndex` | distil/api/web.py:279 | finds the position of a key in a dictionary, or reports that it is absent |
| `Serialize.InsertSpec` | distil/api/web.py:279 | assigning a key keeps keys distinct and adds only the new pair |
| `Serialize.BuildDictSpec` | distil/api/web.py:279 | a dict comprehension gives distinct keys, and every entry comes from its pairs |
| `Serialize.BuildDictDistinct` | distil/api/web.py:279 | pairs with distinct keys come out of the comprehension unchanged |
| `Serialize.LastKeyNew` | distil/api/web.py:279 | in a dictionary, the last key is new to those before it |
| `Serialize.SerializedClean` | distil/api/web.py:275-284 | the result has no `Decimal` anywhere, and every dictionary in it has distinct keys |
| `Serialize.SerializedFixed` | distil/api/web.py:275-284 | a value with nothing left to serialise is returned as it is |
| `Serialize.SerializeIdempotent` | distil/api/web.py:275-284 | serialising twice is serialising once |
| `Serialize.SerializeShape` | distil/api/web.py:275-284 | lists keep their length and item order, a `Decimal` becomes its string, a dict stays a dict, and other scalars pass through |

## Notes on the code

How the model reads `distil/api/web.py` where its behaviour is easy to
misread:

- Zero results. A transformer result of zero writes nothing, just like
  none (`if transformed:` at distil/api/web.py:138).
  `Collection.Truthy` makes both falsy, so an explicit zero is not a
  separate case.
- Future end. A sales order's end is checked against the clock when
  `generate_sales_order` runs (distil/api/web.py:414), not against the
  last collection. The clock is the parameter `now`.
- Failed commits. A rejected window commit ends the tenant's cycle, and the
  sweep goes on with the next tenant (distil/api/web.py:208-224).
- Other errors. Any other exception (a metering failure, a transformer
  error) escapes to the catch-all at distil/api/web.py:270-273. That
  catch-all surrounds the whole tenant loop, so the sweep stops instead of
  going on with the remaining tenants. The model leaves these exceptions
  out (see below).
- Overlap. Sales orders do not overlap because each new order starts at
  the tenant's latest end, not because of a check in the code.
  `SalesOrders.GenerateKeepsChain` and `SalesOrders.ChainDisjoint` prove
  it. Likewise, usage entries never overlap because of the watermark
  (`Cycle.CycleExactlyOnce`), with no store constraint involved.

## Left out

- HTTP: the Flask routes, request parsing, `strptime` and the JSON
  responses of the route functions. Only the functions they call are
  modelled.
- Configuration: `config` is the datatype `CollectionConfig`. The cap
  `max_windows_per_cycle` is taken to be non-negative (`maxWindows: nat`);
  a negative value `-k` is truthy in the code, and `list(windows)[:-k]`
  (distil/api/web.py:167-168) then drops the last `k` windows; that case
  is not modelled. The rate
  file, Keystone (`Interface().tenants`), logging, `timed` and
  `reset_cache` are not modelled.
- Exceptions: the catch-all `except Exception` of `run_usage_collection`
  and any exception other than a rejected commit. These include a
  metering failure, a transformer `KeyError` (unknown transformer name, or
  missing `metadata`/`type`/`unit` keys) and a `convert_to` failure. The
  functions standing in for these collaborators are total.
- Floating point and `Decimal`:
  - volumes and rates are exact reals, so a float just below a half cent
    (`round(2.675, 2)` gives 2.67) is not modelled;
  - costs are whole cents;
  - the `str(...)` renderings of volume, rate and costs are not modelled,
    and `render` is a parameter of `Serialize.MakeSerializable`.
- Dictionary order: Python 2 dictionaries iterate in an unspecified order,
  and the model iterates in first-insertion order. `Pricing.TotalOrderIndependent`
  shows that the tenant total does not depend on that order.
- The database layer (`distil/database.py` is not part of this model):
  - `db.usage` is the parameter `query`;
  - `get_resource_metadata` is the parameter `metadata`, taken to return
    a fresh dictionary on every call. The code then changes that
    dictionary in place (`resource['services']` at distil/api/web.py:343,
    `resource['total_cost']` at distil/api/web.py:385). A collaborator
    that hands back one shared dictionary would make every resource show
    the last resource's services; shared or aliased dictionaries are not
    modelled (`Billing.BuildTenantDict`, `Billing.BuildDocResources`);
  - `get_sales_orders(t, a, b)` is `SalesOrders.Within`, which keeps the
    orders with `start <= b` and `a < end`, in the order they were stored.
    The query has no `ORDER BY`, so the model takes the stored order, which
    is chronological (`SalesOrders.GenerateKeepsChain`). The `[0]` that
    `regenerate_sales_order` takes does not depend on this order, because
    at most one order matches (`SalesOrders.ChainContainsOnce`);
  - `insert_usage` writes one row labelled with the meter's service and
    the transformer's scalar volume. The code passes no service to it; the
    label is the model's, and is what `Store.InsertUsage`,
    `Collection.RowFor` and `Collection.WritesFor` take as `service`;
  - `insert_resource` records a resource the first time it is seen and
    keeps it afterwards;
  - `insert_tenant` adds an unseen tenant with its watermark at
    `dawn_of_time` and returns a known tenant's row unchanged, without
    refreshing its name or description. This is the model's reading
    (`Store.UpsertTenant`); the first cycle's windows start from that
    watermark;
  - the table constraints that can reject a commit are the commit-verdict
    parameters (`Env.commits`, and `commits` of `GenerateSalesOrder`).
    `Env.commits` is a function of tenant and window, so a tenant listed
    twice in one sweep gets the same verdict for the same window.
- Tenant validation: `validate_tenant_id` (distil/api/helpers.py is not
  part of this model) is a lookup in the Tenant table. An unknown tenant
  gets `UnknownTenant`, with status 400.
- Draft sales orders: the draft path still commits an empty transaction,
  so a rejected commit gives the overlap error there too, as in the code.
- Concurrency: two sweeps or two sales-order requests racing on the same
  store are not modelled. Each operation runs alone on the store.
- `get_usage` and the `run_sales_*` route wrappers are not modelled.
