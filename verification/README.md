# paas-billing: a verified model

paas-billing turns Cloud Foundry's usage events into bills. This project models its pipeline in Dafny and
proves what the pipeline computes, from the raw log to the response of the API.

Time is an integer number of microseconds since the epoch in UTC (PostgreSQL's resolution), `numeric` is
`real`, a table is a sequence or a map, and an SQL or Go error is a `Result`.

| part | files |
|---|---|
| Log to intervals: windows, ranges, compaction of name tables, the four joins | `EventLog`, `Timeline`, `Compaction`, `Events` |
| Intervals to priced pieces: plan, currency and VAT cuts, formulas, the component table | `Components`, `ComponentTable`, `Formula`, `Config`, `Plans` |
| Bills: clip, price, group; one month or many | `Bill`, `BillColumns`, `BillCoverage`, `BillGap`, `MonthlyBill`, `MonthSplit` |
| Months and the consolidation cache | `Calendar`, `EventFilter`, `Consolidation` |
| The database as a state machine, and the store and loop as they run | `Database`, `Store` |
| Collecting the upstream log | `Replication`, `Collector` |
| Version histories of services, plans, organisations and spaces | `CfHistory`, `CfStore` |
| The API's answer | `Serving`, `Handler`, `HandlerRun`, `Response` |
| Costs by day | `ByDay` |
| All of it together, instant by instant, and through the loop | `Pipeline`, `EndToEnd` |
| Concrete inputs for the list below | `Witnesses` |

Code that computes a value is a function with lemmas about it. Code that changes state (the event store, the
collector, the historic data store, the handler's loops) is a class or a method that is proved equal to such
a function, so that what is proved of the function holds of the code.

What a function puts into a table or a response is also stated column by column without that function
(`Events.EventColumns`, `ComponentTable.TableColumns`, `BillColumns.RowDetails`, `StoreConfig.LoadedTables`,
`Plans.GenerateColumns`, `CfStore.PlanRecordsListed`, `Replication.PrefixIsVerbatim`, `Response.ReadColumns`).

## What the code does that one might not expect

- `AddDate(0, 1, 0)` turns January 30th into March, so the first monthly piece of a query can span two months
  (`EventFilters.SplitMonths` gives the exact condition). Such a piece is never served from the cache, and
  its bill rows have no gaps when the rates were checked (`BillCoverage.TwoMonthsGapFree`).
- The range a bill row reports can have gaps over three or more plan versions, when the first and third put
  the event in the same group and the second does not (`BillGap.GapOverThreeVersions`; `BillCoverage.GapIffReturns`
  gives the exact condition).
- One entry dated in the future, newest of its resource and not a staging entry, makes the whole rebuild of
  the events fail (`EventLog.RangesDefinedMeaning`, `Witnesses.OneFutureEntry`). The minimum age rules it out
  for app and service events that were collected (`EventLog.PastLogIsDefined`, `Replication.StoredIsPast`).
- `checkPricingComponents` tests `count < 0` and so accepts plans without components
  (`Plans.PricingComponentsCheckIsVacuous`); an event that meets one makes the component rebuild fail
  (`Components.RowsComplete`).
- `checkPlanConsistency` asks only that some plan version overlaps an event; what comes before the first
  version is not charged (`Plans.ConsistentIsCovered` gives the exact condition, `Witnesses.UnchargedStart` an
  event).
- Dummy plans are priced in pounds with standard VAT from the epoch, and nothing checks that those rates exist
  by then (`Plans.GenerateRates`). Rates that start later do not in general fail the rebuild: at the first refresh
  and at all later ones it meets a NULL exactly when they are not found over a dummy's part of an event
  (`Plans.RebuildWithDummies`, `Store.RefreshSucceeds`). Otherwise the event is silently missing from the table
  until both rates have started (`Plans.DummyChargedSince`, `Witnesses.LateDummyRates`).
- The handler never asks a cursor for its error: one that breaks midway gives a complete-looking response that is
  short of the rows it did not fetch (`Response.BrokenCursorsAreSilent`, `Response.OneLostRow`).
- The minimum age is measured when a page is cut, after it was read: the time in between counts against it
  (`Replication.SlowPageLosesEvent`).
- One upstream entry that the store refuses stops the collection of its kind for good, as soon as it is old
  enough and within a page of the last stored one (`Replication.RefusedEntryBlocks`).
- Aggregated task events are always preceded by a delimiter, even when the opening bracket has not been
  written yet (`HandlerRun.ResponseIsArray` gives the exact condition).
- `eventcollector.New` does not copy `InitialWaitTime`: the first collection starts at once.
- A service event in a state other than CREATED, UPDATED and DELETED has no state, and so ends the usage
  before it like a stop.

## Model

| member | source | states |
|---|---|---|
| `Pipeline.LogToCharges` | eventstore/sql/create_events.sql:171-363 | For every log, resource, event type and past instant: the entry that a replay of the log finds running is charged by the component table for exactly the plan components, exchange rates and VAT rates then in force under the names in force; every other usage, and every guid that no running entry has, is charged nothing |
| `Pipeline.EventCharges` | eventstore/sql/create_billable_event_components.sql:60-103 | At every instant the built component table holds for each event exactly the charges due: one for each component of the plan version in force while the event lasts, none otherwise |
| `Pipeline.DueColumns` | eventstore/sql/create_billable_event_components.sql:60-103 | What is due, column by column: while the event lasts a charge for each component of the plan version in force at the rates in force, with the event's own sizes where it has them and the version's where it has none, and no other charge |
| `Serving.AnswerSucceeds` | apiserver/server_billable_handler.go:49-74 | A query fails only for a bound that is not a date or for a month that is neither consolidated nor billable; the cache itself never fails, whatever the window |
| `Serving.AnswerIsFrozen` | apiserver/server_billable_handler.go:62-70 | The answer to a query over consolidated months is the same after every run of collections, configurations, refreshes, consolidations and rollbacks |
| `Serving.AnswerIsOneAnswer` | apiserver/server_billable_handler.go:57-70 | The handler checks and reads each month in transactions of its own: whatever legal steps come before and between them, over consolidated months it reads the answer of the database as it was at the start |
| `Serving.AnswerTotal` | apiserver/server_billable_handler.go:49-74 | With an up-to-date cache, whatever mixture of cached and live months serves a query, its total, before or after VAT, is that of one live bill for the whole window plus between nothing and one started hour, on the same basis, of each component that the query concerns |
| `EventLog.InjectedIsCarried` | eventstore/sql/create_events.sql:171-198 | One left-to-right pass carrying the last known name, memory and storage of each resource and event type computes the filtered unbounded-preceding windows of every row |
| `EventLog.InjectedStaysKnown` | eventstore/migrations/0120_last_agg.up.sql:12-19 | Once a carried value is known it never becomes NULL again |
| `EventLog.InjectedMeaning` | eventstore/sql/create_events.sql:171-198 | A row's injected name, memory and storage are what its resource and event type were last said to have by then, or NULL if nothing ever was; every other column is the entry's own |
| `EventLog.RangesDefinedMeaning` | eventstore/sql/create_events.sql:199-216 | The rebuild fails on range bounds exactly when some resource has its newest entry, other than a staging entry, in the future |
| `EventLog.PastLogIsDefined` | eventstore/sql/create_events.sql:199-216 | A log without entries from the future never fails on range bounds |
| `Witnesses.OneFutureEntry` | eventstore/sql/create_events.sql:199-216 | One entry later than the rebuild, appended to any log and not a staging entry, makes it fail |
| `EventLog.CoversIsReplay` | eventstore/sql/create_events.sql:199-216 | A row's range holds a past instant exactly when the row is the newest entry of its resource at that instant, except a staging entry that nothing follows |
| `EventLog.UsageIsReplay` | eventstore/sql/create_events.sql:199-216 | For every log, resource, event type and past instant, the selected rows in force are exactly what the replay finds running: one row, or none |
| `Compaction.AnyDistinctMeaning` | eventstore/migrations/0130_anydistinct.up.sql:18-27 | `anydistinct` is NULL over nothing and otherwise says whether two neighbouring values differ, treating NULL as a value |
| `Compaction.NotRedundantMeaning` | eventstore/sql/create_events.sql:224-246 | A version is kept exactly when it is the first of its guid or some exposed column differs from the previous version |
| `Compaction.CompactShape` | eventstore/sql/create_events.sql:217-324 | Dropping redundant versions keeps the order and leaves no two neighbours with equal exposed columns |
| `Compaction.CompactPreservesLookup` | eventstore/sql/create_events.sql:217-324 | Dropping redundant versions changes no point-in-time lookup of the exposed columns |
| `Compaction.CompactIdempotent` | eventstore/sql/create_events.sql:217-324 | Compacting a compacted history changes nothing |
| `Timeline.MatchesIsLookup` | eventstore/sql/create_events.sql:349-360 | Validity ranges never overlap: a join at an instant finds the version in force and nothing else |
| `Events.JoinIsLookup` | eventstore/sql/create_events.sql:326-360 | Compaction, validity ranges and the four left joins give each usage exactly one row, with the names the full tables hold at its end |
| `Events.CreateEventsMeaning` | eventstore/sql/create_events.sql:326-364 | A rebuilt `events` table has one non-empty row with its own guid for each usage, named as above, and no other rows |
| `Events.EventColumns` | eventstore/sql/create_events.sql:326-363 | Every column of a rebuilt table: a service has the plan guid that its plan's unique id names, or the placeholder; anything else has its own; organisation, space, plan and service are called what their tables call them at the end of the usage, or what the entry says; the resource and the sizes are the injected entry's |
| `Events.CreateEventsSucceeds` | eventstore/sql/create_events.sql:171-364 | The rebuild succeeds if and only if every range is defined, every started entry of non-empty duration had been named by then, and no two of those share a guid |
| `Timeline.CutIsPointwise` | eventstore/sql/create_billable_event_components.sql:69-102 | Cutting a range by versions leaves at each of its instants exactly the piece of the version in force, or none before the first |
| `Timeline.CutTiles` | eventstore/sql/create_billable_event_components.sql:69-102 | A range that starts no earlier than the first version is cut without gap, overlap or empty piece |
| `Timeline.CutEmpty` | eventstore/sql/create_billable_event_components.sql:90-93 | The overlap join finds nothing exactly when the first version starts at or after the end of the range |
| `Components.RowsArePointwise` | eventstore/sql/create_billable_event_components.sql:60-103 | At every instant of an event its generated rows charge exactly the components of the plan version in force, once each, at the rates in force |
| `Components.RowOrigin` | eventstore/sql/create_billable_event_components.sql:60-103 | A generated row is a non-empty part of its event during which its plan version was in force |
| `Components.RateRowsTile` | eventstore/sql/create_billable_event_components.sql:97-102 | For a plan version with checked rates, the currency and VAT pieces of a component cover that part of the event without gap, overlap, empty piece or NULL |
| `Components.RateRowsDisjoint` | eventstore/sql/create_billable_event_components.sql:97-102 | With checked rates each instant of that part is in exactly one row of the component |
| `Components.RateRowsNull` | eventstore/sql/create_billable_event_components.sql:97-102 | A component yields no NULL over a part of an event if and only if a currency rate starts before the part ends and a VAT rate before the first currency piece of it ends |
| `Components.RowsComplete` | eventstore/sql/create_billable_event_components.sql:89-103 | An event yields a row with a NULL exactly when no plan version overlaps it, an overlapping version has no component, or the rates of one of its components are not found |
| `Components.CheckedIsRated` | eventstore/store.go:562-624 | The checks of the VAT and currency rates rule that last case out for every event |
| `Components.ComponentChargedSince` | eventstore/sql/create_billable_event_components.sql:97-102 | While a plan version is in force, each of its components is charged from the instant on at which both its rates have started, and not before |
| `ComponentTable.EventKeysDistinct` | eventstore/sql/create_billable_event_components.sql:27 | No two rows of an event share a duration and a component |
| `ComponentTable.ChargesAtDistinct` | eventstore/migrations/0040_create_base_objects.up.sql:204 | No component is charged twice at one instant |
| `ComponentTable.TableKeys` | eventstore/sql/create_billable_event_components.sql:27 | The whole insert never repeats a primary key |
| `ComponentTable.TableOrigin` | eventstore/sql/create_billable_event_components.sql:60-105 | Every row of the table is one slice of one of the events, with that slice's cost |
| `ComponentTable.TableColumns` | eventstore/sql/create_billable_event_components.sql:60-103 | Every column of a rebuilt table: the subject and plan of one event; the plan version, component, exchange rate and VAT rate in force at every instant of the row; the event's own memory, storage and nodes or else the version's; and a cost that is the formula's value at those sizes over the row's seconds, times the exchange rate |
| `ComponentTable.BuildSucceeds` | eventstore/sql/create_billable_event_components.sql:3-105 | The rebuild succeeds if and only if every event has plan versions, each with a component, the rates of every component it meets are found, and every formula it meets can be evaluated; the primary key and the non-empty check never fail |
| `Formulas.MeterMeaning` | eventstore/migrations/0040_create_base_objects.up.sql:118-134 | A formula built by adding, subtracting and scaling from seconds and started hours never fails and charges its rate per second and per started hour |
| `Formulas.EvalExecutes` | eventstore/migrations/0040_create_base_objects.up.sql:62-134 | Pricing a formula is executing what it is compiled to, with memory, storage, nodes and seconds as the parameters `$1` to `$4` |
| `Formulas.CeilOfMeaning` | eventstore/migrations/0040_create_base_objects.up.sql:111 | `ceil` is the least whole number that is not below its argument |
| `Formulas.AppFormulaIsHourly` | README.md:121 | The documented app formula charges 0.01 for each started hour, node and gigabyte and nothing by the second |
| `Formulas.CeilIsHoursStarted` | eventstore/migrations/0040_create_base_objects.up.sql:132 | `ceil($time_in_seconds / 3600)` over a range of microseconds counts the hours started |
| `Bills.GroupByMeaning` | eventstore/store_billable_events.go:244-257 | The groups have distinct keys and each holds exactly the priced components with its key, in order |
| `BillColumns.RowDetails` | eventstore/store_billable_events.go:172-236 | The details of a bill row are those of exactly the component rows of its group that the query concerns, each clipped to the window and priced by its formula for the seconds left, at its exchange rate and with its VAT |
| `BillColumns.RowTotals` | eventstore/store_billable_events.go:210-243 | A bill row reports the smallest range that holds its details and the sums of their prices, before and after VAT |
| `BillColumns.BillIsComplete` | eventstore/store_billable_events.go:244-257 | Every component row that the query concerns is in the group of exactly one bill row |
| `BillColumns.BillSucceeds` | eventstore/store_billable_events.go:140-257 | A bill fails exactly on a bound that is not a date, on bounds the wrong way round, or on a component concerned whose formula divides by zero |
| `Bills.BillConserves` | eventstore/store_billable_events.go:227-243 | The rows of a bill add up to the prices of its components, before and after VAT |
| `Bills.BillForOrgs` | eventstore/store_billable_events.go:154-166 | The bill for some organisations is the part of the full bill that concerns them |
| `BillCoverage.RowCoverage` | eventstore/store_billable_events.go:213-214 | A bill row is charged at an instant of the window if and only if the event is charged there (plan version and rates in force) in the row's own group |
| `BillCoverage.GapIffReturns` | eventstore/store_billable_events.go:213-214 | On catalogue, event and window alone: some row of the event's bill reports an instant at which it is not charged if and only if the event is of the organisations asked for and, inside the window, returns to a group that it was charged in and had left |
| `BillGap.GapOverThreeVersions` | eventstore/store_billable_events.go:213-214 | A concrete plan, event and three-month query whose bill row reports three months and charges nothing in the second |
| `BillCoverage.TwoMonthsGapFree` | eventstore/store_billable_events.go:213-214 | In a window of at most two months, hence in every window the API asks for, a row is charged at an instant of the range it reports if and only if the event is charged at all; with checked rates, always |
| `MonthlyBills.BuiltTableIsMonthSafe` | eventstore/migrations/0040_create_base_objects.up.sql:146-153 | In a built table, rows of one event that belong to different groups are separated by a plan version that starts on the first of a month |
| `MonthlyBills.MonthlyKeysDistinct` | eventstore/migrations/0110_create_consolidated_billable_events.up.sql:59 | Within a calendar month no two bill rows have the same event and plan |
| `MonthSplit.HoursSplit` | apiserver/server_billable_handler.go:49 | Cutting at whole hours starts at most one extra hour however many cuts there are, and none if the component started before the window |
| `MonthSplit.MonthlyBillsCost` | eventstore/store_billable_events.go:185-200 | For every metered component and query, the monthly prices sum to the single price plus either nothing or one started hour; exactly nothing under a formula linear in time |
| `MonthSplit.BillTotal` | eventstore/store_billable_events.go:227-243 | The total of a bill, before or after VAT, is what the components it concerns cost in the window |
| `MonthSplit.SplitBills` | apiserver/server_billable_handler.go:49-70 | Month by month the bills never charge less than one bill for the whole window, and at most one started hour more for each component that the query concerns, before and after VAT |
| `Calendar.AddMonthNormalises` | eventio/event_filter.go:44 | `AddDate(0, 1, 0)` is the first of the next month plus the days already past |
| `Calendar.BeforeIsEarlierDay` | eventio/event_filter.go:41 | Comparing dates by month and day is comparing day numbers |
| `Calendar.DatesAndDays` | eventio/event_filter.go:38-56 | Which days each month has, and for every one of them its number from 1970-01-01, from year, month and day alone: 365 for each year, one for each leap day, the days of the year before the month |
| `Calendar.MidnightOfDay` | eventstore/store_billable_events.go:151 | Windows are bounded by midnights in UTC, 24 hours of microseconds apart |
| `EventFilters.SplitTiles` | eventio/event_filter.go:38-56 | The pieces run from start to stop without gap, overlap or empty piece, keep the organisations, and meet only on firsts of months |
| `EventFilters.SplitMonths` | eventio/event_filter.go:38-56 | Every piece after the first lies in one month; the first does exactly when its day exists in the next month or the window ends by that month's first, and it never reaches a third month |
| `EventFilters.SplitByMonthMeaning` | eventio/event_filter.go:15-28 | `SplitByMonth` fails exactly on a bound that is not a date, returns nothing for an empty or reversed window, and otherwise the tiling above |
| `EventFilters.SplitSpansTwoMonths` | eventio/event_filter.go:44 | A concrete window, 2018-01-30 to 2018-04-01, whose first piece covers all of February |
| `EventFilters.WholeMonthsSplit` | eventio/event_filter.go:38-56 | Between firsts of months the pieces are exactly the calendar months |
| `EventFilters.TruncatedSplit` | eventio/event_filter.go:70-85 | Truncating first yields the months from the start's month up to, not including, the stop's |
| `Consolidation.AllowedIsMonth` | eventstore/migrations/0110_create_consolidated_billable_events.up.sql:13-31 | The constraints on a consolidated range allow calendar months and nothing else |
| `Consolidation.MonthsOverlap` | eventstore/store_consolidated_billable_events.go:82-83 | Two consolidated ranges overlap exactly when they are the same month |
| `Consolidation.GetConsolidatedMeaning` | eventstore/store_consolidated_billable_events.go:32-101 | Reading any window from the cache fails exactly if a bound is not the first of a month or they are the wrong way round; otherwise it gives the stored rows of all the months in the window, for the organisations asked for |
| `Consolidation.ConsolidatedIsReadable` | eventstore/store_consolidated_billable_events.go:32-101 | A range reported as consolidated passes both boundary checks, and the overlap query returns that month's rows for the organisations asked for and no others |
| `Consolidation.SnapshotsStayDistinct` | eventstore/migrations/0110_create_consolidated_billable_events.up.sql:59 | The primary key of the snapshots is never the reason a consolidation fails |
| `Consolidation.ConsolidateMeaning` | eventstore/store_consolidated_billable_events.go:262-357 | A consolidation succeeds if and only if it is for a calendar month not yet consolidated, names no organisations and can be billed; it stores that bill and leaves the other months as they were |
| `Consolidation.ConsolidatedBillReadsBack` | eventstore/store_consolidated_billable_events.go:262-357 | What was just consolidated reads back, for every choice of organisations, as the live bill |
| `Consolidation.EachMeaning` | eventstore/store_consolidated_billable_events.go:224-239 | The loop over months succeeds if and only if every missing month can be billed, and then adds exactly the missing months |
| `Consolidation.FullMonthsMeaning` | eventstore/store_consolidated_billable_events.go:205-247 | `ConsolidateFullMonths` on success has exactly the months from the start's up to the end's in addition to the earlier ones, each with its bill |
| `Consolidation.FullMonthsIdempotent` | eventstore/store_consolidated_billable_events.go:205-247 | Running it again changes nothing, whatever became of the components |
| `Database.StepKeeps` | eventstore/store.go:211-257 | Every transaction, committed or rolled back, keeps all keys and constraints; the cache only grows, by bills of the components at that step |
| `Database.RunSound` | eventstore/store.go:211-257 | The invariant holds over every run |
| `Database.RunKeepsRates` | eventstore/store.go:211-257 | Over every run all versions other than dummies keep having checked rates |
| `Database.ConsolidatedIsFrozen` | eventstore/store_consolidated_billable_events.go:249-260 | Over every run a consolidated month stays consolidated and its rows never change |
| `Database.ConsolidatedBillIsLiveBill` | eventstore/store_consolidated_billable_events.go:127-165 | Whatever a run ends with, a month it consolidated reads back, for every choice of organisations, as the live bill at the moment of consolidation |
| `Store.RefreshedIsFresh` | eventstore/store.go:211-257 | A refresh that reports success leaves components that are exactly those generated from the events, plans and rates it leaves, whatever was collected between its transactions; a failed one leaves the cache, and old or fresh components |
| `Store.RefreshSucceeds` | eventstore/store.go:211-257 | The first refresh of a process and every later one succeeds if and only if its transactions commit, the events can be rebuilt, the plans pass the check, and every event has plan versions with components, finds the dummy rates where it meets a dummy and evaluates |
| `Store.TurnKeeps` | main_app.go:181-189 | A turn of the loop changes the cache only after a successful refresh |
| `Store.TurnsKeepRates` | main_app.go:176-196 | After any number of turns of the loop the catalogue still meets the hypothesis of that result |
| `EndToEnd.RefreshCharges` | eventstore/store.go:211-257 | After a successful refresh the component table charges, at every instant before it, exactly what the replay of the log that it read finds running, under the names it read and the catalogue it left |
| `Store.LoopConsolidatesFreshBills` | main_app.go:176-196 | Every month the loop ever consolidates is the bill of components generated from the tables of that moment, and reads back as such for ever |
| `EndToEnd.LoopConsolidatesCharges` | main_app.go:176-196 | Every month the loop ever consolidates reads back for ever, for every choice of organisations, as the bill of components that charge exactly what the replay of the log of that moment finds running |
| `Store.RunRefreshAndConsolidateLoop` | main_app.go:176-196 | The loop as it runs computes the turns that the results above are about |
| `Store.EventStore.constructor` | eventstore/store.go:101-108 | A new store over empty tables |
| `Store.EventStore.InitVATRates` | eventstore/store.go:259-283 | Loads the configured rates into an emptied table; fails exactly when some row is refused |
| `Store.EventStore.InitCurrencyRates` | eventstore/store.go:285-309 | Likewise for currencies |
| `Store.EventStore.InitPlans` | eventstore/store.go:316-375 | Likewise for plans and their components; fails also when a component has no rate by the start of its version |
| `Store.EventStore.Init` | eventstore/store.go:171-188 | One transaction: the loaded catalogue, or on any failure the old one |
| `Store.EventStore.RunCreateEvents` | eventstore/store.go:215-220 | Replaces the events by the rebuilt ones, or changes nothing |
| `Store.EventStore.RunFixPlans` | eventstore/store.go:222-240 | Adds dummy plans if configured and checks consistency, or changes nothing |
| `Store.EventStore.RunCreateComponents` | eventstore/store.go:242-247 | Replaces the components by the rebuilt ones, or changes nothing |
| `Store.EventStore.Refresh` | eventstore/store.go:211-257 | Stops at the first transaction that fails; earlier ones stay committed |
| `Store.EventStore.IsRangeConsolidated` | eventstore/store_consolidated_billable_events.go:140-165 | Fails exactly on a bound that is not a date or on a reversed range; otherwise says whether the history has a range with exactly those bounds, and if it does the range is a calendar month that reads back that month's stored rows |
| `Store.EventStore.ConsolidateIn` | eventstore/store_consolidated_billable_events.go:262-357 | History row, then bill rows; succeeds exactly when the specification does |
| `Store.EventStore.Consolidate` | eventstore/store_consolidated_billable_events.go:249-260 | Commits the consolidation or rolls everything back |
| `Store.EventStore.ConsolidateFullMonthsIn` | eventstore/store_consolidated_billable_events.go:205-247 | Consolidates the missing months one after the other |
| `Store.EventStore.ConsolidateFullMonths` | eventstore/store_consolidated_billable_events.go:192-203 | All months or none |
| `StoreConfig.LoadedCatalogueIsValid` | eventstore/migrations/0040_create_base_objects.up.sql:138-208 | A configuration that loads, in whatever order it lists rows, meets every key and check that pricing relies on, and its rates are checked |
| `StoreConfig.LoadedTables` | eventstore/store.go:259-375 | Whatever order the rows are listed in, each VAT rate, currency rate and plan is in force at its own `valid_from` with its own rate, or its own name, sizes and components, and the tables hold nothing else |
| `StoreConfig.LoadSucceeds` | eventstore/store.go:259-375 | A configuration loads if and only if every row meets the checks of its table, no two have the same key and `valid_from`, and each component of a plan has a currency rate and a VAT rate that start by the `valid_from` of the plan |
| `StoreConfig.LoadedPlanInForce` | eventstore/store.go:325-360 | A loaded plan version is in force at its own `valid_from` |
| `Plans.WithDummyMeaning` | eventstore/store.go:630-695 | At most one version is added for a plan, at the epoch and only where there was none; later versions stay |
| `Plans.GenerateColumns` | eventstore/store.go:630-695 | Plans that no event uses stay the same; of a plan in use every version is kept, the one at the epoch with a free component in pounds and standard VAT if it had none; where there was none one is added, free, without sizes, and named after the type and plan of an event that no other event of the plan started after; nothing else is added |
| `Plans.GenerateKeepsValid` | eventstore/store.go:630-695 | Adding dummy plans keeps the keys and checks |
| `Plans.GenerateIdempotent` | eventstore/store.go:630-695 | Repeating it adds nothing |
| `Plans.GenerateCovers` | eventstore/store.go:626-629 | Afterwards an event that lies after the epoch has a plan version at every instant of its duration |
| `Plans.GenerateMakesConsistent` | eventstore/store.go:762-786 | Afterwards the consistency check can only complain about events that ended by the epoch, and says exactly when it does |
| `Plans.GenerateRates` | eventstore/store.go:672-693 | After adding dummy plans, what the rate checks established still holds if and only if pounds and standard VAT have rates by the epoch, or every plan in use already had a component there |
| `Plans.GenerateKeepsChecked` | eventstore/store.go:672-693 | What the checks established of all versions other than dummies is kept, so it holds of the committed catalogue at every later refresh |
| `Plans.DummiesRated` | eventstore/store.go:672-693 | For any catalogue whose other versions have checked rates, dummies of earlier refreshes included: the rates an event meets are all found exactly when those of the dummy component are over every part of the event that falls to a dummy; for instance when they have started by the start of the event |
| `Plans.RebuildWithDummies` | eventstore/store.go:222-247 | Over any such catalogue, before or after adding the dummies, the rebuild succeeds if and only if every event has plan versions with components, the dummy rates are found where dummies are met, and every formula evaluates |
| `Plans.DummyChargedSince` | eventstore/store.go:672-693 | While a dummy is in force the event is in the table, at no cost, from the instant on at which pounds and standard VAT both have rates, and not before |
| `Witnesses.LateDummyRates` | eventstore/store.go:672-693 | An event of a plan nobody configured, and dummy rates that start after it: the rebuild succeeds if and only if the event goes on past that start, and then its beginning is not charged |
| `Plans.PricingComponentsCheckIsVacuous` | eventstore/store.go:723-739 | The check that every version has a component, as written with `count < 0`, accepts every catalogue, including one of a configuration that loads and has a version without components |
| `Plans.ConsistentIsCovered` | eventstore/store.go:760-786 | A non-empty event that passes the consistency check has a plan version in force at every instant of its duration, its plan pieces tiling it, if and only if the first version of its plan starts no later than the event |
| `Plans.ConsistentIsBillable` | eventstore/store.go:779-785 | If every version does have a component, a consistent catalogue can bill every event |
| `Witnesses.UnchargedStart` | eventstore/store.go:760-786 | A concrete valid catalogue with checked rates, and an event that passes the check and the rebuild and is not charged for its first month |
| `Replication.MaturePrefixMeaning` | eventfetchers/cffetcher/cf_client.go:136-142 | The cut keeps entries up to, not including, the first one younger than the minimum age |
| `Replication.ResponseContinues` | eventfetchers/cffetcher/cf_fetcher.go:57-86 | A page continues right after the stored events |
| `Replication.RequestSucceeds` | eventfetchers/cffetcher/cf_fetcher.go:57-86 | The API never rejects the cursor |
| `Replication.AcceptedSettings` | eventfetchers/cffetcher/cf_fetcher.go:57-82 | A fetch is refused for its settings exactly if it asks for more than 100 entries at once, or for any younger than five minutes; a limit below 1 means 50 and an age of 0 five minutes |
| `Replication.StoreNext` | eventstore/store.go:377-424 | Storing what follows the stored events is all or nothing and keeps them the beginning of the log |
| `Replication.StorableEntry` | eventio/event_raw.go:22-36 | The store refuses exactly an entry without a guid or message, one of the zero time, one of a kind that is neither `app` nor `service`, and an `app` entry that is not after the epoch |
| `Replication.StoreAllMeaning` | eventstore/store.go:377-424 | A batch is refused exactly if one of its entries is; otherwise the table stays as it was and gets, at its end, one row of the batch for each guid that is new, and no other |
| `Replication.StoringAgain` | eventstore/store.go:406-424 | Storing a batch again, as after a commit that was reported to have failed, changes nothing |
| `Replication.PrefixIsVerbatim` | eventfetchers/cffetcher/cf_fetcher.go:90-100 | To be a beginning of the log is to hold its first entries one by one, each with its own guid, time and message and the kind of the collector |
| `Replication.ActionKeeps` | eventcollector/collector.go:109-138 | Every action of the protocol, including late upstream commits, fetch failures and ambiguous commits, keeps the invariant |
| `Replication.ReplicationIsSafe` | eventcollector/collector.go:109-153 | If an entry commits upstream within `lag`, and `lag` plus the time a page is on its way is at most the minimum age, then over every interleaving the stored events are a duplicate-free beginning of the upstream log, entry by entry and column by column |
| `Replication.StoredIsPast` | eventfetchers/cffetcher/cf_client.go:136-142 | Whatever was collected is at least `lag` old, so the minimum age keeps entries from the future out of the stored log |
| `Replication.SlowPageLosesEvent` | eventfetchers/cffetcher/cf_client.go:131-142 | The condition is exact: whenever `lag` plus the page's delay exceeds the minimum age, a run of otherwise legal actions, in which every entry commits within `lag` of its creation, skips an event that no continuation ever stores |
| `Replication.SkippedIsLost` | eventfetchers/cffetcher/cf_fetcher.go:57-64 | Once the cursor and any page on its way are beyond an entry, nothing that happens afterwards stores it |
| `Replication.RefusedEntryBlocks` | eventstore/store.go:377-424 | While collection is safe (`lag` plus the delay of a page is at most the minimum age): once an entry that the store refuses is old enough and within the next page, the table stays as it is over every continuation: each page that reaches the entry is rolled back as a whole |
| `Replication.CollectProgress` | eventcollector/collector.go:109-138 | One undisturbed collect stores as many of the waiting (old enough) entries as the limit allows and says whether there were any, if the store accepts those |
| `Replication.CatchesUp` | eventcollector/collector.go:130-136 | With `n` such entries waiting, `ceil(n / limit)` collects store them all without leaving `Collecting`; the next moves to `Scheduled` |
| `Collector.WakeIsRequestThenDeliver` | eventcollector/collector.go:71-105 | A turn that gets a page is a request of the protocol followed by the delivery of that page |
| `Collector.CollectorIsSafe` | eventcollector/collector.go:65-138 | For any number of wake-ups, whatever fails in them and whatever upstream commits within `lag` before and during them, a table that is a duplicate-free beginning of the upstream log, settled by `lag`, is one again at the end, if `lag` plus the time from reading to cutting a page is at most the minimum age; so restarts chain |
| `Collector.EmptyIsSettled` | eventcollector/collector.go:65-138 | A collector that starts with an empty table, at any moment, meets the hypothesis of that result |
| `Collector.WakeState` | eventcollector/collector.go:130-136 | A turn leaves `Collecting` exactly when it stored a batch that does not end with the event it started after, whatever the state before |
| `Collector.Get` | eventfetchers/cffetcher/cf_client.go:136-144 | Cutting the decoded list in place at the first young record keeps the mature prefix |
| `Collector.FetchEvents` | eventfetchers/cffetcher/cf_fetcher.go:57-112 | Checks cursor, limit and age in order, requests a page, cuts it and converts it entry by entry |
| `Collector.Convert` | eventfetchers/cffetcher/cf_fetcher.go:90-100 | Converts each record, in order: guid, time and message are kept, the kind is the configured one |
| `Collector.RawEventStore.GetLastEvent` | eventcollector/collector.go:140-153 | Nothing exactly for an empty table, otherwise the row that all others were stored before |
| `Collector.RawEventStore.StoreEvents` | eventstore/store.go:377-424 | All events in one transaction, skipping known guids, or none |
| `Collector.EventCollector.constructor` | eventcollector/collector.go:176-188 | Starts in `Syncing`; the configured initial wait is dropped, so that the first wait is zero |
| `Collector.EventCollector.Collect` | eventcollector/collector.go:109-138 | Stores a batch and sets the state, or returns an error and leaves the state; after a success the wait is the short one exactly when something new was stored |
| `Collector.EventCollector.Run` | eventcollector/collector.go:65-106 | After any number of wake-ups the table, the state and the count are those of the specification, the wait is the short one exactly when the last turn stored something new, and a table that started as a settled, duplicate-free beginning of the upstream log still is one |
| `Handler.KeyIsPair` | apiserver/server_billable_handler.go:91 | The key of a task total determines its organisation and space |
| `Handler.TaskTotalsMeaning` | apiserver/server_billable_handler.go:97-140 | There is exactly one total for each organisation and space with tasks, holding the sum of their prices under the guid of the first of them |
| `Handler.TotalOfSpace` | apiserver/server_billable_handler.go:91-140 | With GUIDs of one length, there is one total for each organisation and space with tasks, and it holds the sum of the prices of exactly that space's tasks |
| `Handler.MonthConserves` | apiserver/server_billable_handler.go:87-183 | Rows and totals emitted for a month sum to the prices read, before and after VAT, in whatever order the totals are sent |
| `HandlerRun.StreamRows` | apiserver/server_billable_handler.go:76-165 | Of the rows that the cursor yields, others than tasks pass through unchanged and in order, the header is sent before the first of them, tasks are summed, and an undecodable row is an error after exactly the rows before it were written |
| `HandlerRun.SendTotals` | apiserver/server_billable_handler.go:167-183 | Every total is sent once, each after a delimiter, in any order |
| `HandlerRun.Handle` | apiserver/server_billable_handler.go:49-190 | The response is the body of the specification for the rows that the cursors yield, a broken cursor being taken for its end; it is an error exactly when some month's check or query fails or a row cannot be decoded, after exactly the months and rows before it were written |
| `HandlerRun.ResponseIsArray` | apiserver/server_billable_handler.go:158-190 | An error-free response is a well-formed array if and only if no task is read in a month before the first month with any other row |
| `Handler.TasksAloneAreNotAnArray` | apiserver/server_billable_handler.go:175-178 | A query that meets only a task writes a delimiter before the opening bracket |
| `Response.ReadColumns` | apiserver/server_billable_handler.go:76-97 | The guid, type, organisation, space and prices that the handler goes by are those of the bill rows, one by one |
| `Response.BodyConserves` | apiserver/server_billable_handler.go:76-190 | The amounts in the whole response, before and after VAT, add up to the prices of the rows read, in whatever order totals are sent |
| `Response.BodyRows` | apiserver/server_billable_handler.go:158-165 | The rows written are exactly the rows read other than tasks, in order |
| `Response.ResponseConserves` | apiserver/server_billable_handler.go:49-190 | Whatever mixture of cached and live months is served, the amounts in the response add up to the bills served, before and after VAT |
| `Response.ResponseTotal` | apiserver/server_billable_handler.go:49-190 | With an up-to-date cache and metered components they are, on either basis, the total of one live bill for the whole window plus between nothing and one started hour of each component that the query concerns |
| `Response.BrokenCursorsAreSilent` | apiserver/server_billable_handler.go:76-190 | When cursors break, the response is a complete body without an error that has exactly the rows fetched, and is short of exactly the prices, before and after VAT, of those not fetched; it is made of all rows if and only if no cursor left one |
| `Response.OneLostRow` | apiserver/server_billable_handler.go:76-190 | One row and a cursor that breaks before it: an empty array and no error |
| `ByDay.AttributedBounds` | eventstore/sql/create_view_billable_event_components_by_day.sql:35-74 | Days are never attributed more than the component's duration, and fall short by at most a second for each day and, only when it ends earlier in the day than it starts, by its last day |
| `ByDay.AttributedExactly` | eventstore/sql/create_view_billable_event_components_by_day.sql:71-74 | A day is attributed what the component has of it, except for what it has of the day's last second |
| `ByDay.AttributedTotal` | eventstore/sql/create_view_billable_event_components_by_day.sql:35-74 | All days together are attributed the duration, except for exactly those last seconds and, when the component ends earlier in the day than it starts, its last day |
| `ByDay.SeriesReaches` | eventstore/sql/create_view_billable_event_components_by_day.sql:35-39 | The day series stops a day short exactly when the component ends earlier in the day than it starts |
| `ByDay.DailyCostsBounded` | eventstore/sql/create_view_billable_event_components_by_day.sql:105-110 | Daily costs never sum above a non-negative cost, and what is missing is at most the price of that shortfall |
| `CfHistory.RecordAllByGuid` | cfstore/cfstore.go:227-274 | The history of a guid depends on its own observations only |
| `CfHistory.HistoryAnswers` | cfstore/cfstore.go:176-186 | The stored versions answer every lookup with the last appearance updated by then, or the first one from its creation on |
| `CfHistory.JoinedNameAppears` | eventstore/sql/create_events.sql:273-298 | So do the compacted versions as the events join them |
| `CfHistory.ObservingAgain` | cfstore/cfstore.go:188-205 | Observing a thing again a third time adds nothing, whatever was observed; the second time may add one row, which no lookup can see if the observations are regular |
| `CfHistory.ListingAgain` | cfstore/cfstore.go:167-211 | A whole listing that names each thing at most once, collected again, is invisible to every lookup of regular observations |
| `CfStore.RunConsistent` | cfstore/cfstore.go:86-151 | Over every run of collections, failed, rolled back or not, keys stay unique, names non-empty, and every plan version references an existing version of its service |
| `CfStore.ForeignKeyNeverFails` | cfstore/cfstore.go:106-118 | Inserting a plan is never refused for its reference to a service |
| `CfStore.PlanRecordsListed` | cfstore/cfstore.go:86-151 | What is recorded of a listing of plans is those whose service is known, in order and unchanged (guid, times, name, service, unique id), each with the newest version of its service |
| `CfStore.CollectingAgain` | cfstore/cfstore.go:38-151 | For every consistent store and every transaction, `Init` and plans included, re-collecting the same listings reaches a fixpoint within two runs |
| `CfStore.RunRecords` | cfstore/cfstore.go:38-65 | After a run the tables hold what was recorded of the listings that took effect |
| `CfStore.NamesAppear` | cfstore/cfstore.go:167-334 | After any run an event finds the org, space and service name last listed by its end, or the first one listed |
| `CfStore.PlanAppears` | cfstore/cfstore.go:86-151 | ... and the plan that was listed while its service was known |
| `CfStore.NamesAreValid` | eventstore/sql/create_events.sql:217-324 | The tables the collector leaves are what the rebuild of the events needs |
| `CfStore.HistoricDataStore.constructor` | cfstore/cfstore.go:337-347 | A store over empty tables |
| `CfStore.HistoricDataStore.CollectServicesIn` | cfstore/cfstore.go:167-211 | Records every listed service, or fails on an empty label or an unreadable listing |
| `CfStore.HistoricDataStore.CollectServicePlansIn` | cfstore/cfstore.go:86-151 | Skips plans of unknown services and records the others with the newest version of their service |
| `CfStore.HistoricDataStore.CollectOrgsIn` | cfstore/cfstore.go:227-274 | Records every listed organisation |
| `CfStore.HistoricDataStore.CollectSpacesIn` | cfstore/cfstore.go:290-335 | Records every listed space |
| `CfStore.HistoricDataStore.Collect` | cfstore/cfstore.go:38-84 | Each collection, and all four for `Init`, is one transaction: everything or nothing |

## Left out

- How `raw_events` is assembled from the four event tables (`eventstore/sql/create_events.sql:26-170`): the JSON fields, the space-name filter, the Compose join and `pg_size_bytes`. The log of the model is its result.
- Ties: rows of the log with equal `created_at` and sequence may come in any order in PostgreSQL; the model takes the log in one such order and proves everything for each.
- Formula text: `compile_formula`, `validate_formula`, integer division between literals, casts and `^`. A formula is an expression tree with +, -, *, /, `ceil` and the four variables, over exact reals; the rounding of `numeric` division is not modelled.
- Bounds on splitting by month for formulas that are not sums of multiples of seconds and started hours; such formulas are priced and billed like all others.
- Blank names of plans and components, which their tables refuse; configuration files and environment variables. `ConsolidateAll`'s two dates are parameters of a turn.
- The rate and plan listing queries, total costs, the forecast and its rollback, reconciliation scripts and metrics: they would only add easy members.
- HTTP, authorisation, JSON encoding, `ParseFloat` and `%.16f`. Prices in the handler are exact reals, and of an event's other fields the handler model keeps the guid, the type, the organisation and the space.
- The order of bill rows (`order by event_guid`), of `json_agg` and of map iteration: bills are listed in the order of their components, and `HandlerRun.SendTotals` allows every order of the totals.
- `quota_definition_guid`, which is always NULL, `owner`, descriptions and other columns of the name tables that no event reads, and `created_at` of the history tables.
- Dates outside the years 0000 to 9999, time zones other than UTC, and PostgreSQL's own range of timestamps.
- Isolation between concurrent transactions of several processes: transactions take effect one after the other, in any order.
- `time.After`, cancellation and timeouts: each wake-up or turn is given, with whatever failures it meets, and loops that never end are run for any number of turns.
- Upstream deletes old usage events after a while; the upstream log of the model only grows. Several collectors of the same kind at once are not modelled, nor is the `compose` kind of the store.
- The materialised view by day: only the day series and the cost of each day. The other columns are copied.
- MonthSplit.SplitBills: requires that every component the query concerns is metered by the second and the started hour and that an hour costs no less than nothing, because the bound has that form; `MonthSplit.MonthlyBillsCost` gives the law, component by component, for every price.
- Serving.AnswerTotal: requires the same of those components, and a cache whose months still agree with the live bill.
- Response.ResponseTotal: requires the same.
