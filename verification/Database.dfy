/** The billing database, the transactions that change it, and what every run of them keeps. */
module Database {
  import opened Base
  import opened Calendar
  import opened EventFilters
  import opened EventLog
  import opened Events
  import opened Components
  import opened ComponentTable
  import opened MonthlyBills
  import opened StoreConfig
  import opened Plans
  import Bills
  import Consolidation

  /** Raw events and CF names are written by the collectors; the rest is derived from them. */
  datatype Db = Db(
    log: Log, names: Names, events: seq<EventRow>, cat: Catalogue, components: seq<ComponentRow>,
    cache: Consolidation.Cache)

  // Each transaction, on values: its result if nothing fails, or the error that rolls it back.

  /** `Init`: the catalogue is deleted and loaded again from the configuration. */
  function Init(db: Db, cfg: Config): Result<Db> {
    match Load(cfg) case Err(e) => Err(e) case Ok(cat) => Ok(db.(cat := cat))
  }

  /** `create_events.sql` */
  function RebuildEvents(db: Db, now: int): Result<Db> {
    match CreateEvents(db.log, db.names, now) case Err(e) => Err(e) case Ok(events) => Ok(db.(events := events))
  }

  /** The transaction of `regenerateEvents` that runs between the two rebuilds. */
  function FixPlans(db: Db, ignoreMissing: bool): Result<Db> {
    var cat := if ignoreMissing then GenerateMissingPlans(db.cat, db.events) else db.cat;
    if PlansConsistent(cat, db.events) then Ok(db.(cat := cat)) else Err("missing plan")
  }

  /** `create_billable_event_components.sql` */
  function RebuildComponents(db: Db): Result<Db> {
    match BuildComponents(db.cat, db.events) case Err(e) => Err(e) case Ok(rows) => Ok(db.(components := rows))
  }

  function Consolidate(db: Db, f: EventFilter): Result<Db> {
    match Consolidation.Consolidate(db.cache, db.components, f) case Err(e) => Err(e) case Ok(c) => Ok(db.(cache := c))
  }

  function ConsolidateFullMonths(db: Db, startAt: Option<CivilDate>, endAt: Option<CivilDate>): Result<Db> {
    match Consolidation.ConsolidateFullMonths(db.cache, db.components, startAt, endAt)
    case Err(e) => Err(e)
    case Ok(c) => Ok(db.(cache := c))
  }

  /** Work under a transaction: a failed body or a failed commit leaves the database as it was. */
  function Commit(db: Db, result: Result<Db>, commits: bool): Db {
    if result.Ok? && commits then result.value else db
  }

  // ----- The invariant -----

  ghost predicate Sound(db: Db) {
    && db.names.Valid()
    && DistinctGuids(db.events)
    && (forall ev :: ev in db.events ==> !ev.duration.Empty())
    && db.cat.Valid()
    && MonthSafe(db.components)
    && Consolidation.Valid(db.cache)
  }

  /** The components are those of the current events, plans and rates. */
  ghost predicate Fresh(db: Db) {
    BuildComponents(db.cat, db.events) == Ok(db.components)
  }

  lemma InitSound(db: Db, cfg: Config)
    requires Sound(db) && Init(db, cfg).Ok?
    ensures Sound(Init(db, cfg).value) && RatesChecked(Init(db, cfg).value.cat)
    ensures Init(db, cfg).value.cache == db.cache
  {
    LoadedCatalogueIsValid(cfg);
  }

  lemma RebuildEventsSound(db: Db, now: int)
    requires Sound(db) && RebuildEvents(db, now).Ok?
    ensures Sound(RebuildEvents(db, now).value) && RebuildEvents(db, now).value.cache == db.cache
  {
    CreateEventsMeaning(db.log, db.names, now);
  }

  lemma FixPlansSound(db: Db, ignoreMissing: bool)
    requires Sound(db) && FixPlans(db, ignoreMissing).Ok?
    ensures Sound(FixPlans(db, ignoreMissing).value) && FixPlans(db, ignoreMissing).value.cache == db.cache
  {
    GenerateKeepsValid(db.cat, db.events);
  }

  lemma RebuildComponentsSound(db: Db)
    requires Sound(db) && RebuildComponents(db).Ok?
    ensures Sound(RebuildComponents(db).value) && Fresh(RebuildComponents(db).value)
    ensures RebuildComponents(db).value.cache == db.cache
  {
    BuiltTableIsMonthSafe(db.cat, db.events);
  }

  // ----- Runs -----

  /** A committed or rolled-back transaction of any process. `Collected` is what the collectors commit. */
  datatype Step =
    | Collected(log: Log, names: Names)
    | InitTx(cfg: Config, commits: bool)
    | EventsTx(now: int, commits: bool)
    | PlansTx(ignoreMissing: bool, commits: bool)
    | ComponentsTx(commits: bool)
    | ConsolidateTx(filter: EventFilter, commits: bool)
    | FullMonthsTx(startAt: Option<CivilDate>, endAt: Option<CivilDate>, commits: bool)

  ghost predicate Legal(step: Step) {
    step.Collected? ==> step.names.Valid()
  }

  function Apply(db: Db, step: Step): Db {
    match step
    case Collected(log, names) => db.(log := log, names := names)
    case InitTx(cfg, commits) => Commit(db, Init(db, cfg), commits)
    case EventsTx(now, commits) => Commit(db, RebuildEvents(db, now), commits)
    case PlansTx(ignoreMissing, commits) => Commit(db, FixPlans(db, ignoreMissing), commits)
    case ComponentsTx(commits) => Commit(db, RebuildComponents(db), commits)
    case ConsolidateTx(f, commits) => Commit(db, Consolidate(db, f), commits)
    case FullMonthsTx(a, b, commits) => Commit(db, ConsolidateFullMonths(db, a, b), commits)
  }

  function Run(db: Db, steps: seq<Step>): Db {
    if steps == [] then db else Apply(Run(db, steps[..|steps| - 1]), steps[|steps| - 1])
  }

  /** Ranges already in `c` are untouched in `d`, and every range that is new is a calendar month holding
      the bill of `table`. */
  ghost predicate Grown(c: Consolidation.Cache, d: Consolidation.Cache, table: seq<ComponentRow>) {
    && (forall r :: r in c.history ==>
        r in d.history && Consolidation.StoredRows(d, r) == Consolidation.StoredRows(c, r))
    && (forall r :: r in d.history && r !in c.history ==>
          && r == Consolidation.MonthRange(r.start.month)
          && Bills.Bill(table, MonthFilter(r.start.month, [])) == Ok(Consolidation.StoredRows(d, r)))
  }

  lemma ConsolidateGrows(db: Db, f: EventFilter)
    requires Sound(db) && Consolidate(db, f).Ok?
    ensures Sound(Consolidate(db, f).value) && Grown(db.cache, Consolidate(db, f).value.cache, db.components)
  {
    hide Bills.Bill, Consolidation.StoredRows, Consolidation.Consolidate, MonthSafe;
    Consolidation.ConsolidateMeaning(db.cache, db.components, f);
    var d := Consolidate(db, f).value.cache;
    assert forall r :: r in d.history <==> r in db.cache.history || r == Consolidation.RangeOf(f).value by {
      assert d.history[|db.cache.history|] == Consolidation.RangeOf(f).value;
    }
  }

  lemma FullMonthsGrows(db: Db, startAt: Option<CivilDate>, endAt: Option<CivilDate>)
    requires Sound(db) && ConsolidateFullMonths(db, startAt, endAt).Ok?
    ensures Sound(ConsolidateFullMonths(db, startAt, endAt).value)
    ensures Grown(db.cache, ConsolidateFullMonths(db, startAt, endAt).value.cache, db.components)
  {
    hide Bills.Bill, Consolidation.StoredRows, Consolidation.ConsolidateEach, MonthSafe;
    assert startAt.Some? && endAt.Some?;
    Consolidation.FullMonthsMeaning(db.cache, db.components, startAt.value, endAt.value);
    var c, d := db.cache, ConsolidateFullMonths(db, startAt, endAt).value.cache;
    assert Consolidation.Extended(c, d, db.components, startAt.value.month, endAt.value.month);
    forall r | r in d.history && r !in c.history
      ensures r == Consolidation.MonthRange(r.start.month)
      ensures Bills.Bill(db.components, MonthFilter(r.start.month, [])) == Ok(Consolidation.StoredRows(d, r))
    {
      assert Consolidation.MonthRange(r.start.month) !in c.history;
    }
  }

  /** Every step keeps the invariant; the cache only ever grows, by bills of the components at that step. */
  lemma StepKeeps(db: Db, step: Step)
    requires Sound(db) && Legal(step)
    ensures Sound(Apply(db, step)) && Grown(db.cache, Apply(db, step).cache, db.components)
  {
    hide Grown, Sound, Init, RebuildEvents, FixPlans, RebuildComponents, Consolidate, ConsolidateFullMonths;
    GrownSelf(db.cache, db.components);
    match step
    case Collected(log, names) =>
      CollectedSound(db, log, names);
    case InitTx(cfg, commits) =>
      if commits && Init(db, cfg).Ok? {
        InitSound(db, cfg);
      }
    case EventsTx(now, commits) =>
      if commits && RebuildEvents(db, now).Ok? {
        RebuildEventsSound(db, now);
      }
    case PlansTx(ignoreMissing, commits) =>
      if commits && FixPlans(db, ignoreMissing).Ok? {
        FixPlansSound(db, ignoreMissing);
      }
    case ComponentsTx(commits) =>
      if commits && RebuildComponents(db).Ok? {
        RebuildComponentsSound(db);
      }
    case ConsolidateTx(f, commits) =>
      if commits && Consolidate(db, f).Ok? {
        ConsolidateGrows(db, f);
      }
    case FullMonthsTx(a, b, commits) =>
      if commits && ConsolidateFullMonths(db, a, b).Ok? {
        FullMonthsGrows(db, a, b);
      }
  }

  lemma GrownSelf(c: Consolidation.Cache, table: seq<ComponentRow>)
    ensures Grown(c, c, table)
  {
  }

  lemma CollectedSound(db: Db, log: Log, names: Names)
    requires Sound(db) && names.Valid()
    ensures Sound(db.(log := log, names := names))
  {
  }

  /** No step undoes the rate checks but for the dummies, and `Init` restores them. */
  lemma StepKeepsRates(db: Db, step: Step)
    requires Sound(db) && CheckedButDummies(db.cat)
    ensures CheckedButDummies(Apply(db, step).cat)
  {
    hide CheckedButDummies, Load, CreateEvents, BuildComponents, GenerateMissingPlans, PlansConsistent, RatesChecked;
    match step
    case InitTx(cfg, commits) =>
      if commits && Init(db, cfg).Ok? {
        InitSound(db, cfg);
        CheckedIsCheckedButDummies(Init(db, cfg).value.cat);
      }
    case PlansTx(ignoreMissing, commits) =>
      GenerateKeepsChecked(db.cat, db.events);
    case _ =>
  }

  lemma {:induction false} RunKeepsRates(db: Db, steps: seq<Step>)
    requires Sound(db) && CheckedButDummies(db.cat) && forall s :: s in steps ==> Legal(s)
    ensures CheckedButDummies(Run(db, steps).cat)
  {
    hide Sound, Apply, CheckedButDummies;
    if steps != [] {
      RunSound(db, steps[..|steps| - 1]);
      RunKeepsRates(db, steps[..|steps| - 1]);
      StepKeepsRates(Run(db, steps[..|steps| - 1]), steps[|steps| - 1]);
    }
  }

  lemma {:induction false} RunSound(db: Db, steps: seq<Step>)
    requires Sound(db) && forall s :: s in steps ==> Legal(s)
    ensures Sound(Run(db, steps))
  {
    hide Sound, Apply;
    if steps != [] {
      RunSound(db, steps[..|steps| - 1]);
      StepKeeps(Run(db, steps[..|steps| - 1]), steps[|steps| - 1]);
    }
  }

  /** A consolidated month is frozen: over every run of commits and rollbacks it stays consolidated and
      its rows never change. */
  lemma {:induction false} ConsolidatedIsFrozen(db: Db, steps: seq<Step>, r: Consolidation.DateRange)
    requires Sound(db) && (forall s :: s in steps ==> Legal(s)) && r in db.cache.history
    ensures r in Run(db, steps).cache.history
    ensures Consolidation.StoredRows(Run(db, steps).cache, r) == Consolidation.StoredRows(db.cache, r)
  {
    hide Sound, Apply, Consolidation.StoredRows;
    if steps != [] {
      var front := steps[..|steps| - 1];
      ConsolidatedIsFrozen(db, front, r);
      RunSound(db, front);
      StepKeeps(Run(db, front), steps[|steps| - 1]);
    }
  }

  lemma {:induction false} RunSplit(db: Db, a: seq<Step>, b: seq<Step>)
    ensures Run(db, a + b) == Run(Run(db, a), b)
    decreases |b|
  {
    hide Apply;
    if b == [] {
      assert a + b == a;
    } else {
      RunSplit(db, a, b[..|b| - 1]);
      assert (a + b)[..|a + b| - 1] == a + b[..|b| - 1];
    }
  }

  /** The step of a run that consolidated `r`. */
  lemma {:induction false} ConsolidatingStep(db: Db, steps: seq<Step>, r: Consolidation.DateRange) returns (n: nat)
    requires Sound(db) && forall s :: s in steps ==> Legal(s)
    requires r !in db.cache.history && r in Run(db, steps).cache.history
    ensures n < |steps|
    ensures r !in Run(db, steps[..n]).cache.history && r in Run(db, steps[..n + 1]).cache.history
  {
    hide Sound, Apply;
    var last := |steps| - 1;
    if r in Run(db, steps[..last]).cache.history {
      n := ConsolidatingStep(db, steps[..last], r);
      assert steps[..last][..n] == steps[..n] && steps[..last][..n + 1] == steps[..n + 1];
    } else {
      n := last;
      assert steps[..last + 1] == steps;
    }
  }

  /** Whatever a run ends with, a month it consolidated reads back, for every choice of organisations, as
      the live bill at the moment of consolidation. */
  lemma ConsolidatedBillIsLiveBill(db: Db, steps: seq<Step>, k: int, orgs: seq<string>) returns (n: nat)
    requires Sound(db) && forall s :: s in steps ==> Legal(s)
    requires Consolidation.MonthRange(k) !in db.cache.history
    requires Consolidation.MonthRange(k) in Run(db, steps).cache.history
    ensures n < |steps|
    ensures Consolidation.IsRangeConsolidated(Run(db, steps).cache, MonthFilter(k, orgs)) == Ok(true)
    ensures Consolidation.GetConsolidated(Run(db, steps).cache, MonthFilter(k, orgs))
         == Bills.Bill(Run(db, steps[..n]).components, MonthFilter(k, orgs))
  {
    hide Sound, Apply, Bills.Bill, Consolidation.StoredRows, Consolidation.GetConsolidated;
    var r := Consolidation.MonthRange(k);
    n := ConsolidatingStep(db, steps, r);
    var before, after, rest := Run(db, steps[..n]), Run(db, steps[..n + 1]), steps[n + 1..];
    RunSound(db, steps[..n]);
    RunSound(db, steps[..n + 1]);
    assert steps[..n + 1][..n] == steps[..n];
    StepKeeps(before, steps[n]);
    assert Grown(before.cache, after.cache, before.components);
    assert steps[..n + 1] + rest == steps;
    RunSplit(db, steps[..n + 1], rest);
    ConsolidatedIsFrozen(after, rest, r);
    RunSound(db, steps);
    ReadBack(Run(db, steps), before.components, k, orgs);
  }

  lemma ReadBack(db: Db, table: seq<ComponentRow>, k: int, orgs: seq<string>)
    requires Sound(db)
    requires Consolidation.MonthRange(k) in db.cache.history
    requires Bills.Bill(table, MonthFilter(k, []))
            == Ok(Consolidation.StoredRows(db.cache, Consolidation.MonthRange(k)))
    ensures Consolidation.IsRangeConsolidated(db.cache, MonthFilter(k, orgs)) == Ok(true)
    ensures Consolidation.GetConsolidated(db.cache, MonthFilter(k, orgs)) == Bills.Bill(table, MonthFilter(k, orgs))
  {
    var f := MonthFilter(k, orgs);
    assert Consolidation.RangeOf(f) == Ok(Consolidation.MonthRange(k));
    Consolidation.ConsolidatedIsReadable(db.cache, f);
    Bills.BillForOrgs(table, f, orgs);
  }
}
