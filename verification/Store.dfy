/** `EventStore` and the processing loop: the transactions as they are carried out, step by step. */
module Store {
  import opened Base
  import opened Calendar
  import opened EventFilters
  import opened EventLog
  import opened Events
  import opened Components
  import opened ComponentTable
  import opened StoreConfig
  import opened Plans
  import opened Database
  import Bills
  import Consolidation

  /** What the outside world does to one refresh: whether each commit and the by-day view go through,
      and what the collectors commit before each transaction. */
  datatype Weather = Weather(
    now: int, commits1: bool, commits2: bool, commits3: bool, viewOk: bool,
    between1: (Log, Names), between2: (Log, Names), between3: (Log, Names))
  {
    ghost predicate Legal() {
      between1.1.Valid() && between2.1.Valid() && between3.1.Valid()
    }
  }

  function Collect(db: Db, c: (Log, Names)): Db {
    db.(log := c.0, names := c.1)
  }

  /** `regenerateEvents` on values: the database it leaves, and whether it returned no error. */
  function Refreshed(db: Db, ignoreMissing: bool, w: Weather): (Db, bool) {
    var d1 := Collect(db, w.between1);
    var r1 := RebuildEvents(d1, w.now);
    if r1.Err? || !w.commits1 then (d1, false)
    else
      var d2 := Collect(r1.value, w.between2);
      var r2 := FixPlans(d2, ignoreMissing);
      if r2.Err? || !w.commits2 then (d2, false)
      else
        var d3 := Collect(r2.value, w.between3);
        var r3 := RebuildComponents(d3);
        if r3.Err? || !w.commits3 then (d3, false)
        else (r3.value, w.viewOk)
  }

  /** A refresh that reports success leaves components that are exactly those generated from the events,
      plans and rates it leaves, whatever the collectors did meanwhile; a failed one changes neither the
      cache nor, unless only the by-day view failed, the components. */
  lemma RefreshedIsFresh(db: Db, ignoreMissing: bool, w: Weather)
    requires Sound(db) && w.Legal()
    ensures Sound(Refreshed(db, ignoreMissing, w).0)
    ensures Refreshed(db, ignoreMissing, w).0.cache == db.cache
    ensures Refreshed(db, ignoreMissing, w).1 ==> Fresh(Refreshed(db, ignoreMissing, w).0)
    ensures !Refreshed(db, ignoreMissing, w).1 ==>
              Refreshed(db, ignoreMissing, w).0.components == db.components || Fresh(Refreshed(db, ignoreMissing, w).0)
  {
    hide Sound, Fresh, RebuildComponents, FixPlans, RebuildEvents;
    var d1 := Collect(db, w.between1);
    CollectedSound(db, w.between1.0, w.between1.1);
    var r1 := RebuildEvents(d1, w.now);
    if r1.Ok? && w.commits1 {
      RebuildEventsSound(d1, w.now);
      CollectedSound(r1.value, w.between2.0, w.between2.1);
      var d2 := Collect(r1.value, w.between2);
      var r2 := FixPlans(d2, ignoreMissing);
      if r2.Ok? && w.commits2 {
        FixPlansSound(d2, ignoreMissing);
        CollectedSound(r2.value, w.between3.0, w.between3.1);
        var d3 := Collect(r2.value, w.between3);
        if RebuildComponents(d3).Ok? && w.commits3 {
          RebuildComponentsSound(d3);
        }
        KeepComponents(d1, d2, w.now, ignoreMissing);
      }
      KeepComponents(d1, d2, w.now, ignoreMissing);
    }
  }

  /** The catalogue and the events that the third transaction of a refresh finds. */
  function Prepared(db: Db, ignoreMissing: bool, w: Weather): Result<Db> {
    match RebuildEvents(Collect(db, w.between1), w.now)
    case Err(e) => Err(e)
    case Ok(d) => FixPlans(Collect(d, w.between2), ignoreMissing)
  }

  lemma PreparedSound(db: Db, ignoreMissing: bool, w: Weather)
    requires Sound(db) && CheckedButDummies(db.cat) && w.Legal() && Prepared(db, ignoreMissing, w).Ok?
    ensures Sound(Prepared(db, ignoreMissing, w).value) && CheckedButDummies(Prepared(db, ignoreMissing, w).value.cat)
  {
    hide Sound, CheckedButDummies, RebuildEvents, FixPlans;
    CollectedSound(db, w.between1.0, w.between1.1);
    var d1 := Collect(db, w.between1);
    var r1 := RebuildEvents(d1, w.now).value;
    RebuildEventsSound(d1, w.now);
    CollectedSound(r1, w.between2.0, w.between2.1);
    FixPlansSound(Collect(r1, w.between2), ignoreMissing);
    RebuildKeepsCatalogue(d1, w.now);
    StepKeepsRates(Collect(r1, w.between2), PlansTx(ignoreMissing, true));
  }

  lemma RebuildKeepsCatalogue(db: Db, now: int)
    requires RebuildEvents(db, now).Ok?
    ensures RebuildEvents(db, now).value.cat == db.cat
  {
  }

  /** Exactly when a refresh succeeds, also long after dummy plans were first committed: the events can be
      rebuilt, every plan in use has an overlapping version, every event is billable at rates that are found
      wherever it meets a dummy, and every commit and the by-day view go through. */
  lemma RefreshSucceeds(db: Db, ignoreMissing: bool, w: Weather)
    requires Sound(db) && CheckedButDummies(db.cat) && w.Legal()
    ensures Refreshed(db, ignoreMissing, w).1 <==>
            && Prepared(db, ignoreMissing, w).Ok?
            && Buildable(Prepared(db, ignoreMissing, w).value.cat, Prepared(db, ignoreMissing, w).value.events)
            && w.commits1 && w.commits2 && w.commits3 && w.viewOk
  {
    hide Sound, CheckedButDummies, RebuildEvents, FixPlans, BuildComponents, Buildable;
    if Prepared(db, ignoreMissing, w).Ok? {
      PreparedSound(db, ignoreMissing, w);
      var d := Prepared(db, ignoreMissing, w).value;
      SoundParts(d);
      RebuildExactly(d.cat, d.events);
    }
  }

  lemma SoundParts(db: Db)
    requires Sound(db)
    ensures db.cat.Valid() && DistinctGuids(db.events)
  {
  }

  lemma KeepComponents(d1: Db, d2: Db, now: int, ignoreMissing: bool)
    ensures RebuildEvents(d1, now).Ok? ==> RebuildEvents(d1, now).value.components == d1.components
    ensures FixPlans(d2, ignoreMissing).Ok? ==> FixPlans(d2, ignoreMissing).value.components == d2.components
  {
  }

  /** One turn of `runRefreshAndConsolidateLoop`. */
  datatype Turn = Turn(weather: Weather, startAt: Option<CivilDate>, endAt: Option<CivilDate>, commits: bool)

  function AfterTurn(db: Db, ignoreMissing: bool, turn: Turn): Db {
    var (d, ok) := Refreshed(db, ignoreMissing, turn.weather);
    if ok then Commit(d, ConsolidateFullMonths(d, turn.startAt, turn.endAt), turn.commits) else d
  }

  function AfterTurns(db: Db, ignoreMissing: bool, turns: seq<Turn>): Db {
    if turns == [] then db
    else AfterTurn(AfterTurns(db, ignoreMissing, turns[..|turns| - 1]), ignoreMissing, turns[|turns| - 1])
  }

  lemma TurnKeeps(db: Db, ignoreMissing: bool, turn: Turn)
    requires Sound(db) && turn.weather.Legal()
    ensures Sound(AfterTurn(db, ignoreMissing, turn))
    ensures Grown(db.cache, AfterTurn(db, ignoreMissing, turn).cache,
            Refreshed(db, ignoreMissing, turn.weather).0.components)
    ensures AfterTurn(db, ignoreMissing, turn).cache != db.cache ==> Fresh(Refreshed(db, ignoreMissing, turn.weather).0)
  {
    hide Sound, Fresh, Refreshed, ConsolidateFullMonths, Grown;
    RefreshedIsFresh(db, ignoreMissing, turn.weather);
    var (d, ok) := Refreshed(db, ignoreMissing, turn.weather);
    GrownSelf(db.cache, d.components);
    if ok && turn.commits && ConsolidateFullMonths(d, turn.startAt, turn.endAt).Ok? {
      FullMonthsGrows(d, turn.startAt, turn.endAt);
    }
  }

  /** Every month the loop ever consolidates is the bill, under any choice of organisations, of components
      generated from the events, plans and rates of that very moment; and it never changes again. */
  lemma {:induction false} LoopConsolidatesFreshBills(db: Db, ignoreMissing: bool, turns: seq<Turn>, k: int,
      orgs: seq<string>)
    returns (current: Db)
    requires Sound(db) && forall t :: t in turns ==> t.weather.Legal()
    requires Consolidation.MonthRange(k) !in db.cache.history
    requires Consolidation.MonthRange(k) in AfterTurns(db, ignoreMissing, turns).cache.history
    ensures Sound(AfterTurns(db, ignoreMissing, turns))
    ensures Sound(current) && Fresh(current)
    ensures Consolidation.GetConsolidated(AfterTurns(db, ignoreMissing, turns).cache, MonthFilter(k, orgs))
         == Bills.Bill(current.components, MonthFilter(k, orgs))
  {
    hide Sound, Fresh, Refreshed, AfterTurn, Bills.Bill, Consolidation.StoredRows, Consolidation.GetConsolidated;
    var n;
    n, current := FreshTurn(db, ignoreMissing, turns, k);
    TurnsSound(db, ignoreMissing, turns);
    ReadBack(AfterTurns(db, ignoreMissing, turns), current.components, k, orgs);
  }

  lemma {:induction false} TurnsSound(db: Db, ignoreMissing: bool, turns: seq<Turn>)
    requires Sound(db) && forall t :: t in turns ==> t.weather.Legal()
    ensures Sound(AfterTurns(db, ignoreMissing, turns))
  {
    hide Sound, AfterTurn;
    if turns != [] {
      TurnsSound(db, ignoreMissing, turns[..|turns| - 1]);
      TurnKeeps(AfterTurns(db, ignoreMissing, turns[..|turns| - 1]), ignoreMissing, turns[|turns| - 1]);
    }
  }

  lemma TurnKeepsRates(db: Db, ignoreMissing: bool, turn: Turn)
    requires Sound(db) && CheckedButDummies(db.cat) && turn.weather.Legal()
    ensures CheckedButDummies(AfterTurn(db, ignoreMissing, turn).cat)
  {
    hide Sound, CheckedButDummies, RebuildEvents, FixPlans, RebuildComponents, ConsolidateFullMonths;
    var w := turn.weather;
    var d1 := Collect(db, w.between1);
    if RebuildEvents(d1, w.now).Ok? {
      CollectedSound(db, w.between1.0, w.between1.1);
      RebuildEventsSound(d1, w.now);
      RebuildKeepsCatalogue(d1, w.now);
      var d2 := Collect(RebuildEvents(d1, w.now).value, w.between2);
      CollectedSound(RebuildEvents(d1, w.now).value, w.between2.0, w.between2.1);
      StepKeepsRates(d2, PlansTx(ignoreMissing, true));
      if FixPlans(d2, ignoreMissing).Ok? {
        ComponentsKeepCatalogue(Collect(FixPlans(d2, ignoreMissing).value, w.between3));
      }
    }
    var d := Refreshed(db, ignoreMissing, w).0;
    MonthsKeepCatalogue(d, turn.startAt, turn.endAt);
  }

  lemma ComponentsKeepCatalogue(db: Db)
    ensures RebuildComponents(db).Ok? ==> RebuildComponents(db).value.cat == db.cat
  {
  }

  lemma MonthsKeepCatalogue(db: Db, startAt: Option<CivilDate>, endAt: Option<CivilDate>)
    ensures ConsolidateFullMonths(db, startAt, endAt).Ok? ==>
            ConsolidateFullMonths(db, startAt, endAt).value.cat == db.cat
  {
  }

  /** After any number of turns the rate checks still hold but for the dummies, so that `RefreshSucceeds`
      decides the next refresh. */
  lemma {:induction false} TurnsKeepRates(db: Db, ignoreMissing: bool, turns: seq<Turn>)
    requires Sound(db) && CheckedButDummies(db.cat) && forall t :: t in turns ==> t.weather.Legal()
    ensures CheckedButDummies(AfterTurns(db, ignoreMissing, turns).cat)
  {
    hide Sound, AfterTurn, CheckedButDummies;
    if turns != [] {
      TurnsSound(db, ignoreMissing, turns[..|turns| - 1]);
      TurnsKeepRates(db, ignoreMissing, turns[..|turns| - 1]);
      TurnKeepsRates(AfterTurns(db, ignoreMissing, turns[..|turns| - 1]), ignoreMissing, turns[|turns| - 1]);
    }
  }

  /** The turn that consolidated month `k`: its refresh succeeded, and the month holds the bill of what the
      refresh left. */
  lemma {:induction false} FreshTurn(db: Db, ignoreMissing: bool, turns: seq<Turn>, k: int)
    returns (n: nat, current: Db)
    requires Sound(db) && forall t :: t in turns ==> t.weather.Legal()
    requires Consolidation.MonthRange(k) !in db.cache.history
    requires Consolidation.MonthRange(k) in AfterTurns(db, ignoreMissing, turns).cache.history
    ensures n < |turns| && Sound(AfterTurns(db, ignoreMissing, turns[..n]))
    ensures Refreshed(AfterTurns(db, ignoreMissing, turns[..n]), ignoreMissing, turns[n].weather) == (current, true)
    ensures Sound(current) && Fresh(current)
    ensures Bills.Bill(current.components, MonthFilter(k, []))
         == Ok(Consolidation.StoredRows(AfterTurns(db, ignoreMissing, turns).cache, Consolidation.MonthRange(k)))
  {
    hide Sound, Fresh, Refreshed, AfterTurn, Bills.Bill, Consolidation.StoredRows;
    var last := |turns| - 1;
    var before := AfterTurns(db, ignoreMissing, turns[..last]);
    TurnsSound(db, ignoreMissing, turns[..last]);
    TurnKeeps(before, ignoreMissing, turns[last]);
    if Consolidation.MonthRange(k) in before.cache.history {
      n, current := FreshTurn(db, ignoreMissing, turns[..last], k);
      assert turns[..last][..n] == turns[..n];
    } else {
      n, current := last, Refreshed(before, ignoreMissing, turns[last].weather).0;
      RefreshedIsFresh(before, ignoreMissing, turns[last].weather);
      ChangedAfterSuccess(before, ignoreMissing, turns[last]);
    }
  }

  lemma ChangedAfterSuccess(db: Db, ignoreMissing: bool, turn: Turn)
    requires Sound(db) && turn.weather.Legal() && AfterTurn(db, ignoreMissing, turn).cache != db.cache
    ensures Refreshed(db, ignoreMissing, turn.weather).1
  {
    hide Sound, Fresh, Refreshed;
    RefreshedIsFresh(db, ignoreMissing, turn.weather);
  }

  // ----- The store as it runs -----

  class EventStore {
    var log: Log
    var names: Names
    var events: seq<EventRow>
    var cat: Catalogue
    var components: seq<ComponentRow>
    var history: seq<Consolidation.DateRange>
    var snapshots: seq<Consolidation.Snapshot>
    const cfg: Config
    const ignoreMissingPlans: bool

    constructor (cfg: Config, ignoreMissingPlans: bool)
      ensures this.cfg == cfg && this.ignoreMissingPlans == ignoreMissingPlans
      ensures View() == Db([], Names(map[], map[], map[], map[]), [], Catalogue(map[], map[], map[]), [],
              Consolidation.Cache([], []))
    {
      this.cfg, this.ignoreMissingPlans := cfg, ignoreMissingPlans;
      log, names, events, components, history, snapshots := [], Names(map[], map[], map[], map[]), [], [], [], [];
      cat := Catalogue(map[], map[], map[]);
    }

    /** The tables as one value. */
    function View(): Db
      reads this
    {
      Db(log, names, events, cat, components, Consolidation.Cache(history, snapshots))
    }

    // --- Init ---

    method InitVATRates() returns (r: Outcome)
      modifies this`cat
      ensures r.Done? <==> LoadVats(cfg.vatRates).Ok?
      ensures r.Done? ==> cat == old(cat).(vats := LoadVats(cfg.vatRates).value)
    {
      cat := cat.(vats := map[]);
      var n := 0;
      while n < |cfg.vatRates|
        invariant 0 <= n <= |cfg.vatRates|
        invariant LoadVats(cfg.vatRates[..n]) == Ok(cat.vats)
        invariant cat == old(cat).(vats := cat.vats)
      {
        assert cfg.vatRates[..n + 1][..n] == cfg.vatRates[..n];
        match InsertVat(cat.vats, cfg.vatRates[n]) {
          case Err(e) =>
            LoadVatsFails(cfg.vatRates, n + 1);
            return Failed(e);
          case Ok(table) =>
            cat := cat.(vats := table);
        }
        n := n + 1;
      }
      assert cfg.vatRates[..n] == cfg.vatRates;
      r := Done;
    }

    method InitCurrencyRates() returns (r: Outcome)
      modifies this`cat
      ensures r.Done? <==> LoadCurrencies(cfg.currencyRates).Ok?
      ensures r.Done? ==> cat == old(cat).(currencies := LoadCurrencies(cfg.currencyRates).value)
    {
      cat := cat.(currencies := map[]);
      var n := 0;
      while n < |cfg.currencyRates|
        invariant 0 <= n <= |cfg.currencyRates|
        invariant LoadCurrencies(cfg.currencyRates[..n]) == Ok(cat.currencies)
        invariant cat == old(cat).(currencies := cat.currencies)
      {
        assert cfg.currencyRates[..n + 1][..n] == cfg.currencyRates[..n];
        match InsertCurrency(cat.currencies, cfg.currencyRates[n]) {
          case Err(e) =>
            LoadCurrenciesFails(cfg.currencyRates, n + 1);
            return Failed(e);
          case Ok(table) =>
            cat := cat.(currencies := table);
        }
        n := n + 1;
      }
      assert cfg.currencyRates[..n] == cfg.currencyRates;
      r := Done;
    }

    method InitPlans() returns (r: Outcome)
      modifies this`cat
      ensures r.Done? <==> LoadPlans(cfg.plans).Ok? && RatesChecked(old(cat).(plans := LoadPlans(cfg.plans).value))
      ensures r.Done? ==> cat == old(cat).(plans := LoadPlans(cfg.plans).value)
    {
      cat := cat.(plans := map[]);
      var n := 0;
      while n < |cfg.plans|
        invariant 0 <= n <= |cfg.plans|
        invariant LoadPlans(cfg.plans[..n]) == Ok(cat.plans)
        invariant cat == old(cat).(plans := cat.plans)
      {
        assert cfg.plans[..n + 1][..n] == cfg.plans[..n];
        match InsertPlan(cat.plans, cfg.plans[n]) {
          case Err(e) =>
            LoadPlansFails(cfg.plans, n + 1);
            return Failed(e);
          case Ok(table) =>
            cat := cat.(plans := table);
        }
        n := n + 1;
      }
      assert cfg.plans[..n] == cfg.plans;
      if !RatesChecked(cat) {
        return Failed("missing rate");
      }
      r := Done;
    }

    method Init(commits: bool) returns (r: Outcome)
      modifies this`cat
      ensures View() == Apply(old(View()), InitTx(cfg, commits))
      ensures r.Done? <==> commits && Database.Init(old(View()), cfg).Ok?
    {
      var saved := cat;
      r := InitVATRates();
      if r.Done? {
        r := InitCurrencyRates();
      }
      if r.Done? {
        r := InitPlans();
      }
      if r.Done? && !commits {
        r := Failed("commit failed");
      }
      if r.Failed? {
        cat := saved;
      }
    }

    // --- Refresh ---

    /** What the collectors commit between two of our transactions. */
    method Interfere(c: (Log, Names))
      modifies this`log, this`names
      ensures View() == Collect(old(View()), c)
    {
      log, names := c.0, c.1;
    }

    /** `runSQLFilesInTransaction(ctx, "create_events.sql")` */
    method RunCreateEvents(now: int, commits: bool) returns (r: Outcome)
      modifies this`events
      ensures View() == Apply(old(View()), EventsTx(now, commits))
      ensures r.Done? <==> commits && RebuildEvents(old(View()), now).Ok?
    {
      hide CreateEvents;
      match CreateEvents(log, names, now) {
        case Err(e) => r := Failed(e);
        case Ok(rows) =>
          if commits {
            events := rows;
          }
          r := if commits then Done else Failed("commit failed");
      }
    }

    /** The transaction between the rebuilds; it writes the dummy plans before it checks them. */
    method RunFixPlans(commits: bool) returns (r: Outcome)
      modifies this`cat
      ensures View() == Apply(old(View()), PlansTx(ignoreMissingPlans, commits))
      ensures r.Done? <==> commits && FixPlans(old(View()), ignoreMissingPlans).Ok?
    {
      hide GenerateMissingPlans, PlansConsistent;
      var saved := cat;
      if ignoreMissingPlans {
        cat := GenerateMissingPlans(cat, events);
      }
      r := if !PlansConsistent(cat, events) then Failed("missing plan")
      else if commits then Done else Failed("commit failed");
      if r.Failed? {
        cat := saved;
      }
    }

    /** `runSQLFilesInTransaction(ctx, "create_billable_event_components.sql")` */
    method RunCreateComponents(commits: bool) returns (r: Outcome)
      modifies this`components
      ensures View() == Apply(old(View()), ComponentsTx(commits))
      ensures r.Done? <==> commits && RebuildComponents(old(View())).Ok?
    {
      hide BuildComponents;
      match BuildComponents(cat, events) {
        case Err(e) => r := Failed(e);
        case Ok(rows) =>
          if commits {
            components := rows;
          }
          r := if commits then Done else Failed("commit failed");
      }
    }

    /** `regenerateEvents`: it stops at the first transaction that fails. */
    method Refresh(w: Weather) returns (r: Outcome)
      modifies this`log, this`names, this`events, this`cat, this`components
      ensures (View(), r.Done?) == Refreshed(old(View()), ignoreMissingPlans, w)
    {
      hide RebuildEvents, FixPlans, RebuildComponents;
      Interfere(w.between1);
      r := RunCreateEvents(w.now, w.commits1);
      if r.Failed? {
        return;
      }
      Interfere(w.between2);
      r := RunFixPlans(w.commits2);
      if r.Failed? {
        return;
      }
      Interfere(w.between3);
      r := RunCreateComponents(w.commits3);
      if r.Failed? {
        return;
      }
      r := if w.viewOk then Done else Failed("view failed");
    }

    // --- Consolidation ---

    method IsRangeConsolidated(f: EventFilter) returns (r: Result<bool>)
      ensures r.Ok? <==> f.Valid() && !Before(f.stop.value, f.start.value)
      ensures r.Ok? ==>
                (r.value <==> Consolidation.DateRange(f.start.value, f.stop.value) in history)
      ensures r == Ok(true) && Sound(View()) ==>
                f == MonthFilter(f.start.value.month, f.orgs)
                && Consolidation.GetConsolidated(View().cache, f)
                == Ok(Filter(Bills.ForOrgs(f.orgs),
                    Consolidation.StoredRows(View().cache, Consolidation.MonthRange(f.start.value.month))))
    {
      var range := Consolidation.RangeOf(f);
      match range {
        case Err(e) => r := Err(e);
        case Ok(rng) => r := Ok(rng in history);
      }
      if r == Ok(true) && Sound(View()) {
        Consolidation.ConsolidatedIsReadable(View().cache, f);
        Consolidation.AllowedIsMonth(range.value);
      }
    }

    /** The transaction's body; on an error it may leave the history row behind for the caller to roll back. */
    method ConsolidateIn(f: EventFilter) returns (r: Outcome)
      modifies this`history, this`snapshots
      ensures r.Done? <==> Consolidation.Consolidate(old(View()).cache, old(components), f).Ok?
      ensures r.Done? ==> View().cache == Consolidation.Consolidate(old(View()).cache, old(components), f).value
    {
      hide Bills.Bill, Consolidation.Snapshots, Consolidation.SnapshotsDistinct, Consolidation.HistoryRowAllowed;
      if f.orgs != [] {
        return Failed("organisations");
      }
      var range := Consolidation.RangeOf(f);
      if range.Err? {
        return Failed(range.error);
      }
      if range.value in history {
        return Failed("duplicate key");
      }
      if !Consolidation.HistoryRowAllowed(range.value) {
        return Failed("check constraint");
      }
      history := history + [range.value];
      var bill := Bills.Bill(components, f);
      if bill.Err? {
        return Failed(bill.error);
      }
      var added := snapshots + Consolidation.Snapshots(range.value, bill.value);
      if !Consolidation.SnapshotsDistinct(added) {
        return Failed("duplicate key");
      }
      snapshots := added;
      r := Done;
    }

    method Consolidate(f: EventFilter, commits: bool) returns (r: Outcome)
      modifies this`history, this`snapshots
      ensures View() == Apply(old(View()), ConsolidateTx(f, commits))
      ensures r.Done? <==> commits && Database.Consolidate(old(View()), f).Ok?
    {
      hide Consolidation.Consolidate;
      var savedHistory, savedSnapshots := history, snapshots;
      r := ConsolidateIn(f);
      if r.Done? && !commits {
        r := Failed("commit failed");
      }
      if r.Failed? {
        history, snapshots := savedHistory, savedSnapshots;
      }
    }

    method ConsolidateFullMonthsIn(startAt: Option<CivilDate>, endAt: Option<CivilDate>) returns (r: Outcome)
      modifies this`history, this`snapshots
      ensures r.Done? <==>
              Consolidation.ConsolidateFullMonths(old(View()).cache, old(components), startAt, endAt).Ok?
      ensures r.Done? ==>
                View().cache == Consolidation.ConsolidateFullMonths(old(View()).cache, old(components), startAt,
                    endAt).value
    {
      hide Consolidation.Consolidate;
      var truncated := EventFilter(startAt, endAt, []).TruncateMonth();
      if truncated.Err? {
        return Failed(truncated.error);
      }
      var months := truncated.value.SplitByMonth();
      if months.Err? {
        return Failed(months.error);
      }
      ghost var cache, table := View().cache, components;
      var n := 0;
      while n < |months.value|
        invariant 0 <= n <= |months.value|
        invariant components == table
        invariant Consolidation.ConsolidateEach(View().cache, table, months.value[n..])
               == Consolidation.ConsolidateEach(cache, table, months.value)
      {
        assert months.value[n..][1..] == months.value[n + 1..];
        var isConsolidated := IsRangeConsolidated(months.value[n]);
        if isConsolidated.Err? {
          return Failed(isConsolidated.error);
        }
        if !isConsolidated.value {
          r := ConsolidateIn(months.value[n]);
          if r.Failed? {
            return;
          }
        }
        n := n + 1;
      }
      r := Done;
    }

    method ConsolidateFullMonths(startAt: Option<CivilDate>, endAt: Option<CivilDate>, commits: bool)
      returns (r: Outcome)
      modifies this`history, this`snapshots
      ensures View() == Apply(old(View()), FullMonthsTx(startAt, endAt, commits))
      ensures r.Done? <==> commits && Database.ConsolidateFullMonths(old(View()), startAt, endAt).Ok?
    {
      hide Consolidation.ConsolidateFullMonths;
      var savedHistory, savedSnapshots := history, snapshots;
      r := ConsolidateFullMonthsIn(startAt, endAt);
      if r.Done? && !commits {
        r := Failed("commit failed");
      }
      if r.Failed? {
        history, snapshots := savedHistory, savedSnapshots;
      }
    }
  }

  lemma {:induction false} LoadVatsFails(rows: seq<RateRow>, n: nat)
    requires n <= |rows| && LoadVats(rows[..n]).Err?
    ensures LoadVats(rows).Err?
    decreases |rows| - n
  {
    if n == |rows| {
      assert rows[..n] == rows;
    } else {
      assert rows[..n + 1][..n] == rows[..n];
      LoadVatsFails(rows, n + 1);
    }
  }

  lemma {:induction false} LoadCurrenciesFails(rows: seq<RateRow>, n: nat)
    requires n <= |rows| && LoadCurrencies(rows[..n]).Err?
    ensures LoadCurrencies(rows).Err?
    decreases |rows| - n
  {
    if n == |rows| {
      assert rows[..n] == rows;
    } else {
      assert rows[..n + 1][..n] == rows[..n];
      LoadCurrenciesFails(rows, n + 1);
    }
  }

  lemma {:induction false} LoadPlansFails(rows: seq<PlanRow>, n: nat)
    requires n <= |rows| && LoadPlans(rows[..n]).Err?
    ensures LoadPlans(rows).Err?
    decreases |rows| - n
  {
    if n == |rows| {
      assert rows[..n] == rows;
    } else {
      assert rows[..n + 1][..n] == rows[..n];
      LoadPlansFails(rows, n + 1);
    }
  }

  /** The endless loop, for as many turns as it is given. */
  method RunRefreshAndConsolidateLoop(store: EventStore, turns: seq<Turn>)
    modifies store
    ensures store.View() == AfterTurns(old(store.View()), store.ignoreMissingPlans, turns)
  {
    hide Refreshed, Database.ConsolidateFullMonths;
    var n := 0;
    assert turns[..0] == [];
    while n < |turns|
      invariant 0 <= n <= |turns|
      invariant store.View() == AfterTurns(old(store.View()), store.ignoreMissingPlans, turns[..n])
    {
      assert turns[..n + 1][..n] == turns[..n];
      var r := store.Refresh(turns[n].weather);
      if r.Done? {
        r := store.ConsolidateFullMonths(turns[n].startAt, turns[n].endAt, turns[n].commits);
      }
      n := n + 1;
    }
    assert turns[..n] == turns;
  }
}
