/** Loading VAT rates, currency rates and pricing plans from the configuration file. */
module StoreConfig {
  import opened Base
  import opened Calendar
  import opened Timeline
  import opened Events
  import opened Components

  /** A `valid_from`: a day and the microseconds past its midnight. */
  datatype Timestamp = Timestamp(date: CivilDate, micros: int) {
    function Instant(): int {
      Midnight(date) + micros
    }

    /** The check constraints `valid_from_start_of_month` and `valid_from_start_of_day`. */
    predicate MonthStarts() {
      date.day == 1 && micros == 0
    }

    predicate DayStarts() {
      micros == 0
    }
  }

  datatype RateRow = RateRow(code: string, validFrom: Timestamp, rate: real)

  datatype PlanRow = PlanRow(
    planGuid: string, validFrom: Timestamp, name: string, nodes: int, memory: int, storage: int,
    components: seq<PlanComponent>)

  datatype Config = Config(vatRates: seq<RateRow>, currencyRates: seq<RateRow>, plans: seq<PlanRow>)

  /** One `insert into` a table keyed by guid (or code) and `valid_from`. */
  function InsertRow<T>(table: map<string, History<T>>, key: string, v: Version<T>): Result<map<string, History<T>>> {
    match Insert(VersionsOf(table, key), v)
    case None => Err("duplicate key")
    case Some(h) => Ok(table[key := h])
  }

  function InsertVat(table: Rates, r: RateRow): Result<Rates> {
    if r.rate >= 0.0 && r.validFrom.MonthStarts() then InsertRow(table, r.code, Version(r.validFrom.Instant(), r.rate))
    else Err("invalid rate")
  }

  function InsertCurrency(table: Rates, r: RateRow): Result<Rates> {
    if r.rate > 0.0 && r.validFrom.DayStarts() then InsertRow(table, r.code, Version(r.validFrom.Instant(), r.rate))
    else Err("invalid rate")
  }

  function TermsOf(p: PlanRow): PlanTerms {
    PlanTerms(p.name, p.nodes, p.memory, p.storage, p.components)
  }

  function InsertPlan(table: map<string, History<PlanTerms>>, p: PlanRow): Result<map<string, History<PlanTerms>>> {
    if p.validFrom.MonthStarts() && DistinctNames(p.components)
    then InsertRow(table, p.planGuid, Version(p.validFrom.Instant(), TermsOf(p)))
    else Err("invalid plan")
  }

  // The loops, on values: inserting the first `n` rows into an empty table.

  function LoadVats(rows: seq<RateRow>): Result<Rates> {
    if rows == [] then Ok(map[])
    else
      match LoadVats(rows[..|rows| - 1])
      case Err(e) => Err(e)
      case Ok(table) => InsertVat(table, rows[|rows| - 1])
  }

  function LoadCurrencies(rows: seq<RateRow>): Result<Rates> {
    if rows == [] then Ok(map[])
    else
      match LoadCurrencies(rows[..|rows| - 1])
      case Err(e) => Err(e)
      case Ok(table) => InsertCurrency(table, rows[|rows| - 1])
  }

  function LoadPlans(rows: seq<PlanRow>): Result<map<string, History<PlanTerms>>> {
    if rows == [] then Ok(map[])
    else
      match LoadPlans(rows[..|rows| - 1])
      case Err(e) => Err(e)
      case Ok(table) => InsertPlan(table, rows[|rows| - 1])
  }

  /** The catalogue a configuration denotes, if the inserts and the checks of `initPlans` accept it. */
  function Load(cfg: Config): Result<Catalogue> {
    match (LoadVats(cfg.vatRates), LoadCurrencies(cfg.currencyRates), LoadPlans(cfg.plans))
    case (Ok(vats), Ok(currencies), Ok(plans)) =>
      var cat := Catalogue(plans, currencies, vats);
      if RatesChecked(cat) then Ok(cat) else Err("missing rate")
    case _ => Err("failed to init")
  }

  /** Every version in the table meets `ok`, and each key's versions are sorted. */
  ghost predicate TableOk<T(!new)>(table: map<string, History<T>>, ok: Version<T> -> bool) {
    forall g :: g in table ==> Sorted(table[g]) && forall i :: 0 <= i < |table[g]| ==> ok(table[g][i])
  }

  lemma InsertRowOk<T(!new)>(table: map<string, History<T>>, key: string, v: Version<T>, ok: Version<T> -> bool)
    requires TableOk(table, ok) && ok(v) && InsertRow(table, key, v).Ok?
    ensures TableOk(InsertRow(table, key, v).value, ok)
  {
    var k := InsertPlace(VersionsOf(table, key), v);
  }

  ghost function VatOk(): Version<real> -> bool {
    (v: Version<real>) => StartOfMonth(v.from) && v.data >= 0.0
  }

  ghost function CurrencyOk(): Version<real> -> bool {
    (v: Version<real>) => v.from % DAY == 0 && v.data > 0.0
  }

  ghost function PlanOk(): Version<PlanTerms> -> bool {
    (v: Version<PlanTerms>) => StartOfMonth(v.from) && DistinctNames(v.data.components)
  }

  lemma MonthStartsMeaning(ts: Timestamp)
    requires ts.MonthStarts()
    ensures StartOfMonth(ts.Instant())
  {
    assert ts.date == FirstOf(ts.date.month);
    assert ts.Instant() == MonthInstant(ts.date.month);
  }

  lemma {:induction false} LoadVatsOk(rows: seq<RateRow>)
    ensures LoadVats(rows).Ok? ==> TableOk(LoadVats(rows).value, VatOk())
  {
    if rows != [] && LoadVats(rows).Ok? {
      var r := rows[|rows| - 1];
      LoadVatsOk(rows[..|rows| - 1]);
      MonthStartsMeaning(r.validFrom);
      InsertRowOk(LoadVats(rows[..|rows| - 1]).value, r.code, Version(r.validFrom.Instant(), r.rate), VatOk());
    }
  }

  lemma {:induction false} LoadCurrenciesOk(rows: seq<RateRow>)
    ensures LoadCurrencies(rows).Ok? ==> TableOk(LoadCurrencies(rows).value, CurrencyOk())
  {
    if rows != [] && LoadCurrencies(rows).Ok? {
      var r := rows[|rows| - 1];
      LoadCurrenciesOk(rows[..|rows| - 1]);
      assert Midnight(r.validFrom.date) % DAY == 0;
      InsertRowOk(LoadCurrencies(rows[..|rows| - 1]).value, r.code, Version(r.validFrom.Instant(), r.rate),
          CurrencyOk());
    }
  }

  lemma {:induction false} LoadPlansOk(rows: seq<PlanRow>)
    ensures LoadPlans(rows).Ok? ==> TableOk(LoadPlans(rows).value, PlanOk())
  {
    if rows != [] && LoadPlans(rows).Ok? {
      var p := rows[|rows| - 1];
      LoadPlansOk(rows[..|rows| - 1]);
      MonthStartsMeaning(p.validFrom);
      InsertRowOk(LoadPlans(rows[..|rows| - 1]).value, p.planGuid, Version(p.validFrom.Instant(), TermsOf(p)),
          PlanOk());
    }
  }

  /** A configuration that loads, in whatever order it lists its rows, meets every constraint that pricing
      relies on, and every component finds rates from the start of its plan version. */
  lemma LoadedCatalogueIsValid(cfg: Config)
    requires Load(cfg).Ok?
    ensures Load(cfg).value.Valid() && RatesChecked(Load(cfg).value)
  {
    LoadVatsOk(cfg.vatRates);
    LoadCurrenciesOk(cfg.currencyRates);
    LoadPlansOk(cfg.plans);
  }

  /** A loaded plan is in force from its `valid_from`, whatever else is configured. */
  lemma {:induction false} LoadedPlanInForce(rows: seq<PlanRow>, i: nat)
    requires LoadPlans(rows).Ok? && i < |rows|
    ensures Lookup(VersionsOf(LoadPlans(rows).value, rows[i].planGuid), rows[i].validFrom.Instant())
         == Some(Version(rows[i].validFrom.Instant(), TermsOf(rows[i])))
  {
    hide TermsOf, Timestamp.Instant, PlanOk;
    var front, p := rows[..|rows| - 1], rows[|rows| - 1];
    LoadPlansOk(front);
    var v := Version(p.validFrom.Instant(), TermsOf(p));
    InsertRowLookup(LoadPlans(front).value, p.planGuid, v, rows[i].planGuid, rows[i].validFrom.Instant());
    if i < |front| {
      LoadedPlanInForce(front, i);
    }
  }

  // ----- Every row is loaded as it is, and nothing else -----

  /** The table lists exactly these keys and versions. */
  ghost predicate Lists<T(!new)>(table: map<string, History<T>>, rows: seq<(string, Version<T>)>) {
    && (forall g :: g in table ==> Sorted(table[g]))
    && (forall g, v :: v in VersionsOf(table, g) <==> (g, v) in rows)
  }

  lemma InsertRowLists<T(!new)>(table: map<string, History<T>>, rows: seq<(string, Version<T>)>, key: string,
      v: Version<T>)
    requires Lists(table, rows)
    ensures InsertRow(table, key, v).Ok? <==> forall u :: (key, u) in rows ==> u.from != v.from
    ensures InsertRow(table, key, v).Ok? ==> Lists(InsertRow(table, key, v).value, rows + [(key, v)])
  {
    hide Sorted, Insert;
    var h := VersionsOf(table, key);
    assert Sorted(h) by { SortedVersions(table, key); }
    InsertConflict(h, v);
    if Insert(h, v).Some? {
      InsertedMembers(h, v);
      var t := InsertRow(table, key, v).value;
      assert forall g :: VersionsOf(t, g) == if g == key then Insert(h, v).value else VersionsOf(table, g);
    } else {
      var j :| 0 <= j < |h| && h[j].from == v.from;
      assert h[j] in h;
    }
  }

  lemma SortedVersions<T>(table: map<string, History<T>>, key: string)
    requires forall g :: g in table ==> Sorted(table[g])
    ensures Sorted(VersionsOf(table, key))
  {
  }

  /** The rows as they are configured, keyed by code or guid. */
  function RateEntries(rows: seq<RateRow>): seq<(string, Version<real>)> {
    Map((r: RateRow) => (r.code, Version(Midnight(r.validFrom.date) + r.validFrom.micros, r.rate)), rows)
  }

  function PlanEntries(rows: seq<PlanRow>): seq<(string, Version<PlanTerms>)> {
    Map((p: PlanRow) => (p.planGuid, Version(Midnight(p.validFrom.date) + p.validFrom.micros,
                                             PlanTerms(p.name, p.nodes, p.memory, p.storage, p.components))), rows)
  }

  /** No two rows have both their key and their `valid_from` in common. */
  ghost predicate NoConflict<T>(rows: seq<(string, Version<T>)>) {
    forall i, j :: 0 <= i < j < |rows| ==> !(rows[i].0 == rows[j].0 && rows[i].1.from == rows[j].1.from)
  }

  lemma NoConflictAppend<T(!new)>(rows: seq<(string, Version<T>)>, key: string, v: Version<T>)
    ensures NoConflict(rows + [(key, v)]) <==> NoConflict(rows) && forall u :: (key, u) in rows ==> u.from != v.from
  {
    var all := rows + [(key, v)];
    assert forall i :: 0 <= i < |rows| ==> all[i] == rows[i];
    if NoConflict(all) {
      forall i, j | 0 <= i < j < |rows| ensures !(rows[i].0 == rows[j].0 && rows[i].1.from == rows[j].1.from) {
        assert all[i] == rows[i] && all[j] == rows[j];
      }
      forall u | (key, u) in rows ensures u.from != v.from {
        var i :| 0 <= i < |rows| && rows[i] == (key, u);
        assert all[i] == rows[i] && all[|rows|] == (key, v);
      }
    }
  }

  lemma RateEntriesAppend(front: seq<RateRow>, r: RateRow)
    ensures RateEntries(front + [r]) == RateEntries(front) + [(r.code, Version(r.validFrom.Instant(), r.rate))]
  {
  }

  lemma PlanEntriesAppend(front: seq<PlanRow>, p: PlanRow)
    ensures PlanEntries(front + [p])
         == PlanEntries(front) + [(p.planGuid, Version(p.validFrom.Instant(), TermsOf(p)))]
  {
  }

  /** A row starts on the first of a month, at midnight. */
  predicate OnFirst(t: Timestamp) {
    t.micros == 0 && t.date.day == 1
  }

  lemma {:induction false} LoadVatsLists(rows: seq<RateRow>)
    ensures LoadVats(rows).Ok? <==>
            && (forall r :: r in rows ==> r.rate >= 0.0 && OnFirst(r.validFrom))
            && NoConflict(RateEntries(rows))
    ensures LoadVats(rows).Ok? ==> Lists(LoadVats(rows).value, RateEntries(rows))
  {
    hide NoConflict, Lists, InsertRow, RateEntries, Timestamp.Instant;
    if rows == [] {
      NothingListed<real>();
    } else {
      var front, r := rows[..|rows| - 1], rows[|rows| - 1];
      assert rows == front + [r];
      LoadVatsLists(front);
      var v := Version(r.validFrom.Instant(), r.rate);
      RateEntriesAppend(front, r);
      NoConflictAppend(RateEntries(front), r.code, v);
      if LoadVats(front).Ok? {
        InsertRowLists(LoadVats(front).value, RateEntries(front), r.code, v);
      }
    }
  }

  lemma {:induction false} LoadCurrenciesLists(rows: seq<RateRow>)
    ensures LoadCurrencies(rows).Ok? <==>
            && (forall r :: r in rows ==> r.rate > 0.0 && r.validFrom.micros == 0)
            && NoConflict(RateEntries(rows))
    ensures LoadCurrencies(rows).Ok? ==> Lists(LoadCurrencies(rows).value, RateEntries(rows))
  {
    hide NoConflict, Lists, InsertRow, RateEntries, Timestamp.Instant;
    if rows == [] {
      NothingListed<real>();
    } else {
      var front, r := rows[..|rows| - 1], rows[|rows| - 1];
      assert rows == front + [r];
      LoadCurrenciesLists(front);
      var v := Version(r.validFrom.Instant(), r.rate);
      RateEntriesAppend(front, r);
      NoConflictAppend(RateEntries(front), r.code, v);
      if LoadCurrencies(front).Ok? {
        InsertRowLists(LoadCurrencies(front).value, RateEntries(front), r.code, v);
      }
    }
  }

  lemma {:induction false} LoadPlansLists(rows: seq<PlanRow>)
    ensures LoadPlans(rows).Ok? <==>
            && (forall p :: p in rows ==> OnFirst(p.validFrom) && DistinctNames(p.components))
            && NoConflict(PlanEntries(rows))
    ensures LoadPlans(rows).Ok? ==> Lists(LoadPlans(rows).value, PlanEntries(rows))
  {
    hide NoConflict, Lists, InsertRow, DistinctNames, PlanEntries, Timestamp.Instant, TermsOf;
    if rows == [] {
      NothingListed<PlanTerms>();
    } else {
      var front, p := rows[..|rows| - 1], rows[|rows| - 1];
      assert rows == front + [p];
      LoadPlansLists(front);
      var v := Version(p.validFrom.Instant(), TermsOf(p));
      PlanEntriesAppend(front, p);
      NoConflictAppend(PlanEntries(front), p.planGuid, v);
      if LoadPlans(front).Ok? {
        InsertRowLists(LoadPlans(front).value, PlanEntries(front), p.planGuid, v);
      }
    }
  }

  lemma NothingListed<T(!new)>()
    ensures NoConflict<T>([]) && Lists<T>(map[], [])
    ensures RateEntries([]) == [] && PlanEntries([]) == []
  {
  }

  /** The version of a rate row, column by column. */
  ghost predicate IsRate(row: RateRow, code: string, v: Version<real>) {
    row.code == code && v.from == Midnight(row.validFrom.date) + row.validFrom.micros && v.data == row.rate
  }

  /** ... and of a plan row. */
  ghost predicate IsPlan(row: PlanRow, guid: string, v: Version<PlanTerms>) {
    && row.planGuid == guid && v.from == Midnight(row.validFrom.date) + row.validFrom.micros
    && v.data.name == row.name && v.data.components == row.components
    && v.data.nodes == row.nodes && v.data.memory == row.memory && v.data.storage == row.storage
  }

  /** Every configured rate is in force at its own instant, and the table has no other. */
  ghost predicate RatesLoaded(table: Rates, rows: seq<RateRow>) {
    && (forall r :: r in rows ==>
          exists v :: IsRate(r, r.code, v) && Lookup(VersionsOf(table, r.code), v.from) == Some(v))
    && (forall code, v :: v in VersionsOf(table, code) ==> exists r :: r in rows && IsRate(r, code, v))
  }

  /** ... and so is every configured plan, with its own name, sizes and components. */
  ghost predicate PlansLoaded(table: map<string, History<PlanTerms>>, rows: seq<PlanRow>) {
    && (forall p :: p in rows ==>
          exists v :: IsPlan(p, p.planGuid, v) && Lookup(VersionsOf(table, p.planGuid), v.from) == Some(v))
    && (forall guid, v :: v in VersionsOf(table, guid) ==> exists p :: p in rows && IsPlan(p, guid, v))
  }

  lemma RateEntry(rows: seq<RateRow>, code: string, v: Version<real>)
    ensures (code, v) in RateEntries(rows) <==> exists r :: r in rows && IsRate(r, code, v)
  {
    hide Midnight;
    if (code, v) in RateEntries(rows) {
      var i :| 0 <= i < |rows| && RateEntries(rows)[i] == (code, v);
      assert rows[i] in rows && IsRate(rows[i], code, v);
    }
    if r :| r in rows && IsRate(r, code, v) {
      var i :| 0 <= i < |rows| && rows[i] == r;
      assert RateEntries(rows)[i] == (code, v);
    }
  }

  lemma PlanEntry(rows: seq<PlanRow>, guid: string, v: Version<PlanTerms>)
    ensures (guid, v) in PlanEntries(rows) <==> exists p :: p in rows && IsPlan(p, guid, v)
  {
    hide Midnight;
    if (guid, v) in PlanEntries(rows) {
      var i :| 0 <= i < |rows| && PlanEntries(rows)[i] == (guid, v);
      assert rows[i] in rows && IsPlan(rows[i], guid, v);
    }
    if p :| p in rows && IsPlan(p, guid, v) {
      var i :| 0 <= i < |rows| && rows[i] == p;
      assert PlanEntries(rows)[i] == (guid, v);
    }
  }

  lemma RowRate(r: RateRow) returns (v: Version<real>)
    ensures IsRate(r, r.code, v)
  {
    v := Version(Midnight(r.validFrom.date) + r.validFrom.micros, r.rate);
  }

  lemma RowPlan(p: PlanRow) returns (v: Version<PlanTerms>)
    ensures IsPlan(p, p.planGuid, v)
  {
    v := Version(Midnight(p.validFrom.date) + p.validFrom.micros,
                 PlanTerms(p.name, p.nodes, p.memory, p.storage, p.components));
  }

  lemma ListsRates(table: Rates, rows: seq<RateRow>)
    requires Lists(table, RateEntries(rows))
    ensures RatesLoaded(table, rows)
  {
    hide Lookup, Sorted, IsRate, RateEntries, VersionsOf;
    forall r | r in rows
      ensures exists v :: IsRate(r, r.code, v) && Lookup(VersionsOf(table, r.code), v.from) == Some(v)
    {
      var v := RowRate(r);
      RateEntry(rows, r.code, v);
      SortedVersions(table, r.code);
      LookupOwn(VersionsOf(table, r.code), v);
    }
    forall code, v | v in VersionsOf(table, code) ensures exists r :: r in rows && IsRate(r, code, v) {
      RateEntry(rows, code, v);
    }
  }

  lemma ListsPlans(table: map<string, History<PlanTerms>>, rows: seq<PlanRow>)
    requires Lists(table, PlanEntries(rows))
    ensures PlansLoaded(table, rows)
  {
    hide Lookup, Sorted, IsPlan, PlanEntries, VersionsOf;
    forall p | p in rows
      ensures exists v :: IsPlan(p, p.planGuid, v) && Lookup(VersionsOf(table, p.planGuid), v.from) == Some(v)
    {
      var v := RowPlan(p);
      PlanEntry(rows, p.planGuid, v);
      SortedVersions(table, p.planGuid);
      LookupOwn(VersionsOf(table, p.planGuid), v);
    }
    forall guid, v | v in VersionsOf(table, guid) ensures exists p :: p in rows && IsPlan(p, guid, v) {
      PlanEntry(rows, guid, v);
    }
  }

  /** What a configuration that loads says is what the three tables hold, row by row and column by column. */
  lemma LoadedTables(cfg: Config)
    requires Load(cfg).Ok?
    ensures RatesLoaded(Load(cfg).value.vats, cfg.vatRates)
    ensures RatesLoaded(Load(cfg).value.currencies, cfg.currencyRates)
    ensures PlansLoaded(Load(cfg).value.plans, cfg.plans)
  {
    hide Lists, RatesLoaded, PlansLoaded;
    LoadVatsLists(cfg.vatRates);
    LoadCurrenciesLists(cfg.currencyRates);
    LoadPlansLists(cfg.plans);
    ListsRates(Load(cfg).value.vats, cfg.vatRates);
    ListsRates(Load(cfg).value.currencies, cfg.currencyRates);
    ListsPlans(Load(cfg).value.plans, cfg.plans);
  }

  /** Some rate for `code` starts by the `valid_from` of the plan. */
  ghost predicate Starts(rows: seq<RateRow>, code: string, p: PlanRow) {
    exists r :: r in rows && r.code == code && r.validFrom.Instant() <= p.validFrom.Instant()
  }

  ghost predicate PlanStarted(cfg: Config, p: PlanRow) {
    forall c :: c in p.components ==> Starts(cfg.currencyRates, c.currency, p) && Starts(cfg.vatRates, c.vat, p)
  }

  ghost predicate AllStarted(cfg: Config) {
    forall p :: p in cfg.plans ==> PlanStarted(cfg, p)
  }

  /** A configuration loads if and only if every row is allowed by itself, no two have the same key and
      `valid_from`, and every component of a plan has rates of its currency and VAT code that start by the
      `valid_from` of the plan. */
  lemma LoadSucceeds(cfg: Config)
    ensures Load(cfg).Ok? <==>
            && (forall r :: r in cfg.vatRates ==> r.rate >= 0.0 && OnFirst(r.validFrom))
            && (forall r :: r in cfg.currencyRates ==> r.rate > 0.0 && r.validFrom.micros == 0)
            && (forall p :: p in cfg.plans ==> OnFirst(p.validFrom) && DistinctNames(p.components))
            && NoConflict(RateEntries(cfg.vatRates)) && NoConflict(RateEntries(cfg.currencyRates))
            && NoConflict(PlanEntries(cfg.plans))
            && AllStarted(cfg)
  {
    hide Lists, NoConflict, OnFirst, DistinctNames, RatesChecked, AllStarted, RateEntries, PlanEntries;
    hide LoadVats, LoadCurrencies, LoadPlans;
    LoadVatsLists(cfg.vatRates);
    LoadCurrenciesLists(cfg.currencyRates);
    LoadPlansLists(cfg.plans);
    match (LoadVats(cfg.vatRates), LoadCurrencies(cfg.currencyRates), LoadPlans(cfg.plans))
    case (Ok(vats), Ok(currencies), Ok(plans)) =>
      CheckedIsStarts(cfg, Catalogue(plans, currencies, vats));
    case _ =>
  }

  ghost predicate ComponentsRated(cat: Catalogue, v: Version<PlanTerms>) {
    forall c :: c in v.data.components ==> RatesFrom(cat, c, v.from)
  }

  lemma CheckedVersions(cat: Catalogue)
    ensures RatesChecked(cat) <==> forall g, v :: v in VersionsOf(cat.plans, g) ==> ComponentsRated(cat, v)
  {
    hide RatesFrom;
    if RatesChecked(cat) {
      forall g, v | v in VersionsOf(cat.plans, g) ensures ComponentsRated(cat, v) {
        var i :| 0 <= i < |cat.plans[g]| && cat.plans[g][i] == v;
      }
    }
    if forall g, v :: v in VersionsOf(cat.plans, g) ==> ComponentsRated(cat, v) {
      forall g, i | g in cat.plans && 0 <= i < |cat.plans[g]|
        ensures forall c :: c in cat.plans[g][i].data.components ==> RatesFrom(cat, c, cat.plans[g][i].from)
      {
        assert cat.plans[g][i] in VersionsOf(cat.plans, g);
        assert ComponentsRated(cat, cat.plans[g][i]);
      }
    }
  }

  lemma CheckedIsStarts(cfg: Config, cat: Catalogue)
    requires Lists(cat.vats, RateEntries(cfg.vatRates)) && Lists(cat.currencies, RateEntries(cfg.currencyRates))
    requires Lists(cat.plans, PlanEntries(cfg.plans))
    ensures RatesChecked(cat) <==> AllStarted(cfg)
  {
    hide Sorted, RatesChecked, RateEntries, PlanEntries, VersionsOf, IsPlan, Starts;
    CheckedVersions(cat);
    forall p: PlanRow, v | IsPlan(p, p.planGuid, v) ensures ComponentsRated(cat, v) <==> PlanStarted(cfg, p) {
      RatedIsStarts(cfg, cat, p, v);
    }
    hide ComponentsRated, PlanStarted;
    forall guid, v ensures v in VersionsOf(cat.plans, guid) <==> exists p :: p in cfg.plans && IsPlan(p, guid, v) {
      PlanEntry(cfg.plans, guid, v);
    }
    forall p, guid, v | IsPlan(p, guid, v) ensures guid == p.planGuid {
      PlanGuid(p, guid, v);
    }
    if RatesChecked(cat) {
      forall p | p in cfg.plans ensures PlanStarted(cfg, p) {
        var v := RowPlan(p);
        PlanEntry(cfg.plans, p.planGuid, v);
        assert ComponentsRated(cat, v);
      }
    }
  }

  lemma PlanGuid(p: PlanRow, guid: string, v: Version<PlanTerms>)
    requires IsPlan(p, guid, v)
    ensures guid == p.planGuid
  {
  }

  lemma RatedIsStarts(cfg: Config, cat: Catalogue, p: PlanRow, v: Version<PlanTerms>)
    requires Lists(cat.vats, RateEntries(cfg.vatRates)) && Lists(cat.currencies, RateEntries(cfg.currencyRates))
    requires IsPlan(p, p.planGuid, v)
    ensures ComponentsRated(cat, v) <==> PlanStarted(cfg, p)
  {
    hide Lists, Started, Starts;
    forall c ensures RatesFrom(cat, c, v.from)
        <==> Starts(cfg.currencyRates, c.currency, p) && Starts(cfg.vatRates, c.vat, p)
    {
      StartedIsStarts(cat.currencies, cfg.currencyRates, c.currency, p);
      StartedIsStarts(cat.vats, cfg.vatRates, c.vat, p);
    }
  }

  lemma StartedIsStarts(table: Rates, rows: seq<RateRow>, code: string, p: PlanRow)
    requires Lists(table, RateEntries(rows))
    ensures Started(VersionsOf(table, code), p.validFrom.Instant()) <==> Starts(rows, code, p)
  {
    hide Sorted, Midnight, RateEntries, VersionsOf;
    var h, t := VersionsOf(table, code), p.validFrom.Instant();
    if Started(h, t) {
      var i :| 0 <= i < |h| && h[i].from <= t;
      assert h[i] in h;
      RateEntry(rows, code, h[i]);
    }
    if Starts(rows, code, p) {
      var r :| r in rows && r.code == code && r.validFrom.Instant() <= t;
      var v := RowRate(r);
      RateEntry(rows, code, v);
      var i :| 0 <= i < |h| && h[i] == v;
    }
  }

  /** An inserted row is in force at its own `valid_from`; a row that was in force at its own stays so. */
  lemma InsertRowLookup<T(!new)>(table: map<string, History<T>>, key: string, v: Version<T>, g: string, t: int)
    requires (forall k :: k in table ==> Sorted(table[k])) && InsertRow(table, key, v).Ok?
    ensures Lookup(VersionsOf(InsertRow(table, key, v).value, key), v.from) == Some(v)
    ensures Lookup(VersionsOf(table, g), t).Some? && Lookup(VersionsOf(table, g), t).value.from == t ==>
              Lookup(VersionsOf(InsertRow(table, key, v).value, g), t) == Lookup(VersionsOf(table, g), t)
  {
    var h := VersionsOf(table, key);
    LookupInsert(h, v, t);
    LookupInsert(h, v, v.from);
    InsertConflict(h, v);
    LookupMember(h, v.from);
    LookupMember(h, t);
  }
}
