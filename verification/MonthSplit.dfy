/** What it costs to ask month by month, as the API does, instead of for the whole window at once. */
module MonthSplit {
  import opened Base
  import opened Calendar
  import opened EventFilters
  import opened Timeline
  import opened Formulas
  import opened ComponentTable
  import opened Bills

  function MicrosIn(d: Range, w: Range): int {
    if d.Overlaps(w) then d.Meet(w).hi - d.Meet(w).lo else 0
  }

  /** The hours started by `d` within `w`. */
  function HoursIn(d: Range, w: Range): int {
    if d.Overlaps(w) then HoursStarted(d.Meet(w).hi - d.Meet(w).lo) else 0
  }

  function TotalMicros(d: Range, ws: seq<Range>): int {
    if ws == [] then 0 else MicrosIn(d, ws[0]) + TotalMicros(d, ws[1..])
  }

  function TotalHours(d: Range, ws: seq<Range>): int {
    if ws == [] then 0 else HoursIn(d, ws[0]) + TotalHours(d, ws[1..])
  }

  lemma TilesRest(ws: seq<Range>, w: Range)
    requires Tiles(ws, w)
    ensures ws[0].lo == w.lo < ws[0].hi
    ensures |ws| == 1 ==> ws == [w]
    ensures |ws| > 1 ==> Tiles(ws[1..], Range(ws[0].hi, w.hi)) && ws[0].hi < w.hi
  {
    if |ws| > 1 {
      TilesBounds(ws[1..], Range(ws[0].hi, w.hi));
    }
  }

  /** Splitting loses no time. */
  lemma {:induction false} MicrosSplit(d: Range, ws: seq<Range>, w: Range)
    requires Tiles(ws, w)
    ensures TotalMicros(d, ws) == MicrosIn(d, w)
    decreases |ws|
  {
    TilesRest(ws, w);
    if |ws| == 1 {
      assert TotalMicros(d, ws[1..]) == 0;
    } else {
      MicrosSplit(d, ws[1..], Range(ws[0].hi, w.hi));
    }
  }

  lemma HoursAdd(a: int, m: int, b: int)
    requires a < m < b && m % HOUR == 0
    ensures 0 <= HoursStarted(m - a) + HoursStarted(b - m) - HoursStarted(b - a) <= 1
    ensures a % HOUR == 0 ==> HoursStarted(m - a) + HoursStarted(b - m) == HoursStarted(b - a)
  {
  }

  /** One cut: it adds at most an hour, and none if `d` started before the window or has not started yet. */
  lemma HoursCut(d: Range, w: Range, m: int)
    requires w.lo < m < w.hi && w.lo % HOUR == 0 && m % HOUR == 0
    ensures 0 <= HoursIn(d, Range(w.lo, m)) + HoursIn(d, Range(m, w.hi)) - HoursIn(d, w) <= 1
    ensures d.lo <= w.lo || m <= d.lo ==> HoursIn(d, Range(w.lo, m)) + HoursIn(d, Range(m, w.hi)) == HoursIn(d, w)
  {
    if d.lo < m < d.hi {
      HoursAdd(d.Meet(w).lo, m, d.Meet(w).hi);
    }
  }

  /** Cutting at whole hours starts at most one extra hour in all, however many cuts there are, and none
      if `d` starts no later than the window. */
  lemma {:induction false} HoursSplit(d: Range, ws: seq<Range>, w: Range)
    requires Tiles(ws, w) && forall i :: 0 <= i < |ws| ==> ws[i].lo % HOUR == 0
    ensures 0 <= TotalHours(d, ws) - HoursIn(d, w) <= 1
    ensures d.lo <= w.lo ==> TotalHours(d, ws) == HoursIn(d, w)
    decreases |ws|
  {
    hide HoursIn;
    TilesRest(ws, w);
    if |ws| == 1 {
      assert TotalHours(d, ws[1..]) == 0;
    } else {
      var m := ws[0].hi;
      assert ws[1].lo == m && ws[0] == Range(w.lo, m);
      HoursSplit(d, ws[1..], Range(m, w.hi));
      HoursCut(d, w, m);
    }
  }

  // ----- Prices -----

  /** What a row contributes, before VAT, to a bill for `w`. */
  function CostIn(r: ComponentRow, w: Range): real {
    if !r.duration.Overlaps(w) then 0.0
    else match PriceIn(r, w) case Some(p) => p.exVat case None => 0.0
  }

  function TotalCost(r: ComponentRow, ws: seq<Range>): real {
    if ws == [] then 0.0 else CostIn(r, ws[0]) + TotalCost(r, ws[1..])
  }

  function RowInputs(r: ComponentRow): Inputs {
    Inputs(r.memory, r.storage, r.nodes)
  }

  /** The row's formula is metered by the second and by the started hour. */
  predicate Metered(r: ComponentRow) {
    MeterOf(r.formula, RowInputs(r)).Some?
  }

  function RowMeter(r: ComponentRow): Meter
    requires Metered(r)
  {
    MeterOf(r.formula, RowInputs(r)).value
  }

  /** The price of one started hour in pounds. */
  function HourPrice(r: ComponentRow): real
    requires Metered(r)
  {
    Product(RowMeter(r).perHour, r.currencyRate)
  }

  function MeterCost(m: Meter, rate: real, micros: int, hours: int): real {
    Product(m.Charge(micros as real / 1000000.0, hours), rate)
  }

  lemma CostInMeaning(r: ComponentRow, w: Range)
    requires Metered(r)
    ensures CostIn(r, w) == MeterCost(RowMeter(r), r.currencyRate, MicrosIn(r.duration, w), HoursIn(r.duration, w))
  {
    var part := r.duration.Meet(w);
    if r.duration.Overlaps(w) {
      MeterMeaning(r.formula, RowInputs(r), Seconds(part));
      CeilIsHoursStarted(part);
    }
  }

  lemma MeterCostAdd(m: Meter, rate: real, micros: int, hours: int, micros': int, hours': int)
    ensures MeterCost(m, rate, micros + micros', hours + hours')
         == MeterCost(m, rate, micros, hours) + MeterCost(m, rate, micros', hours')
  {
    var a, b := micros as real / 1000000.0, micros' as real / 1000000.0;
    assert (micros + micros') as real / 1000000.0 == a + b;
    assert m.Charge(a + b, hours + hours') == m.Charge(a, hours) + m.Charge(b, hours') by {
      assert m.perSecond * (a + b) == m.perSecond * a + m.perSecond * b;
      assert m.perHour * (hours as real + hours' as real) == m.perHour * hours as real + m.perHour * hours' as real;
    }
    assert Product(m.Charge(a, hours) + m.Charge(b, hours'), rate)
        == Product(m.Charge(a, hours), rate) + Product(m.Charge(b, hours'), rate);
  }

  lemma {:induction false} TotalCostMeaning(r: ComponentRow, ws: seq<Range>)
    requires Metered(r)
    ensures TotalCost(r, ws)
         == MeterCost(RowMeter(r), r.currencyRate, TotalMicros(r.duration, ws), TotalHours(r.duration, ws))
  {
    if ws != [] {
      CostInMeaning(r, ws[0]);
      TotalCostMeaning(r, ws[1..]);
      MeterCostAdd(RowMeter(r), r.currencyRate, MicrosIn(r.duration, ws[0]), HoursIn(r.duration, ws[0]),
                   TotalMicros(r.duration, ws[1..]), TotalHours(r.duration, ws[1..]));
    }
  }

  /** Windows cut at whole hours charge a metered row what the whole window does, plus at most one
      started hour. */
  lemma SplitCost(r: ComponentRow, ws: seq<Range>, w: Range) returns (extra: int)
    requires Metered(r) && Tiles(ws, w) && forall i :: 0 <= i < |ws| ==> ws[i].lo % HOUR == 0
    ensures extra == 0 || extra == 1
    ensures r.duration.lo <= w.lo ==> extra == 0
    ensures TotalCost(r, ws) == CostIn(r, w) + extra as real * HourPrice(r)
  {
    MicrosSplit(r.duration, ws, w);
    HoursSplit(r.duration, ws, w);
    hide MeterCost, Tiles, TotalHours, TotalMicros, MicrosIn, HoursIn, TotalCost, CostIn, Product;
    extra := TotalHours(r.duration, ws) - HoursIn(r.duration, w);
    CostInMeaning(r, w);
    TotalCostMeaning(r, ws);
    var m := RowMeter(r);
    MeterCostAdd(m, r.currencyRate, MicrosIn(r.duration, w), HoursIn(r.duration, w), 0, extra);
    ExtraHours(m, r.currencyRate, extra);
  }

  lemma ExtraHours(m: Meter, rate: real, hours: int)
    ensures MeterCost(m, rate, 0, hours) == hours as real * Product(m.perHour, rate)
  {
    assert m.Charge(0.0, hours) == m.perHour * hours as real;
  }

  // ----- Bills -----

  /** The windows that `SplitByMonth` asks for. */
  function Windows(fs: seq<EventFilter>): seq<Range>
    requires forall i :: 0 <= i < |fs| ==> fs[i].Valid()
  {
    seq(|fs|, i requires 0 <= i < |fs| && fs[i].Valid() => fs[i].Instants())
  }

  lemma MidnightOnTheHour(d: CivilDate)
    ensures Midnight(d) % HOUR == 0
  {
    assert Midnight(d) == (24 * DayNumber(d)) * HOUR;
  }

  /** The monthly windows tile the whole one and are cut at midnights. */
  lemma MonthWindows(f: EventFilter)
    requires f.Valid() && Before(f.start.value, f.stop.value)
    ensures f.SplitByMonth().Ok?
    ensures forall i :: 0 <= i < |f.SplitByMonth().value| ==> f.SplitByMonth().value[i].Valid()
    ensures Tiles(Windows(f.SplitByMonth().value), f.Instants())
    ensures forall i :: 0 <= i < |f.SplitByMonth().value| ==> Windows(f.SplitByMonth().value)[i].lo % HOUR == 0
  {
    SplitByMonthMeaning(f);
    var fs := f.SplitByMonth().value;
    assert Splits(fs, f.start.value, f.stop.value, f.orgs);
    assert forall i :: 0 <= i < |fs| ==> fs[i].Valid();
    forall i | 0 <= i < |fs| ensures Windows(fs)[i].lo % HOUR == 0 && !Windows(fs)[i].Empty() {
      MidnightOnTheHour(fs[i].start.value);
      BeforeIsEarlierDay(fs[i].start.value, fs[i].stop.value);
    }
  }

  /** For every metered component and every query, the monthly bills charge what one bill for the whole
      window does, plus at most one started hour: between 0 and `k` more under `k * ceil(hours)`, and
      nothing more under a formula that is linear in time. */
  lemma MonthlyBillsCost(r: ComponentRow, f: EventFilter) returns (extra: int)
    requires Metered(r) && f.Valid() && Before(f.start.value, f.stop.value)
    ensures f.SplitByMonth().Ok?
    ensures forall i :: 0 <= i < |f.SplitByMonth().value| ==> f.SplitByMonth().value[i].Valid()
    ensures extra == 0 || extra == 1
    ensures r.duration.lo <= Midnight(f.start.value) ==> extra == 0
    ensures TotalCost(r, Windows(f.SplitByMonth().value))
         == CostIn(r, f.Instants()) + extra as real * HourPrice(r)
  {
    MonthWindows(f);
    extra := SplitCost(r, Windows(f.SplitByMonth().value), f.Instants());
  }

  // ----- Before and after VAT -----

  /** An amount of a row, with its VAT or without. */
  function Taxed(r: ComponentRow, amount: real, basis: Basis): real {
    match basis case BeforeVat => amount case AfterVat => Product(amount, 1.0 + r.vatRate)
  }

  lemma TaxedAdds(r: ComponentRow, a: real, b: real, basis: Basis)
    ensures Taxed(r, a + b, basis) == Taxed(r, a, basis) + Taxed(r, b, basis)
    ensures Taxed(r, 0.0, basis) == 0.0
  {
  }

  function Costs(rows: seq<ComponentRow>, w: Range, basis: Basis): real {
    if rows == [] then 0.0 else Taxed(rows[0], CostIn(rows[0], w), basis) + Costs(rows[1..], w, basis)
  }

  /** The components that a query concerns: those that overlap its window, of its organisations. */
  function Asked(table: seq<ComponentRow>, f: EventFilter): seq<ComponentRow>
    requires f.Valid()
  {
    Filter(Wanted(f.Instants(), f.orgs), table)
  }

  lemma PricesHead(ps: seq<PricedComponent>, basis: Basis)
    requires ps != []
    ensures Sum(Prices(ps, basis))
         == (match basis case BeforeVat => ps[0].exVat case AfterVat => ps[0].IncVat()) + Sum(Prices(ps[1..], basis))
  {
    SumHead(ps);
  }

  /** What a row costs in a window is its price there, or nothing outside it. */
  lemma CostIsPrice(r: ComponentRow, w: Range, basis: Basis)
    ensures !r.duration.Overlaps(w) ==> Taxed(r, CostIn(r, w), basis) == 0.0
    ensures r.duration.Overlaps(w) && PriceIn(r, w).Some? ==>
              Taxed(r, CostIn(r, w), basis)
              == match basis case BeforeVat => PriceIn(r, w).value.exVat case AfterVat => PriceIn(r, w).value.IncVat()
  {
  }

  lemma {:induction false} PricesAreCosts(rows: seq<ComponentRow>, part: Range, w: Range, orgs: seq<string>,
      basis: Basis)
    requires part.Inside(w) && PriceAll(Filter(Wanted(part, orgs), rows), part).Some?
    ensures Sum(Prices(PriceAll(Filter(Wanted(part, orgs), rows), part).value, basis))
         == Costs(Filter(Wanted(w, orgs), rows), part, basis)
  {
    if rows != [] {
      hide PriceIn, CostIn, Taxed, Sum, Prices;
      var wanted := Filter(Wanted(part, orgs), rows);
      CostIsPrice(rows[0], part, basis);
      if Wanted(part, orgs)(rows[0]) {
        assert wanted[1..] == Filter(Wanted(part, orgs), rows[1..]);
        PricesHead(PriceAll(wanted, part).value, basis);
      }
      if Wanted(w, orgs)(rows[0]) {
        assert Filter(Wanted(w, orgs), rows)[1..] == Filter(Wanted(w, orgs), rows[1..]);
      }
      PricesAreCosts(rows[1..], part, w, orgs, basis);
    }
  }

  /** The total of a bill, before and after VAT, is what the components it concerns cost in the window. */
  lemma BillTotal(table: seq<ComponentRow>, f: EventFilter, basis: Basis)
    requires Bill(table, f).Ok?
    ensures Sum(RowPrices(Bill(table, f).value, basis)) == Costs(Asked(table, f), Window(f).value, basis)
  {
    var w := Window(f).value;
    PricesAreCosts(table, w, w, f.orgs, basis);
    BillConserves(PriceAll(Filter(Wanted(w, f.orgs), table), w).value);
  }

  function MonthlyCosts(rows: seq<ComponentRow>, ws: seq<Range>, basis: Basis): real {
    if ws == [] then 0.0 else Costs(rows, ws[0], basis) + MonthlyCosts(rows, ws[1..], basis)
  }

  /** What one more started hour of every row would cost. */
  function HourPrices(rows: seq<ComponentRow>, basis: Basis): real
    requires forall r :: r in rows ==> Metered(r)
  {
    if rows == [] then 0.0 else Taxed(rows[0], HourPrice(rows[0]), basis) + HourPrices(rows[1..], basis)
  }

  lemma {:induction false} MonthlyCostsByRow(rows: seq<ComponentRow>, ws: seq<Range>, basis: Basis)
    requires rows != []
    ensures MonthlyCosts(rows, ws, basis)
            == Taxed(rows[0], TotalCost(rows[0], ws), basis) + MonthlyCosts(rows[1..], ws, basis)
  {
    hide Taxed, CostIn;
    if ws == [] {
      TaxedAdds(rows[0], 0.0, 0.0, basis);
    } else {
      TaxedAdds(rows[0], CostIn(rows[0], ws[0]), TotalCost(rows[0], ws[1..]), basis);
      MonthlyCostsByRow(rows, ws[1..], basis);
    }
  }

  lemma {:induction false} NoCosts(ws: seq<Range>, basis: Basis)
    ensures MonthlyCosts([], ws, basis) == 0.0
  {
    if ws != [] {
      NoCosts(ws[1..], basis);
    }
  }

  /** The hour that a split may add costs something between nothing and its price. */
  lemma ExtraTaxed(r: ComponentRow, extra: int, cost: real, total: real, basis: Basis)
    requires Metered(r) && (extra == 0 || extra == 1) && Taxed(r, HourPrice(r), basis) >= 0.0
    requires total == cost + extra as real * HourPrice(r)
    ensures 0.0 <= Taxed(r, total, basis) - Taxed(r, cost, basis) <= Taxed(r, HourPrice(r), basis)
  {
    hide Taxed, HourPrice;
    TaxedAdds(r, cost, extra as real * HourPrice(r), basis);
    assert extra as real * HourPrice(r) == if extra == 0 then 0.0 else HourPrice(r);
  }

  /** Whole bills: the monthly bills together exceed the single bill by at most one started hour of each
      row when hours cost something, and agree with it when no row is charged by the hour. */
  lemma {:induction false} SplitCosts(rows: seq<ComponentRow>, ws: seq<Range>, w: Range, basis: Basis)
    requires Tiles(ws, w) && forall i :: 0 <= i < |ws| ==> ws[i].lo % HOUR == 0
    requires forall r :: r in rows ==> Metered(r) && Taxed(r, HourPrice(r), basis) >= 0.0
    ensures 0.0 <= MonthlyCosts(rows, ws, basis) - Costs(rows, w, basis) <= HourPrices(rows, basis)
  {
    hide Taxed, CostIn, TotalCost, HourPrice, Metered, MonthlyCosts, Tiles;
    if rows == [] {
      NoCosts(ws, basis);
    } else {
      MonthlyCostsByRow(rows, ws, basis);
      assert rows[0] in rows;
      var extra := SplitCost(rows[0], ws, w);
      ExtraTaxed(rows[0], extra, CostIn(rows[0], w), TotalCost(rows[0], ws), basis);
      SplitCosts(rows[1..], ws, w, basis);
    }
  }

  /** The total of the bill for `f`. */
  function Total(table: seq<ComponentRow>, f: EventFilter, basis: Basis): real {
    match Bill(table, f) case Ok(rows) => Sum(RowPrices(rows, basis)) case Err(_) => 0.0
  }

  function Totals(table: seq<ComponentRow>, fs: seq<EventFilter>, basis: Basis): real {
    if fs == [] then 0.0 else Total(table, fs[0], basis) + Totals(table, fs[1..], basis)
  }

  lemma {:induction false} MeteredRowsPrice(rows: seq<ComponentRow>, w: Range)
    requires forall r :: r in rows ==> Metered(r)
    ensures PriceAll(rows, w).Some?
  {
    if rows != [] {
      assert rows[0] in rows;
      MeterMeaning(rows[0].formula, RowInputs(rows[0]), Seconds(rows[0].duration.Meet(w)));
      MeteredRowsPrice(rows[1..], w);
    }
  }

  lemma WantedPart(table: seq<ComponentRow>, part: Range, w: Range, orgs: seq<string>)
    requires part.Inside(w)
    ensures forall r :: r in Filter(Wanted(part, orgs), table) ==> r in Filter(Wanted(w, orgs), table)
  {
    FilterMembers(Wanted(part, orgs), table);
    FilterMembers(Wanted(w, orgs), table);
  }

  /** The bill for a part `f` of the window of `whole`, when every component that `whole` concerns is metered. */
  lemma MeteredBill(table: seq<ComponentRow>, f: EventFilter, whole: EventFilter, basis: Basis)
    requires f.Valid() && Before(f.start.value, f.stop.value)
    requires whole.Valid() && whole.orgs == f.orgs && f.Instants().Inside(whole.Instants())
    requires forall r :: r in Asked(table, whole) ==> Metered(r)
    ensures Bill(table, f).Ok?
    ensures Total(table, f, basis) == Costs(Asked(table, whole), f.Instants(), basis)
  {
    var w := f.Instants();
    WantedPart(table, w, whole.Instants(), f.orgs);
    MeteredRowsPrice(Filter(Wanted(w, f.orgs), table), w);
    PricesAreCosts(table, w, whole.Instants(), f.orgs, basis);
    BillConserves(PriceAll(Filter(Wanted(w, f.orgs), table), w).value);
  }

  lemma {:induction false} TotalsAreCosts(table: seq<ComponentRow>, fs: seq<EventFilter>, whole: EventFilter,
      basis: Basis)
    requires whole.Valid() && forall r :: r in Asked(table, whole) ==> Metered(r)
    requires forall i :: 0 <= i < |fs| ==>
               fs[i].Valid() && Before(fs[i].start.value, fs[i].stop.value) && fs[i].orgs == whole.orgs
               && fs[i].Instants().Inside(whole.Instants())
    ensures Totals(table, fs, basis) == MonthlyCosts(Asked(table, whole), Windows(fs), basis)
  {
    hide Asked, Total, Costs;
    if fs != [] {
      MeteredBill(table, fs[0], whole, basis);
      TotalsAreCosts(table, fs[1..], whole, basis);
      assert Windows(fs)[1..] == Windows(fs[1..]);
    }
  }

  lemma PiecesInside(f: EventFilter)
    requires f.Valid() && Before(f.start.value, f.stop.value)
    ensures f.SplitByMonth().Ok?
    ensures forall i :: 0 <= i < |f.SplitByMonth().value| ==>
              f.SplitByMonth().value[i].Valid() && f.SplitByMonth().value[i].Instants().Inside(f.Instants())
  {
    MonthWindows(f);
    var fs := f.SplitByMonth().value;
    TilesBounds(Windows(fs), f.Instants());
    assert forall i :: 0 <= i < |fs| ==> Windows(fs)[i] == fs[i].Instants();
  }

  /** Every component that the query concerns is metered, and an hour of it costs no less than nothing. */
  ghost predicate AskedAreMetered(table: seq<ComponentRow>, f: EventFilter, basis: Basis)
    requires f.Valid()
  {
    forall r :: r in Asked(table, f) ==> Metered(r) && Taxed(r, HourPrice(r), basis) >= 0.0
  }

  /** What one started hour more of every component that the query concerns would cost. */
  ghost function AskedHours(table: seq<ComponentRow>, f: EventFilter, basis: Basis): real
    requires f.Valid() && AskedAreMetered(table, f, basis)
  {
    HourPrices(Asked(table, f), basis)
  }

  /** The API's answer, month by month, against one query for the whole window, before and after VAT: it never
      charges less, and it charges at most one started hour more for each component that the query concerns. */
  lemma SplitBills(table: seq<ComponentRow>, f: EventFilter, basis: Basis)
    requires f.Valid() && Before(f.start.value, f.stop.value) && AskedAreMetered(table, f, basis)
    ensures f.SplitByMonth().Ok? && Bill(table, f).Ok?
    ensures 0.0 <= Totals(table, f.SplitByMonth().value, basis) - Total(table, f, basis) <= AskedHours(table, f, basis)
  {
    hide Asked, Total, Totals, Costs, MonthlyCosts;
    SplitByMonthMeaning(f);
    MonthWindows(f);
    PiecesInside(f);
    MeteredBill(table, f, f, basis);
    TotalsAreCosts(table, f.SplitByMonth().value, f, basis);
    SplitCosts(Asked(table, f), Windows(f.SplitByMonth().value), f.Instants(), basis);
  }
}
