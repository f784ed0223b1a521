/** What a bill says, column by column, of the component rows that it is made of. */
module BillColumns {
  import opened Base
  import opened Calendar
  import opened EventFilters
  import opened Timeline
  import opened Formulas
  import opened ComponentTable
  import opened Bills
  import opened BillCoverage

  /** The row is charged at some instant of the query and belongs to an organisation asked for; a query that
      names no organisation asks for all. */
  ghost predicate Concerns(f: EventFilter, r: ComponentRow)
    requires f.Valid()
  {
    && (exists t :: r.duration.Contains(t) && Midnight(f.start.value) <= t < Midnight(f.stop.value))
    && (|f.orgs| > 0 ==> exists i :: 0 <= i < |f.orgs| && f.orgs[i] == r.subject.orgGuid)
  }

  /** Column by column, the detail that a component row should give: its own columns, clipped to the query, priced
      by its formula for the seconds that are left, at its exchange rate, and always said to be in pounds. */
  ghost predicate IsDetail(d: PricedComponent, r: ComponentRow, f: EventFilter)
    requires f.Valid()
  {
    var start, stop := Midnight(f.start.value), Midnight(f.stop.value);
    var lo := if r.duration.lo < start then start else r.duration.lo;
    var hi := if stop < r.duration.hi then stop else r.duration.hi;
    && d.row.duration == Range(lo, hi)
    && d.row.component == r.component && d.row.planName == r.planName
    && d.row.vatCode == r.vatCode && d.row.vatRate == r.vatRate && d.row.currencyCode == "GBP"
    && match Eval(r.formula, Inputs(r.memory, r.storage, r.nodes), (hi - lo) as real / 1000000.0)
       case None => false
       case Some(price) =>
         d.exVat == price * r.currencyRate && d.IncVat() == price * r.currencyRate * (1.0 + r.vatRate)
  }

  /** The row is grouped by exactly these columns. */
  ghost predicate InGroup(row: BillRow, r: ComponentRow) {
    && row.key.subject == r.subject && row.key.planGuid == r.planGuid
    && row.key.nodes == r.nodes && row.key.memory == r.memory && row.key.storage == r.storage
  }

  lemma ConcernsIsWanted(f: EventFilter, r: ComponentRow)
    requires f.Valid()
    ensures Concerns(f, r) <==> Wanted(f.Instants(), f.orgs)(r)
  {
    var w, both := f.Instants(), r.duration.Meet(f.Instants());
    if !both.Empty() {
      assert r.duration.Contains(both.lo) && w.Contains(both.lo);
    }
    assert |f.orgs| > 0 && r.subject.orgGuid in f.orgs ==>
        exists i :: 0 <= i < |f.orgs| && f.orgs[i] == r.subject.orgGuid;
  }

  lemma PricedIsDetail(d: PricedComponent, r: ComponentRow, f: EventFilter)
    requires f.Valid() && PriceIn(r, f.Instants()) == Some(d)
    ensures IsDetail(d, r, f)
  {
    hide Eval, Midnight;
    var price := Eval(r.formula, Inputs(r.memory, r.storage, r.nodes), Seconds(r.duration.Meet(f.Instants()))).value;
    assert d.exVat == price * r.currencyRate && d.IncVat() == d.exVat * (1.0 + r.vatRate);
  }

  /** The details of a bill row are those of exactly the component rows in its group that the query concerns. */
  lemma RowDetails(table: seq<ComponentRow>, f: EventFilter, row: BillRow)
    requires Bill(table, f).Ok? && row in Bill(table, f).value
    ensures f.Valid()
    ensures forall d :: d in row.details ==>
              exists r :: r in table && Concerns(f, r) && InGroup(row, r) && IsDetail(d, r, f)
    ensures forall r :: r in table && Concerns(f, r) && InGroup(row, r) ==>
              exists d :: d in row.details && IsDetail(d, r, f)
  {
    hide IsDetail, Concerns, PriceIn, Bill, Clipped, Wanted;
    forall d | d in row.details
      ensures exists r :: r in table && Concerns(f, r) && InGroup(row, r) && IsDetail(d, r, f)
    {
      var m := DetailOrigin(table, f, row, d);
      ConcernsIsWanted(f, table[m]);
      PricedIsDetail(d, table[m], f);
      SameGroup(d, table[m], row, f);
      assert table[m] in table;
    }
    forall r | r in table && Concerns(f, r) && InGroup(row, r)
      ensures exists d :: d in row.details && IsDetail(d, r, f)
    {
      ConcernsIsWanted(f, r);
      var m :| 0 <= m < |table| && table[m] == r;
      var d := DetailOf(table, f, row, m);
      PricedIsDetail(d, r, f);
    }
  }

  lemma SameGroup(d: PricedComponent, r: ComponentRow, row: BillRow, f: EventFilter)
    requires f.Valid() && PriceIn(r, f.Instants()) == Some(d) && KeyOf(d) == row.key
    ensures InGroup(row, r)
  {
  }

  /** Its range is the smallest that holds theirs, and its prices are their sums. */
  lemma RowTotals(table: seq<ComponentRow>, f: EventFilter, row: BillRow)
    requires Bill(table, f).Ok? && row in Bill(table, f).value
    ensures forall d :: d in row.details ==> row.start <= d.row.duration.lo && d.row.duration.hi <= row.stop
    ensures exists d :: d in row.details && d.row.duration.lo == row.start
    ensures exists d :: d in row.details && d.row.duration.hi == row.stop
    ensures row.exVat == Sum(Map((d: PricedComponent) => d.exVat, row.details))
    ensures row.incVat == Sum(Map((d: PricedComponent) => d.IncVat(), row.details))
  {
    hide PriceAll, Sum, Filter;
    var w := Window(f).value;
    var ps := PriceAll(Filter(Wanted(w, f.orgs), table), w).value;
    GroupByMeaning(ps);
    BoundsAttained(row.details);
    forall d | d in row.details ensures row.start <= d.row.duration.lo && d.row.duration.hi <= row.stop {
      StartBeforeStop(row.details, d);
    }
  }

  /** Every component row that the query concerns is in a row of the bill, and in no second one. */
  lemma BillIsComplete(table: seq<ComponentRow>, f: EventFilter, r: ComponentRow) returns (i: nat)
    requires Bill(table, f).Ok? && f.Valid() && r in table && Concerns(f, r)
    ensures i < |Bill(table, f).value| && InGroup(Bill(table, f).value[i], r)
    ensures forall j :: 0 <= j < |Bill(table, f).value| && InGroup(Bill(table, f).value[j], r) ==> j == i
  {
    hide Concerns;
    var w := Window(f).value;
    ConcernsIsWanted(f, r);
    var m :| 0 <= m < |table| && table[m] == r;
    var row := RowIsBilled(table, f, m);
    i :| 0 <= i < |Bill(table, f).value| && Bill(table, f).value[i] == row;
    GroupByMeaning(PriceAll(Filter(Wanted(w, f.orgs), table), w).value);
  }

  /** The query fails exactly on a bound that is not a date, on bounds the wrong way round, or on a formula that
      divides by zero. */
  lemma BillSucceeds(table: seq<ComponentRow>, f: EventFilter)
    ensures Bill(table, f).Ok? <==>
            && f.Valid() && DayNumber(f.start.value) <= DayNumber(f.stop.value)
            && forall r :: r in table && Concerns(f, r) ==> exists d :: IsDetail(d, r, f)
  {
    hide Concerns, IsDetail, PriceIn;
    if f.Valid() {
      var w := f.Instants();
      BeforeIsEarlierDay(f.stop.value, f.start.value);
      var wanted := Filter(Wanted(w, f.orgs), table);
      FilterMembers(Wanted(w, f.orgs), table);
      AllPriced(wanted, w);
      forall r ensures Concerns(f, r) <==> Wanted(w, f.orgs)(r) {
        ConcernsIsWanted(f, r);
      }
      forall r ensures PriceIn(r, w).Some? <==> exists d :: IsDetail(d, r, f) {
        DetailExists(r, f);
      }
    }
  }

  lemma {:induction false} AllPriced(rows: seq<ComponentRow>, w: Range)
    ensures PriceAll(rows, w).Some? <==> forall r :: r in rows ==> PriceIn(r, w).Some?
  {
    hide PriceIn;
    if rows != [] {
      AllPriced(rows[1..], w);
    }
  }

  lemma DetailExists(r: ComponentRow, f: EventFilter)
    requires f.Valid()
    ensures PriceIn(r, f.Instants()).Some? <==> exists d :: IsDetail(d, r, f)
  {
    if PriceIn(r, f.Instants()).Some? {
      PricedIsDetail(PriceIn(r, f.Instants()).value, r, f);
    }
  }
}
