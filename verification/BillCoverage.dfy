/** When the range `[event_start, event_stop)` that a bill row reports was charged throughout. */
module BillCoverage {
  import opened Base
  import opened Calendar
  import opened EventFilters
  import opened Timeline
  import opened Events
  import opened Components
  import opened ComponentTable
  import opened MonthlyBills
  import Bills

  /** The group that an event belongs to at `t`, by the plan version then in force. */
  function KeyAt(cat: Catalogue, ev: EventRow, t: int): Option<Bills.GroupKey> {
    match Lookup(VersionsOf(cat.plans, ev.planGuid), t)
    case None => None
    case Some(p) =>
      var v := InputsOf(ev, p.data);
      Some(Bills.GroupKey(ev.subject, ev.planGuid, v.nodes, v.memory, v.storage))
  }

  /** The group that the event is charged in at `t`: none while it does not last, while no plan version is in
      force, or while no component of the plan version finds its rates. */
  function ChargedKey(cat: Catalogue, ev: EventRow, t: int): Option<Bills.GroupKey> {
    if ev.duration.Contains(t) && ChargesAt(cat, ev.planGuid, t) != [] then KeyAt(cat, ev, t) else None
  }

  /** Some component in the row's details is charged at `t`. */
  ghost predicate ChargedAt(row: Bills.BillRow, t: int) {
    exists d :: d in row.details && d.row.duration.Contains(t)
  }

  lemma {:induction false} TableHas(cat: Catalogue, events: seq<EventRow>, e: nat, n: nat) returns (m: nat)
    requires AllPriced(cat, events).Some? && e < |events| && n < |EventRows(cat, events[e])|
    ensures m < |AllPriced(cat, events).value| && EventRows(cat, events[e])[n].Some?
    ensures From(cat, events[e], EventRows(cat, events[e])[n].value, AllPriced(cat, events).value[m])
  {
    hide EventRows, CostOf, RowOf;
    var head := Priced(events[0], EventRows(cat, events[0])).value;
    PricedRows(events[0], EventRows(cat, events[0]));
    if e == 0 {
      m := n;
      var s := EventRows(cat, events[0])[n].value;
      assert EventRows(cat, events[0])[n] == Some(s);
      assert Some(s) in EventRows(cat, events[0]);
    } else {
      m := TableHas(cat, events[1..], e - 1, n);
      m := m + |head|;
    }
  }

  lemma {:induction false} TagsAtWitness(rows: Rows, t: int) returns (n: nat)
    requires TagsAt(rows, t) != []
    ensures n < |rows| && rows[n].Some? && rows[n].value.range.Contains(t)
  {
    if rows[0].Some? && rows[0].value.range.Contains(t) {
      n := 0;
    } else {
      n := TagsAtWitness(rows[1..], t);
      n := n + 1;
    }
  }

  /** An event that is charged at `t` has a row there. */
  lemma EventCharged(cat: Catalogue, ev: EventRow, t: int) returns (n: nat)
    requires cat.Valid() && ev.duration.Contains(t) && ChargesAt(cat, ev.planGuid, t) != []
    ensures n < |EventRows(cat, ev)| && EventRows(cat, ev)[n].Some? && EventRows(cat, ev)[n].value.range.Contains(t)
  {
    hide EventRows, ChargesAt, TagsAt;
    RowsArePointwise(cat, ev, t);
    n := TagsAtWitness(EventRows(cat, ev), t);
  }

  lemma {:induction false} TagsAtOf(rows: Rows, s: Slice, t: int)
    requires Some(s) in rows && s.range.Contains(t)
    ensures TagsAt(rows, t) != []
  {
    if rows[0] != Some(s) {
      assert Some(s) in rows[1..];
      TagsAtOf(rows[1..], s, t);
    }
  }

  /** ... and the other way round. */
  lemma SliceIsCharged(cat: Catalogue, ev: EventRow, s: Slice, t: int)
    requires cat.Valid() && Some(s) in EventRows(cat, ev) && s.range.Contains(t)
    ensures ev.duration.Contains(t) && ChargesAt(cat, ev.planGuid, t) != []
  {
    hide EventRows, ChargesAt, TagsAt;
    RowOrigin(cat, ev, s);
    TagsAtOf(EventRows(cat, ev), s, t);
    RowsArePointwise(cat, ev, t);
  }

  /** With checked rates, a billable event is charged whenever a plan version is in force. */
  lemma CheckedIsCharged(cat: Catalogue, ev: EventRow, t: int)
    requires cat.Valid() && RatesChecked(cat) && Billable(cat, ev) && ev.duration.Contains(t)
    ensures ChargedKey(cat, ev, t) == KeyAt(cat, ev, t)
  {
    var h := VersionsOf(cat.plans, ev.planGuid);
    if Lookup(h, t).Some? {
      var p := Lookup(h, t).value;
      LookupMember(h, t);
      CutIsPointwise(h, ev.duration, t);
      var at := Filter(CoversAt(t), PlanPieces(cat, ev));
      FilterMembers(CoversAt(t), PlanPieces(cat, ev));
      assert at[0] in PlanPieces(cat, ev) && at[0].version == p;
      var c := p.data.components[0];
      assert c in p.data.components;
      var i :| 0 <= i < |h| && h[i] == p;
      assert RatesFrom(cat, c, p.from);
      ChargeStarts(cat, p, c, t);
      ComponentCharged(cat, p, p.data.components, c, t);
    }
  }

  lemma {:induction false} PricedHas(rows: seq<ComponentRow>, w: Range, n: nat)
    requires Bills.PriceAll(rows, w).Some? && n < |rows|
    ensures n < |Bills.PriceAll(rows, w).value| && Bills.PriceIn(rows[n], w) == Some(Bills.PriceAll(rows, w).value[n])
  {
    if n > 0 {
      PricedHas(rows[1..], w, n - 1);
    }
  }

  /** A wanted table row is in the details of the bill row with its key. */
  lemma DetailOf(table: seq<ComponentRow>, f: EventFilter, row: Bills.BillRow, m: nat)
    returns (d: Bills.PricedComponent)
    requires Bills.Bill(table, f).Ok? && row in Bills.Bill(table, f).value && m < |table|
    requires Bills.Wanted(Bills.Window(f).value, f.orgs)(table[m])
    requires row.key
          == Bills.GroupKey(table[m].subject, table[m].planGuid, table[m].nodes, table[m].memory, table[m].storage)
    ensures d in row.details && d.row == Bills.Clipped(table[m], Bills.Window(f).value)
    ensures Bills.PriceIn(table[m], Bills.Window(f).value) == Some(d)
  {
    var w := Bills.Window(f).value;
    var wanted := Filter(Bills.Wanted(w, f.orgs), table);
    var priced := Bills.PriceAll(wanted, w).value;
    FilterMembers(Bills.Wanted(w, f.orgs), table);
    assert table[m] in wanted;
    var n :| 0 <= n < |wanted| && wanted[n] == table[m];
    PricedHas(wanted, w, n);
    d := priced[n];
    Bills.GroupByMeaning(priced);
    FilterMembers(Bills.HasKey(row.key), priced);
    assert d in priced && Bills.HasKey(row.key)(d);
  }

  /** ... and every detail of a bill row is such a table row. */
  lemma DetailOrigin(table: seq<ComponentRow>, f: EventFilter, row: Bills.BillRow, d: Bills.PricedComponent)
    returns (m: nat)
    requires Bills.Bill(table, f).Ok? && row in Bills.Bill(table, f).value && d in row.details
    ensures m < |table| && Bills.Wanted(Bills.Window(f).value, f.orgs)(table[m])
    ensures d.row == Bills.Clipped(table[m], Bills.Window(f).value) && Bills.KeyOf(d) == row.key
    ensures Bills.PriceIn(table[m], Bills.Window(f).value) == Some(d)
  {
    var w := Bills.Window(f).value;
    var wanted := Filter(Bills.Wanted(w, f.orgs), table);
    var priced := Bills.PriceAll(wanted, w).value;
    Bills.GroupByMeaning(priced);
    FilterMembers(Bills.HasKey(row.key), priced);
    assert d in priced;
    var n :| 0 <= n < |priced| && priced[n] == d;
    PricedFrom(wanted, w, n);
    FilterMembers(Bills.Wanted(w, f.orgs), table);
    assert wanted[n] in table;
    m :| 0 <= m < |table| && table[m] == wanted[n];
  }

  lemma {:induction false} BoundsAttained(ps: seq<Bills.PricedComponent>)
    requires ps != []
    ensures exists d :: d in ps && d.row.duration.lo == Bills.MinLower(ps)
    ensures exists d :: d in ps && d.row.duration.hi == Bills.MaxUpper(ps)
  {
    if |ps| > 1 {
      BoundsAttained(ps[1..]);
      var d :| d in ps[1..] && d.row.duration.lo == Bills.MinLower(ps[1..]);
      var u :| u in ps[1..] && u.row.duration.hi == Bills.MaxUpper(ps[1..]);
      assert d in ps && u in ps && ps[0] in ps;
    } else {
      assert ps[0] in ps;
    }
  }

  /** `row` is a row of the bill for `f` over the components built for `events`, and it charges event `ev`. */
  ghost predicate Billed(cat: Catalogue, events: seq<EventRow>, f: EventFilter, ev: EventRow, row: Bills.BillRow) {
    && cat.Valid() && DistinctGuids(events) && BuildComponents(cat, events).Ok?
    && Bills.Bill(BuildComponents(cat, events).value, f).Ok?
    && row in Bills.Bill(BuildComponents(cat, events).value, f).value
    && ev in events && ev.subject.eventGuid == row.key.subject.eventGuid
  }

  /** The slice of the event behind one detail of a bill row. */
  lemma DetailSlice(cat: Catalogue, events: seq<EventRow>, f: EventFilter, ev: EventRow, row: Bills.BillRow,
      d: Bills.PricedComponent)
    returns (s: Slice)
    requires Billed(cat, events, f, ev, row) && d in row.details
    ensures Some(s) in EventRows(cat, ev) && d.row.duration == s.range.Meet(Bills.Window(f).value)
    ensures !d.row.duration.Empty()
    ensures f.orgs == [] || ev.subject.orgGuid in f.orgs
    ensures forall t :: d.row.duration.Contains(t) ==> KeyAt(cat, ev, t) == Some(row.key)
  {
    hide Bills.Bill, Bills.Window, BuildComponents, EventRows, CostOf;
    var table := BuildComponents(cat, events).value;
    var m := DetailOrigin(table, f, row, d);
    var g;
    g, s := TableOrigin(cat, events, m);
    assert events[g] == ev;
    RowOrigin(cat, ev, s);
    assert forall t :: d.row.duration.Contains(t) ==> s.range.Contains(t);
  }

  /** The range a bill row reports lies in the window, and it is charged at both its ends. */
  lemma RowBounds(cat: Catalogue, events: seq<EventRow>, f: EventFilter, ev: EventRow, row: Bills.BillRow)
    requires Billed(cat, events, f, ev, row)
    ensures Bills.Window(f).value.lo <= row.start < row.stop <= Bills.Window(f).value.hi
    ensures ChargedAt(row, row.start) && ChargedAt(row, row.stop - 1)
    ensures f.orgs == [] || ev.subject.orgGuid in f.orgs
  {
    hide Bills.Bill, BuildComponents, KeyAt, EventRows;
    var a, b := RowEdges(BuildComponents(cat, events).value, f, row);
    var first := DetailSlice(cat, events, f, ev, row, a);
    var last := DetailSlice(cat, events, f, ev, row, b);
    assert a.row.duration.Contains(row.start) && b.row.duration.Contains(row.stop - 1);
  }

  lemma RowEdges(table: seq<ComponentRow>, f: EventFilter, row: Bills.BillRow)
    returns (a: Bills.PricedComponent, b: Bills.PricedComponent)
    requires Bills.Bill(table, f).Ok? && row in Bills.Bill(table, f).value
    ensures a in row.details && a.row.duration.lo == row.start && a.row.duration.hi <= row.stop
    ensures b in row.details && b.row.duration.hi == row.stop
  {
    var w := Bills.Window(f).value;
    Bills.GroupByMeaning(Bills.PriceAll(Filter(Bills.Wanted(w, f.orgs), table), w).value);
    BoundsAttained(row.details);
    a :| a in row.details && a.row.duration.lo == Bills.MinLower(row.details);
    b :| b in row.details && b.row.duration.hi == Bills.MaxUpper(row.details);
    StartBeforeStop(row.details, a);
  }

  lemma {:induction false} StartBeforeStop(ps: seq<Bills.PricedComponent>, a: Bills.PricedComponent)
    requires a in ps
    ensures Bills.MinLower(ps) <= a.row.duration.lo && a.row.duration.hi <= Bills.MaxUpper(ps)
  {
    if |ps| > 1 && a != ps[0] {
      assert a in ps[1..];
      StartBeforeStop(ps[1..], a);
    }
  }

  lemma SameFrom<T>(h: History<T>, v: Version<T>, w: Version<T>)
    requires Sorted(h) && v in h && w in h
    ensures v.from == w.from ==> v == w
  {
    var i :| 0 <= i < |h| && h[i] == v;
    var j :| 0 <= j < |h| && h[j] == w;
  }

  lemma KeyedIsCharged(cat: Catalogue, events: seq<EventRow>, f: EventFilter, ev: EventRow, row: Bills.BillRow, t: int)
    requires Billed(cat, events, f, ev, row) && (f.orgs == [] || ev.subject.orgGuid in f.orgs)
    requires Bills.Window(f).value.Contains(t) && ChargedKey(cat, ev, t) == Some(row.key)
    ensures ChargedAt(row, t)
  {
    hide Bills.Bill, Bills.Window, BuildComponents, ChargedKey, EventRows, Filter;
    var table := BuildComponents(cat, events).value;
    var m := ChargedRow(cat, events, f, ev, t);
    var d := DetailOf(table, f, row, m);
    assert d.row.duration.Contains(t);
  }

  /** The table row that charges an event at an instant of the window. */
  lemma ChargedRow(cat: Catalogue, events: seq<EventRow>, f: EventFilter, ev: EventRow, t: int) returns (m: nat)
    requires cat.Valid() && DistinctGuids(events) && BuildComponents(cat, events).Ok? && ev in events
    requires Bills.Window(f).Ok? && Bills.Window(f).value.Contains(t) && ChargedKey(cat, ev, t).Some?
    requires f.orgs == [] || ev.subject.orgGuid in f.orgs
    ensures m < |BuildComponents(cat, events).value|
    ensures Bills.Wanted(Bills.Window(f).value, f.orgs)(BuildComponents(cat, events).value[m])
    ensures BuildComponents(cat, events).value[m].duration.Contains(t)
    ensures var row := BuildComponents(cat, events).value[m];
            ChargedKey(cat, ev, t)
                == Some(Bills.GroupKey(row.subject, row.planGuid, row.nodes, row.memory, row.storage))
  {
    hide BuildComponents, Bills.Window, EventRows, CostOf, ChargesAt;
    var table := BuildComponents(cat, events).value;
    var n := EventCharged(cat, ev, t);
    var e :| 0 <= e < |events| && events[e] == ev;
    m := TableHas(cat, events, e, n);
    var s := EventRows(cat, ev)[n].value;
    assert Some(s) in EventRows(cat, ev);
    RowOrigin(cat, ev, s);
    assert table[m].duration.Meet(Bills.Window(f).value).Contains(t);
  }

  /** The exact condition: a bill row is charged at an instant of the window if and only if the event is
      charged there in the row's own group. */
  lemma RowCoverage(cat: Catalogue, events: seq<EventRow>, f: EventFilter, ev: EventRow, row: Bills.BillRow, t: int)
    requires Billed(cat, events, f, ev, row) && Bills.Window(f).value.Contains(t)
    ensures ChargedAt(row, t) <==> ChargedKey(cat, ev, t) == Some(row.key)
  {
    hide Bills.Bill, BuildComponents, Bills.Window, EventRows, ChargesAt, KeyAt;
    if ChargedAt(row, t) {
      var d :| d in row.details && d.row.duration.Contains(t);
      var s := DetailSlice(cat, events, f, ev, row, d);
      SliceIsCharged(cat, ev, s, t);
    }
    if ChargedKey(cat, ev, t) == Some(row.key) {
      RowBounds(cat, events, f, ev, row);
      KeyedIsCharged(cat, events, f, ev, row, t);
    }
  }

  // ----- Gaps -----

  /** Some row of the event's bill reports an instant at which it is not charged. */
  ghost predicate HasGap(cat: Catalogue, events: seq<EventRow>, f: EventFilter, ev: EventRow) {
    exists row, t :: Billed(cat, events, f, ev, row) && row.start <= t < row.stop && !ChargedAt(row, t)
  }

  /** In the window the event is charged in some group, later it is not, and later still it is again. */
  ghost predicate Returns(cat: Catalogue, ev: EventRow, w: Range) {
    exists a, b, c :: ReturnsAt(cat, ev, w, a, b, c)
  }

  ghost predicate ReturnsAt(cat: Catalogue, ev: EventRow, w: Range, a: int, b: int, c: int) {
    && w.lo <= a < b < c < w.hi
    && ChargedKey(cat, ev, a).Some?
    && ChargedKey(cat, ev, a) == ChargedKey(cat, ev, c)
    && ChargedKey(cat, ev, b) != ChargedKey(cat, ev, a)
  }

  lemma {:induction false} GroupOf(ps: seq<Bills.PricedComponent>, p: Bills.PricedComponent)
    returns (row: Bills.BillRow)
    requires p in ps
    ensures row in Bills.GroupBy(ps) && row.key == Bills.KeyOf(p)
    decreases |ps|
  {
    var k := Bills.KeyOf(ps[0]);
    Bills.HeadInGroup(ps);
    row := Bills.GroupBy(ps)[0];
    if Bills.KeyOf(p) != k {
      var rest := Filter(Bills.LacksKey(k), ps);
      FilterMembers(Bills.LacksKey(k), ps);
      row := GroupOf(rest, p);
      assert row in Bills.GroupBy(rest);
    }
  }

  /** A group that the event is charged in at an instant of the window has its row in the bill. */
  lemma ChargedIsBilled(cat: Catalogue, events: seq<EventRow>, f: EventFilter, ev: EventRow, t: int)
    returns (row: Bills.BillRow)
    requires cat.Valid() && DistinctGuids(events) && BuildComponents(cat, events).Ok? && ev in events
    requires Bills.Bill(BuildComponents(cat, events).value, f).Ok?
    requires Bills.Window(f).value.Contains(t) && ChargedKey(cat, ev, t).Some?
    requires f.orgs == [] || ev.subject.orgGuid in f.orgs
    ensures Billed(cat, events, f, ev, row) && Some(row.key) == ChargedKey(cat, ev, t)
  {
    hide BuildComponents, ChargedKey, Bills.Bill, Bills.Window;
    var m := ChargedRow(cat, events, f, ev, t);
    row := RowIsBilled(BuildComponents(cat, events).value, f, m);
    assert ChargedKey(cat, ev, t).value.subject == ev.subject by {
      KeySubject(cat, ev, t);
    }
  }

  lemma KeySubject(cat: Catalogue, ev: EventRow, t: int)
    requires ChargedKey(cat, ev, t).Some?
    ensures ChargedKey(cat, ev, t).value.subject == ev.subject
  {
  }

  /** Every wanted table row has a row with its key in the bill. */
  lemma RowIsBilled(table: seq<ComponentRow>, f: EventFilter, m: nat) returns (row: Bills.BillRow)
    requires Bills.Bill(table, f).Ok? && m < |table| && Bills.Wanted(Bills.Window(f).value, f.orgs)(table[m])
    ensures row in Bills.Bill(table, f).value
    ensures row.key == Bills.GroupKey(table[m].subject, table[m].planGuid, table[m].nodes, table[m].memory,
            table[m].storage)
  {
    var w := Bills.Window(f).value;
    var wanted := Filter(Bills.Wanted(w, f.orgs), table);
    FilterMembers(Bills.Wanted(w, f.orgs), table);
    assert table[m] in wanted;
    var n :| 0 <= n < |wanted| && wanted[n] == table[m];
    PricedHas(wanted, w, n);
    row := GroupOf(Bills.PriceAll(wanted, w).value, Bills.PriceAll(wanted, w).value[n]);
  }

  lemma ChargedInside(cat: Catalogue, events: seq<EventRow>, f: EventFilter, ev: EventRow, row: Bills.BillRow, t: int)
    requires Billed(cat, events, f, ev, row) && ChargedAt(row, t)
    ensures row.start <= t < row.stop
  {
    hide BuildComponents;
    var table, w := BuildComponents(cat, events).value, Bills.Window(f).value;
    Bills.GroupByMeaning(Bills.PriceAll(Filter(Bills.Wanted(w, f.orgs), table), w).value);
    var d :| d in row.details && d.row.duration.Contains(t);
    StartBeforeStop(row.details, d);
  }

  /** On the catalogue, the event and the window alone: the event's bill has a gap if and only if the event is
      asked for and returns to a group after leaving it. */
  lemma GapIffReturns(cat: Catalogue, events: seq<EventRow>, f: EventFilter, ev: EventRow)
    requires cat.Valid() && DistinctGuids(events) && BuildComponents(cat, events).Ok? && ev in events
    requires Bills.Bill(BuildComponents(cat, events).value, f).Ok?
    ensures HasGap(cat, events, f, ev) <==>
            (f.orgs == [] || ev.subject.orgGuid in f.orgs) && Returns(cat, ev, Bills.Window(f).value)
  {
    if HasGap(cat, events, f, ev) {
      GapReturns(cat, events, f, ev);
    }
    if (f.orgs == [] || ev.subject.orgGuid in f.orgs) && Returns(cat, ev, Bills.Window(f).value) {
      ReturnGaps(cat, events, f, ev);
    }
  }

  lemma GapReturns(cat: Catalogue, events: seq<EventRow>, f: EventFilter, ev: EventRow)
    requires HasGap(cat, events, f, ev) && Bills.Window(f).Ok?
    ensures (f.orgs == [] || ev.subject.orgGuid in f.orgs) && Returns(cat, ev, Bills.Window(f).value)
  {
    hide Bills.Bill, BuildComponents, ChargedKey, ChargedAt, Bills.Window, Billed;
    var row, t :| Billed(cat, events, f, ev, row) && row.start <= t < row.stop && !ChargedAt(row, t);
    RowEnds(cat, events, f, ev, row);
    RowCoverage(cat, events, f, ev, row, t);
    assert ReturnsAt(cat, ev, Bills.Window(f).value, row.start, t, row.stop - 1);
  }

  /** A bill row lies in the window and is charged, in its own group, at both ends. */
  lemma RowEnds(cat: Catalogue, events: seq<EventRow>, f: EventFilter, ev: EventRow, row: Bills.BillRow)
    requires Billed(cat, events, f, ev, row)
    ensures cat.Valid() && (f.orgs == [] || ev.subject.orgGuid in f.orgs)
    ensures Bills.Window(f).value.lo <= row.start < row.stop <= Bills.Window(f).value.hi
    ensures ChargedAt(row, row.start) && ChargedAt(row, row.stop - 1)
    ensures ChargedKey(cat, ev, row.start) == Some(row.key) == ChargedKey(cat, ev, row.stop - 1)
  {
    hide Bills.Bill, BuildComponents, ChargedKey, ChargedAt, Bills.Window;
    RowBounds(cat, events, f, ev, row);
    RowCoverage(cat, events, f, ev, row, row.start);
    RowCoverage(cat, events, f, ev, row, row.stop - 1);
  }

  lemma ReturnGaps(cat: Catalogue, events: seq<EventRow>, f: EventFilter, ev: EventRow)
    requires cat.Valid() && DistinctGuids(events) && BuildComponents(cat, events).Ok? && ev in events
    requires Bills.Bill(BuildComponents(cat, events).value, f).Ok?
    requires f.orgs == [] || ev.subject.orgGuid in f.orgs
    requires Returns(cat, ev, Bills.Window(f).value)
    ensures HasGap(cat, events, f, ev)
  {
    hide Bills.Bill, BuildComponents, ChargedKey, ChargedAt, Bills.Window, Billed;
    var a, b, c :| ReturnsAt(cat, ev, Bills.Window(f).value, a, b, c);
    var row := ChargedIsBilled(cat, events, f, ev, a);
    RowCoverage(cat, events, f, ev, row, a);
    RowCoverage(cat, events, f, ev, row, b);
    RowCoverage(cat, events, f, ev, row, c);
    ChargedInside(cat, events, f, ev, row, a);
    ChargedInside(cat, events, f, ev, row, c);
  }

  /** Within two months, the version in force at `t` is the one in force before or after it. */
  lemma AtMostTwoVersions(h: History<PlanTerms>, k: int, lo: int, t: int, hi: int)
    requires Sorted(h) && forall i :: 0 <= i < |h| ==> StartOfMonth(h[i].from)
    requires MonthInstant(k) <= lo <= t <= hi < MonthInstant(k + 2) && Lookup(h, lo).Some?
    ensures Lookup(h, t) == Lookup(h, lo) || Lookup(h, t) == Lookup(h, hi)
  {
    LookupMember(h, lo);
    var p := Lookup(h, lo).value;
    LookupNewest(h, p, t);
    var v := Lookup(h, t).value;
    LookupNewest(h, v, hi);
    var q := Lookup(h, hi).value;
    SameFrom(h, p, v);
    SameFrom(h, v, q);
    if p.from < v.from < q.from {
      var a :| 0 <= a < |h| && h[a] == v;
      var b :| 0 <= b < |h| && h[b] == q;
      if v.from <= lo {
        LookupNewest(h, v, lo);
      }
      NoMonthStartInside(k, v.from);
      NoMonthStartInside(k + 1, q.from);
    }
  }

  lemma AtMostTwoKeys(cat: Catalogue, ev: EventRow, k: int, lo: int, t: int, hi: int)
    requires cat.Valid() && KeyAt(cat, ev, lo).Some?
    requires MonthInstant(k) <= lo <= t <= hi < MonthInstant(k + 2)
    ensures KeyAt(cat, ev, t) == KeyAt(cat, ev, lo) || KeyAt(cat, ev, t) == KeyAt(cat, ev, hi)
  {
    AtMostTwoVersions(VersionsOf(cat.plans, ev.planGuid), k, lo, t, hi);
  }

  /** A window of at most two months, and so every window that `SplitByMonth` produces, sees at most two
      versions of a plan: inside the range it reports a bill row is charged whenever the event is charged at
      all, and so, when the rates were checked, throughout. */
  lemma TwoMonthsGapFree(cat: Catalogue, events: seq<EventRow>, f: EventFilter, ev: EventRow, row: Bills.BillRow,
      t: int)
    requires Billed(cat, events, f, ev, row) && row.start <= t < row.stop
    requires f.Valid() && Before(f.start.value, f.stop.value) && Within(f, 2)
    ensures ChargedAt(row, t) <==> ChargesAt(cat, ev.planGuid, t) != []
    ensures RatesChecked(cat) ==> ChargedAt(row, t)
  {
    hide Bills.Bill, BuildComponents, Bills.Window, KeyAt, ChargesAt, Within, RatesChecked, ChargedAt, Billable;
    KeyInside(cat, events, f, ev, row, t);
    RowBounds(cat, events, f, ev, row);
    RowCoverage(cat, events, f, ev, row, t);
    if RatesChecked(cat) {
      BilledIsBillable(cat, events, f, ev, row);
      CheckedIsCharged(cat, ev, t);
    }
  }

  lemma KeyInside(cat: Catalogue, events: seq<EventRow>, f: EventFilter, ev: EventRow, row: Bills.BillRow, t: int)
    requires Billed(cat, events, f, ev, row) && row.start <= t < row.stop
    requires f.Valid() && Before(f.start.value, f.stop.value) && Within(f, 2)
    ensures ev.duration.Contains(t) && KeyAt(cat, ev, t) == Some(row.key)
  {
    hide Billed, Bills.Window, ChargedKey, ChargedAt, Within, MonthInstant;
    RowEnds(cat, events, f, ev, row);
    WindowMonths(f, 2);
    KeyBetween(cat, ev, row.key, f.start.value.month, row.start, t, row.stop - 1);
  }

  lemma KeyBetween(cat: Catalogue, ev: EventRow, key: Bills.GroupKey, k: int, lo: int, t: int, hi: int)
    requires cat.Valid() && ChargedKey(cat, ev, lo) == Some(key) == ChargedKey(cat, ev, hi)
    requires MonthInstant(k) <= lo <= t <= hi < MonthInstant(k + 2)
    ensures ev.duration.Contains(t) && KeyAt(cat, ev, t) == Some(key)
  {
    hide MonthInstant, KeyAt, ChargesAt;
    AtMostTwoKeys(cat, ev, k, lo, t, hi);
  }

  lemma BilledIsBillable(cat: Catalogue, events: seq<EventRow>, f: EventFilter, ev: EventRow, row: Bills.BillRow)
    requires Billed(cat, events, f, ev, row)
    ensures Billable(cat, ev)
  {
    hide Bills.Bill, BuildComponents, Billable, Rated, Evaluates;
    BuildSucceeds(cat, events);
  }
}
