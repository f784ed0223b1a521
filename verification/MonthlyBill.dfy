/** What the bill of a calendar month owes to plan versions starting only on the first of a month. */
module MonthlyBills {
  import opened Base
  import opened Calendar
  import opened EventFilters
  import opened Timeline
  import opened Events
  import opened Components
  import opened ComponentTable
  import Bills

  /** Rows of one event and plan agree on everything a bill groups by, unless they are separated by the
      month start at which the later one's plan version began. */
  ghost predicate MonthSeparated(a: ComponentRow, b: ComponentRow) {
    a.subject.eventGuid == b.subject.eventGuid && a.planGuid == b.planGuid ==>
      || (a.subject == b.subject && a.nodes == b.nodes && a.memory == b.memory && a.storage == b.storage)
      || (StartOfMonth(b.planFrom) && a.duration.hi <= b.planFrom <= b.duration.lo)
      || (StartOfMonth(a.planFrom) && b.duration.hi <= a.planFrom <= a.duration.lo)
  }

  /** What consolidation relies on; it holds of every table that was ever built. */
  ghost predicate MonthSafe(table: seq<ComponentRow>) {
    forall i, j :: 0 <= i < j < |table| ==> MonthSeparated(table[i], table[j])
  }

  lemma SlicesSeparated(cat: Catalogue, ev: EventRow, s: Slice, u: Slice)
    requires cat.Valid() && Some(s) in EventRows(cat, ev) && Some(u) in EventRows(cat, ev)
    requires s.tag.plan.from < u.tag.plan.from
    ensures StartOfMonth(u.tag.plan.from) && s.range.hi <= u.tag.plan.from <= u.range.lo
  {
    var h := VersionsOf(cat.plans, ev.planGuid);
    RowOrigin(cat, ev, s);
    RowOrigin(cat, ev, u);
    assert Lookup(h, u.range.lo) == Some(u.tag.plan);
    LookupMember(h, u.range.lo);
    var i :| 0 <= i < |h| && h[i] == u.tag.plan;
    if u.tag.plan.from < s.range.hi {
      var t := s.range.hi - 1;
      assert s.range.Contains(t);
      LookupNewest(h, u.tag.plan, t);
    }
  }

  lemma SamePlanVersion(cat: Catalogue, ev: EventRow, s: Slice, u: Slice)
    requires cat.Valid() && Some(s) in EventRows(cat, ev) && Some(u) in EventRows(cat, ev)
    requires s.tag.plan.from == u.tag.plan.from
    ensures s.tag.plan == u.tag.plan
  {
    hide EventRows;
    var h := VersionsOf(cat.plans, ev.planGuid);
    RowOrigin(cat, ev, s);
    RowOrigin(cat, ev, u);
    LookupMember(h, s.range.lo);
    LookupMember(h, u.range.lo);
    assert Lookup(h, s.range.lo) == Some(s.tag.plan) && Lookup(h, u.range.lo) == Some(u.tag.plan);
    var i :| 0 <= i < |h| && h[i] == s.tag.plan;
    var j :| 0 <= j < |h| && h[j] == u.tag.plan;
  }

  /** Every table the rebuild produces is safe to consolidate by month. */
  lemma BuiltTableIsMonthSafe(cat: Catalogue, events: seq<EventRow>)
    requires cat.Valid() && DistinctGuids(events) && BuildComponents(cat, events).Ok?
    ensures MonthSafe(BuildComponents(cat, events).value)
  {
    hide BuildComponents, EventRows, CostOf;
    var table := BuildComponents(cat, events).value;
    forall i, j | 0 <= i < j < |table| ensures MonthSeparated(table[i], table[j]) {
      var e, s := TableOrigin(cat, events, i);
      var d, u := TableOrigin(cat, events, j);
      if table[i].subject.eventGuid == table[j].subject.eventGuid {
        assert e == d;
        if s.tag.plan.from < u.tag.plan.from {
          SlicesSeparated(cat, events[e], s, u);
        } else if u.tag.plan.from < s.tag.plan.from {
          SlicesSeparated(cat, events[e], u, s);
        } else {
          SamePlanVersion(cat, events[e], s, u);
        }
      }
    }
  }

  // ----- The snapshot's primary key -----

  /** `PRIMARY KEY (consolidated_range, event_guid, plan_guid)` within one range */
  ghost predicate SnapshotKeysDistinct(rows: seq<Bills.BillRow>) {
    forall i, j :: 0 <= i < j < |rows| ==>
      !(rows[i].key.subject.eventGuid == rows[j].key.subject.eventGuid && rows[i].key.planGuid == rows[j].key.planGuid)
  }

  lemma {:induction false} PricedFrom(rows: seq<ComponentRow>, w: Range, i: nat)
    requires Bills.PriceAll(rows, w).Some? && i < |Bills.PriceAll(rows, w).value|
    ensures i < |rows| && Bills.PriceIn(rows[i], w) == Some(Bills.PriceAll(rows, w).value[i])
  {
    if i > 0 {
      PricedFrom(rows[1..], w, i - 1);
    }
  }

  /** Each bill row's key is that of some table row that overlaps the window. */
  lemma BillRowOrigin(table: seq<ComponentRow>, f: EventFilter, i: nat) returns (p: nat)
    requires Bills.Bill(table, f).Ok? && i < |Bills.Bill(table, f).value|
    ensures p < |table| && table[p].duration.Overlaps(Bills.Window(f).value)
    ensures Bills.Bill(table, f).value[i].key
         == Bills.GroupKey(table[p].subject, table[p].planGuid, table[p].nodes, table[p].memory, table[p].storage)
  {
    var w := Bills.Window(f).value;
    var wanted := Filter(Bills.Wanted(w, f.orgs), table);
    var priced := Bills.PriceAll(wanted, w).value;
    var key := Bills.Bill(table, f).value[i].key;
    Bills.GroupByMeaning(priced);
    var group := Filter(Bills.HasKey(key), priced);
    FilterMembers(Bills.HasKey(key), priced);
    assert group[0] in priced;
    var n :| 0 <= n < |priced| && priced[n] == group[0];
    PricedFrom(wanted, w, n);
    FilterMembers(Bills.Wanted(w, f.orgs), table);
    assert wanted[n] in table;
    p :| 0 <= p < |table| && table[p] == wanted[n];
  }

  /** A window of at most `n` months in instants. */
  lemma WindowMonths(f: EventFilter, n: int)
    requires f.Valid() && Before(f.start.value, f.stop.value) && Within(f, n)
    ensures Bills.Window(f).Ok?
    ensures MonthInstant(f.start.value.month) <= Bills.Window(f).value.lo < Bills.Window(f).value.hi
            <= MonthInstant(f.start.value.month + n)
  {
    var k := f.start.value.month;
    BeforeIsEarlierDay(f.start.value, f.stop.value);
    BeforeIsEarlierDay(FirstOf(k + n), f.stop.value);
    assert DayNumber(FirstOf(k)) <= DayNumber(f.start.value) < DayNumber(f.stop.value) <= DayNumber(FirstOf(k + n));
  }

  /** Strictly inside a month no plan version starts. */
  lemma NoMonthStartInside(k: int, t: int)
    requires StartOfMonth(t) && MonthInstant(k) < t
    ensures MonthInstant(k + 1) <= t
  {
    var m :| t == MonthInstant(m);
    if m <= k {
      if m < k {
        MonthInstantMonotone(m, k);
      }
    } else if k + 1 < m {
      MonthInstantMonotone(k + 1, m);
    }
  }

  /** Rows of one event and plan that overlap the same month are in the same group. */
  lemma SameMonthSameGroup(a: ComponentRow, b: ComponentRow, k: int, w: Range)
    requires MonthSeparated(a, b) && a.subject.eventGuid == b.subject.eventGuid && a.planGuid == b.planGuid
    requires MonthInstant(k) <= w.lo && w.hi <= MonthInstant(k + 1)
    requires a.duration.Overlaps(w) && b.duration.Overlaps(w)
    ensures a.subject == b.subject && a.nodes == b.nodes && a.memory == b.memory && a.storage == b.storage
  {
    hide MonthInstant, StartOfMonth;
    if StartOfMonth(b.planFrom) && a.duration.hi <= b.planFrom <= b.duration.lo {
      NoMonthStartInside(k, b.planFrom);
    }
    if StartOfMonth(a.planFrom) && b.duration.hi <= a.planFrom <= a.duration.lo {
      NoMonthStartInside(k, a.planFrom);
    }
  }

  /** A bill's keys are all different. */
  lemma BillKeysDistinct(table: seq<ComponentRow>, f: EventFilter, i: nat, j: nat)
    requires Bills.Bill(table, f).Ok? && i < j < |Bills.Bill(table, f).value|
    ensures Bills.Bill(table, f).value[i].key != Bills.Bill(table, f).value[j].key
  {
    var w := Bills.Window(f).value;
    Bills.GroupByMeaning(Bills.PriceAll(Filter(Bills.Wanted(w, f.orgs), table), w).value);
  }

  /** Consolidating a window inside one calendar month never breaks the snapshot's primary key: no two
      bill rows have the same event and plan. */
  lemma MonthlyKeysDistinct(table: seq<ComponentRow>, f: EventFilter)
    requires MonthSafe(table) && f.Valid() && Before(f.start.value, f.stop.value) && Within(f, 1)
    requires Bills.Bill(table, f).Ok?
    ensures SnapshotKeysDistinct(Bills.Bill(table, f).value)
  {
    hide Bills.Bill, Bills.Window, MonthInstant, MonthSeparated, Within;
    var rows, w := Bills.Bill(table, f).value, Bills.Window(f).value;
    WindowMonths(f, 1);
    forall i, j | 0 <= i < j < |rows|
      ensures !(rows[i].key.subject.eventGuid == rows[j].key.subject.eventGuid
              && rows[i].key.planGuid == rows[j].key.planGuid)
    {
      var p := BillRowOrigin(table, f, i);
      var q := BillRowOrigin(table, f, j);
      BillKeysDistinct(table, f, i, j);
      if rows[i].key.subject.eventGuid == rows[j].key.subject.eventGuid
          && rows[i].key.planGuid == rows[j].key.planGuid {
        assert p != q;
        if p < q {
          SameMonthSameGroup(table[p], table[q], f.start.value.month, w);
        } else {
          SameMonthSameGroup(table[q], table[p], f.start.value.month, w);
        }
      }
    }
  }
}
