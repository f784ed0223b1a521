/** The consolidation cache: whole months of bills, frozen when they were taken. */
module Consolidation {
  import opened Base
  import opened Calendar
  import opened EventFilters
  import opened Timeline
  import opened ComponentTable
  import opened MonthlyBills
  import opened Bills

  /** A `consolidated_range`: `[start, stop)` between midnights. */
  datatype DateRange = DateRange(start: CivilDate, stop: CivilDate)

  /** A row of `consolidated_billable_events`. */
  datatype Snapshot = Snapshot(range: DateRange, row: BillRow)

  /** `consolidation_history` and `consolidated_billable_events`. */
  datatype Cache = Cache(history: seq<DateRange>, snapshots: seq<Snapshot>)

  /** `d + interval '1 month'`, which stays in the next month (unlike Go's `AddDate`). */
  function PlusOneMonth(d: CivilDate): CivilDate {
    var last := MonthLength(d.month + 1);
    Date(d.month + 1, if d.day <= last then d.day else last)
  }

  /** The check constraints of `consolidation_history`. */
  predicate HistoryRowAllowed(r: DateRange) {
    && r.start != r.stop
    && r.start.day == 1
    && r.stop.day == 1
    && PlusOneMonth(r.start) == r.stop
  }

  /** `'[start, stop)'::tstzrange`, which fails on anything but two dates in order. */
  function RangeOf(f: EventFilter): Result<DateRange> {
    if !f.Valid() then Err("invalid date")
    else if Before(f.stop.value, f.start.value) then Err("range bounds")
    else Ok(DateRange(f.start.value, f.stop.value))
  }

  function IsRangeConsolidated(c: Cache, f: EventFilter): Result<bool> {
    match RangeOf(f)
    case Err(e) => Err(e)
    case Ok(r) => Ok(r in c.history)
  }

  function Snapshots(r: DateRange, rows: seq<BillRow>): seq<Snapshot> {
    Map((row: BillRow) => Snapshot(r, row), rows)
  }

  /** `PRIMARY KEY (consolidated_range, event_guid, plan_guid)` */
  predicate SnapshotsDistinct(ss: seq<Snapshot>) {
    forall i, j :: 0 <= i < j < |ss| ==>
      !(ss[i].range == ss[j].range
        && ss[i].row.key.subject.eventGuid == ss[j].row.key.subject.eventGuid
        && ss[i].row.key.planGuid == ss[j].row.key.planGuid)
  }

  /** The two inserts of `consolidate`, in one transaction. */
  function Consolidate(c: Cache, table: seq<ComponentRow>, f: EventFilter): Result<Cache> {
    if f.orgs != [] then Err("organisations")
    else
      match RangeOf(f)
      case Err(e) => Err(e)
      case Ok(r) =>
        if r in c.history then Err("duplicate key")
        else if !HistoryRowAllowed(r) then Err("check constraint")
        else
          match Bill(table, f)
          case Err(e) => Err(e)
          case Ok(rows) =>
            var snapshots := c.snapshots + Snapshots(r, rows);
            if !SnapshotsDistinct(snapshots) then Err("duplicate key")
            else Ok(Cache(c.history + [r], snapshots))
  }

  /** `checkMonthBoundary` */
  predicate OnMonthBoundary(d: CivilDate) {
    TruncateMonth(d) == d
  }

  function SpanOf(r: DateRange): Range {
    Between(r.start, r.stop)
  }

  /** `consolidated_range && $1 and org_guid = any (...)` */
  function Kept(w: Range, orgs: seq<string>): Snapshot -> bool {
    (s: Snapshot) => SpanOf(s.range).Overlaps(w) && ForOrgs(orgs)(s.row)
  }

  function RowsOf(ss: seq<Snapshot>): seq<BillRow> {
    Map((s: Snapshot) => s.row, ss)
  }

  /** `getConsolidatedBillableEventRows` */
  function GetConsolidated(c: Cache, f: EventFilter): Result<seq<BillRow>> {
    if !f.Valid() then Err("invalid date")
    else if !OnMonthBoundary(f.start.value) || !OnMonthBoundary(f.stop.value) then
      Err("month boundary")
    else
      match RangeOf(f)
      case Err(e) => Err(e)
      case Ok(r) => Ok(RowsOf(Filter(Kept(SpanOf(r), f.orgs), c.snapshots)))
  }

  // ----- What the tables keep -----

  ghost predicate Valid(c: Cache) {
    && (forall r :: r in c.history ==> HistoryRowAllowed(r))
    && (forall i, j :: 0 <= i < j < |c.history| ==> c.history[i] != c.history[j])
    && (forall s :: s in c.snapshots ==> s.range in c.history)
    && SnapshotsDistinct(c.snapshots)
  }

  function MonthRange(k: int): DateRange {
    DateRange(FirstOf(k), FirstOf(k + 1))
  }

  /** The constraints allow calendar months and nothing else. */
  lemma AllowedIsMonth(r: DateRange)
    ensures HistoryRowAllowed(r) <==> r == MonthRange(r.start.month)
  {
  }

  /** Different months do not overlap. */
  lemma MonthsOverlap(a: DateRange, b: DateRange)
    requires HistoryRowAllowed(a) && HistoryRowAllowed(b)
    ensures SpanOf(a).Overlaps(SpanOf(b)) <==> a == b
  {
    hide HistoryRowAllowed, SpanOf, MonthInstant;
    AllowedIsMonth(a);
    AllowedIsMonth(b);
    MonthSpan(a);
    MonthSpan(b);
    var j, k := a.start.month, b.start.month;
    MonthInstantMonotone(j, j + 1);
    MonthInstantMonotone(k, k + 1);
    if j + 1 < k {
      MonthInstantMonotone(j + 1, k);
    } else if k + 1 < j {
      MonthInstantMonotone(k + 1, j);
    }
  }

  lemma MonthSpan(r: DateRange)
    requires HistoryRowAllowed(r)
    ensures SpanOf(r) == Range(MonthInstant(r.start.month), MonthInstant(r.start.month + 1))
  {
    AllowedIsMonth(r);
  }

  function InRange(r: DateRange): Snapshot -> bool {
    (s: Snapshot) => s.range == r
  }

  /** The rows stored for one range. */
  function StoredRows(c: Cache, r: DateRange): seq<BillRow> {
    RowsOf(Filter(InRange(r), c.snapshots))
  }

  lemma KeptIsStored(ss: seq<Snapshot>, r: DateRange, orgs: seq<string>)
    requires HistoryRowAllowed(r) && forall s :: s in ss ==> HistoryRowAllowed(s.range)
    ensures RowsOf(Filter(Kept(SpanOf(r), orgs), ss)) == Filter(ForOrgs(orgs), RowsOf(Filter(InRange(r), ss)))
  {
    forall s | s in ss ensures Kept(SpanOf(r), orgs)(s) <==> InRange(r)(s) && ForOrgs(orgs)(s.row) {
      MonthsOverlap(s.range, r);
    }
    hide HistoryRowAllowed, SpanOf;
    RowsForOrgs(Kept(SpanOf(r), orgs), InRange(r), orgs, ss);
  }

  /** A range that is reported as consolidated can be read back: the month boundaries check out, and the
      overlap query finds that month's rows and no others. */
  lemma ConsolidatedIsReadable(c: Cache, f: EventFilter)
    requires Valid(c) && IsRangeConsolidated(c, f) == Ok(true)
    ensures f == MonthFilter(f.start.value.month, f.orgs)
    ensures GetConsolidated(c, f) == Ok(Filter(ForOrgs(f.orgs), StoredRows(c, RangeOf(f).value)))
  {
    hide SpanOf, SnapshotsDistinct, Kept, Filter;
    var r := RangeOf(f).value;
    AllowedIsMonth(r);
    forall s | s in c.snapshots ensures HistoryRowAllowed(s.range) {
      assert s.range in c.history;
    }
    KeptIsStored(c.snapshots, r, f.orgs);
  }

  /** The snapshot is of one of the months from `a` up to, not including, `b`. */
  function InMonths(a: int, b: int): Snapshot -> bool {
    (s: Snapshot) => a <= s.range.start.month < b
  }

  lemma MonthInWindow(r: DateRange, a: int, b: int)
    requires HistoryRowAllowed(r) && a <= b
    ensures SpanOf(r).Overlaps(Range(MonthInstant(a), MonthInstant(b))) <==> a <= r.start.month < b
  {
    hide HistoryRowAllowed, SpanOf, MonthInstant;
    MonthSpan(r);
    var k := r.start.month;
    MonthInstantMonotone(k, k + 1);
    if k < a && k + 1 < a {
      MonthInstantMonotone(k + 1, a);
    } else if a < k {
      MonthInstantMonotone(a, k);
    }
    if k + 1 < b {
      MonthInstantMonotone(k + 1, b);
    } else if b < k {
      MonthInstantMonotone(b, k);
    }
  }

  /** Reading any window from the cache fails exactly if a bound is not the first of a month or they are the wrong
      way round; otherwise it gives the stored rows of all the months in the window, for the organisations. */
  lemma GetConsolidatedMeaning(c: Cache, f: EventFilter)
    requires Valid(c)
    ensures GetConsolidated(c, f).Ok? <==>
            && f.Valid() && f.start.value.day == 1 && f.stop.value.day == 1
            && f.start.value.month <= f.stop.value.month
    ensures GetConsolidated(c, f).Ok? ==>
              GetConsolidated(c, f).value
              == Filter(ForOrgs(f.orgs),
                        RowsOf(Filter(InMonths(f.start.value.month, f.stop.value.month), c.snapshots)))
  {
    hide SnapshotsDistinct, Filter;
    if GetConsolidated(c, f).Ok? {
      var a, b := f.start.value.month, f.stop.value.month;
      var w := SpanOf(RangeOf(f).value);
      assert w == Range(MonthInstant(a), MonthInstant(b)) by {
        assert f.start.value == FirstOf(a) && f.stop.value == FirstOf(b);
      }
      forall s | s in c.snapshots
        ensures Kept(w, f.orgs)(s) <==> InMonths(a, b)(s) && ForOrgs(f.orgs)(s.row)
      {
        assert s.range in c.history;
        MonthInWindow(s.range, a, b);
      }
      RowsForOrgs(Kept(w, f.orgs), InMonths(a, b), f.orgs, c.snapshots);
    }
  }

  lemma {:induction false} RowsForOrgs(p: Snapshot -> bool, q: Snapshot -> bool, orgs: seq<string>, ss: seq<Snapshot>)
    requires forall s :: s in ss ==> (p(s) <==> q(s) && ForOrgs(orgs)(s.row))
    ensures RowsOf(Filter(p, ss)) == Filter(ForOrgs(orgs), RowsOf(Filter(q, ss)))
  {
    hide RowsOf, ForOrgs;
    if ss == [] {
      RowsOfCons([]);
    } else {
      RowsForOrgs(p, q, orgs, ss[1..]);
      RowsOfCons(Filter(p, ss));
      RowsOfCons(Filter(q, ss));
      FilterCons(ForOrgs(orgs), ss[0].row, RowsOf(Filter(q, ss[1..])));
    }
  }

  lemma RowsOfCons(ss: seq<Snapshot>)
    ensures RowsOf(ss) == if ss == [] then [] else [ss[0].row] + RowsOf(ss[1..])
  {
  }

  // ----- One consolidation -----

  lemma {:induction false} NewRowsStored(r: DateRange, q: DateRange, rows: seq<BillRow>)
    ensures RowsOf(Filter(InRange(q), Snapshots(r, rows))) == if q == r then rows else []
  {
    if rows != [] {
      NewRowsStored(r, q, rows[1..]);
      assert Snapshots(r, rows) == [Snapshot(r, rows[0])] + Snapshots(r, rows[1..]);
      FilterCons(InRange(q), Snapshot(r, rows[0]), Snapshots(r, rows[1..]));
      if q == r {
        assert RowsOf([Snapshot(r, rows[0])] + Filter(InRange(q), Snapshots(r, rows[1..]))) == rows;
      }
    }
  }

  lemma RowsOfConcat(a: seq<Snapshot>, b: seq<Snapshot>)
    ensures RowsOf(a + b) == RowsOf(a) + RowsOf(b)
  {
  }

  lemma {:induction false} NotStored(ss: seq<Snapshot>, r: DateRange)
    requires forall s :: s in ss ==> s.range != r
    ensures Filter(InRange(r), ss) == []
  {
    if ss != [] {
      assert ss[0] in ss;
      NotStored(ss[1..], r);
    }
  }

  lemma SnapshotAt(r: DateRange, rows: seq<BillRow>, i: nat)
    requires i < |rows|
    ensures Snapshots(r, rows)[i] == Snapshot(r, rows[i])
  {
  }

  lemma DistinctAppend(ss: seq<Snapshot>, r: DateRange, rows: seq<BillRow>)
    requires SnapshotsDistinct(ss) && SnapshotKeysDistinct(rows)
    requires forall i :: 0 <= i < |ss| ==> ss[i].range != r
    ensures SnapshotsDistinct(ss + Snapshots(r, rows))
  {
    hide Snapshots;
    var all, n := ss + Snapshots(r, rows), |ss|;
    assert |Snapshots(r, rows)| == |rows| by {
      SnapshotCount(r, rows);
    }
    forall i, j | 0 <= i < j < |all| && all[i].range == all[j].range
      ensures !(all[i].row.key.subject.eventGuid == all[j].row.key.subject.eventGuid
                && all[i].row.key.planGuid == all[j].row.key.planGuid)
    {
      if j >= n {
        SnapshotAt(r, rows, j - n);
        if i >= n {
          SnapshotAt(r, rows, i - n);
        }
      }
    }
  }

  lemma SnapshotCount(r: DateRange, rows: seq<BillRow>)
    ensures |Snapshots(r, rows)| == |rows|
  {
  }

  /** The snapshot's primary key is never the reason a consolidation fails. */
  lemma SnapshotsStayDistinct(c: Cache, table: seq<ComponentRow>, k: int)
    requires Valid(c) && MonthSafe(table) && MonthRange(k) !in c.history && Bill(table, MonthFilter(k, [])).Ok?
    ensures SnapshotsDistinct(c.snapshots + Snapshots(MonthRange(k), Bill(table, MonthFilter(k, [])).value))
  {
    hide Bill, Snapshots, MonthSafe, SnapshotsDistinct;
    MonthlyKeysDistinct(table, MonthFilter(k, []));
    forall i | 0 <= i < |c.snapshots| ensures c.snapshots[i].range != MonthRange(k) {
      assert c.snapshots[i] in c.snapshots;
    }
    assert SnapshotsDistinct(c.snapshots) by {
      ValidDistinct(c);
    }
    DistinctAppend(c.snapshots, MonthRange(k), Bill(table, MonthFilter(k, [])).value);
  }

  lemma ValidDistinct(c: Cache)
    requires Valid(c)
    ensures SnapshotsDistinct(c.snapshots)
  {
  }

  /** A consolidation succeeds exactly for a calendar month, without an organisations filter, that was not
      yet consolidated and whose bill can be computed. It stores that bill, for that month alone. */
  lemma ConsolidateMeaning(c: Cache, table: seq<ComponentRow>, f: EventFilter)
    requires Valid(c) && MonthSafe(table)
    ensures Consolidate(c, table, f).Ok? <==>
            f.Valid() && f == MonthFilter(f.start.value.month, []) && MonthRange(f.start.value.month) !in c.history
            && Bill(table, f).Ok?
    ensures Consolidate(c, table, f).Ok? ==>
              && Valid(Consolidate(c, table, f).value)
              && Consolidate(c, table, f).value.history == c.history + [RangeOf(f).value]
              && StoredRows(Consolidate(c, table, f).value, RangeOf(f).value) == Bill(table, f).value
              && forall q :: q in c.history ==> StoredRows(Consolidate(c, table, f).value, q) == StoredRows(c, q)
  {
    hide Bill, Snapshots, SnapshotsDistinct, MonthSafe, StoredRows;
    if f.Valid() && RangeOf(f).Ok? {
      var r := RangeOf(f).value;
      AllowedIsMonth(r);
      if f.orgs == [] && HistoryRowAllowed(r) && r !in c.history && Bill(table, f).Ok? {
        assert f == MonthFilter(f.start.value.month, []);
        SnapshotsStayDistinct(c, table, f.start.value.month);
        ConsolidateStores(c, table, f);
      }
    }
  }

  lemma ConsolidateStores(c: Cache, table: seq<ComponentRow>, f: EventFilter)
    requires Valid(c) && Consolidate(c, table, f).Ok?
    ensures Valid(Consolidate(c, table, f).value)
    ensures StoredRows(Consolidate(c, table, f).value, RangeOf(f).value) == Bill(table, f).value
    ensures forall q :: q in c.history ==> StoredRows(Consolidate(c, table, f).value, q) == StoredRows(c, q)
  {
    hide Bill, Snapshots, HistoryRowAllowed, SnapshotsDistinct;
    var r, rows := RangeOf(f).value, Bill(table, f).value;
    var d := Consolidate(c, table, f).value;
    forall q ensures StoredRows(d, q) == StoredRows(c, q) + if q == r then rows else [] {
      FilterConcat(InRange(q), c.snapshots, Snapshots(r, rows));
      RowsOfConcat(Filter(InRange(q), c.snapshots), Filter(InRange(q), Snapshots(r, rows)));
      NewRowsStored(r, q, rows);
    }
    NotStored(c.snapshots, r);
    forall s | s in d.snapshots ensures s.range in d.history {
      if s !in c.snapshots {
        var i :| 0 <= i < |d.snapshots| && d.snapshots[i] == s;
        SnapshotCount(r, rows);
        SnapshotAt(r, rows, i - |c.snapshots|);
        assert d.history[|c.history|] == r;
      }
    }
  }

  /** What was consolidated reads back, for every choice of organisations, as the bill at that moment. */
  lemma ConsolidatedBillReadsBack(c: Cache, table: seq<ComponentRow>, f: EventFilter, orgs: seq<string>)
    requires Valid(c) && MonthSafe(table) && Consolidate(c, table, f).Ok?
    ensures IsRangeConsolidated(Consolidate(c, table, f).value, f.(orgs := orgs)) == Ok(true)
    ensures GetConsolidated(Consolidate(c, table, f).value, f.(orgs := orgs)) == Bill(table, f.(orgs := orgs))
  {
    ConsolidateMeaning(c, table, f);
    var d := Consolidate(c, table, f).value;
    assert d.history[|c.history|] == RangeOf(f).value;
    ConsolidatedIsReadable(d, f.(orgs := orgs));
    BillForOrgs(table, f, orgs);
  }

  // ----- Full months -----

  /** The loop of `consolidateFullMonths`: every month that is not there yet. */
  function ConsolidateEach(c: Cache, table: seq<ComponentRow>, fs: seq<EventFilter>): Result<Cache>
    decreases |fs|
  {
    if fs == [] then Ok(c)
    else
      match IsRangeConsolidated(c, fs[0])
      case Err(e) => Err(e)
      case Ok(true) => ConsolidateEach(c, table, fs[1..])
      case Ok(false) =>
        match Consolidate(c, table, fs[0])
        case Err(e) => Err(e)
        case Ok(d) => ConsolidateEach(d, table, fs[1..])
  }

  function ConsolidateFullMonths(c: Cache, table: seq<ComponentRow>, startAt: Option<CivilDate>,
      endAt: Option<CivilDate>): Result<Cache> {
    match EventFilter(startAt, endAt, []).TruncateMonth()
    case Err(e) => Err(e)
    case Ok(truncated) =>
      match truncated.SplitByMonth()
      case Err(e) => Err(e)
      case Ok(months) => ConsolidateEach(c, table, months)
  }

  /** `d` is `c` with the months `a .. b` that were missing, each holding the bill of `table`, and with
      everything else as it was. */
  ghost predicate Extended(c: Cache, d: Cache, table: seq<ComponentRow>, a: int, b: int) {
    && (forall r :: r in d.history <==> r in c.history || (a <= r.start.month < b && r == MonthRange(r.start.month)))
    && (forall r :: r in c.history ==> StoredRows(d, r) == StoredRows(c, r))
    && (forall k :: a <= k < b && MonthRange(k) !in c.history ==>
          Bill(table, MonthFilter(k, [])) == Ok(StoredRows(d, MonthRange(k))))
  }

  lemma MonthFiltersTail(a: int, b: int)
    requires a < b
    ensures MonthFilters(a, b, []) != []
    ensures MonthFilters(a, b, [])[0] == MonthFilter(a, []) && MonthFilters(a, b, [])[1..] == MonthFilters(a + 1, b, [])
  {
  }

  lemma ExtendedStep(c: Cache, d: Cache, e: Cache, table: seq<ComponentRow>, a: int, b: int)
    requires a < b && Extended(d, e, table, a + 1, b)
    requires (d == c && MonthRange(a) in c.history)
          || (d.history == c.history + [MonthRange(a)] && MonthRange(a) !in c.history
              && Bill(table, MonthFilter(a, [])) == Ok(StoredRows(d, MonthRange(a)))
              && forall q :: q in c.history ==> StoredRows(d, q) == StoredRows(c, q))
    ensures Extended(c, e, table, a, b)
  {
    assert forall r :: r in d.history <==> r in c.history || r == MonthRange(a) by {
      if d.history == c.history + [MonthRange(a)] {
        assert d.history[|c.history|] == MonthRange(a);
      }
    }
    forall k | a <= k < b && MonthRange(k) !in c.history
      ensures Bill(table, MonthFilter(k, [])) == Ok(StoredRows(e, MonthRange(k)))
    {
      if k != a {
        assert MonthRange(k) != MonthRange(a);
      }
    }
  }

  /** Every month from `a` up to `b` that is not there yet can be billed. */
  ghost predicate MissingBilled(c: Cache, table: seq<ComponentRow>, a: int, b: int) {
    forall k :: a <= k < b && MonthRange(k) !in c.history ==> Bill(table, MonthFilter(k, [])).Ok?
  }

  lemma EachNone(c: Cache, table: seq<ComponentRow>, a: int, b: int)
    requires b <= a
    ensures ConsolidateEach(c, table, MonthFilters(a, b, [])) == Ok(c)
    ensures Extended(c, c, table, a, b) && MissingBilled(c, table, a, b)
  {
  }

  lemma EachStep(c: Cache, table: seq<ComponentRow>, a: int, b: int)
    requires a < b
    ensures ConsolidateEach(c, table, MonthFilters(a, b, []))
         == if MonthRange(a) in c.history then ConsolidateEach(c, table, MonthFilters(a + 1, b, []))
            else
              match Consolidate(c, table, MonthFilter(a, []))
              case Err(e) => Err(e)
              case Ok(d) => ConsolidateEach(d, table, MonthFilters(a + 1, b, []))
  {
    hide Consolidate, MonthFilters;
    MonthFiltersTail(a, b);
    assert RangeOf(MonthFilter(a, [])) == Ok(MonthRange(a));
  }

  lemma MissingStep(c: Cache, d: Cache, table: seq<ComponentRow>, a: int, b: int)
    requires a < b && (d.history == c.history || d.history == c.history + [MonthRange(a)])
    ensures MissingBilled(c, table, a, b) <==>
            (MonthRange(a) in c.history || Bill(table, MonthFilter(a, [])).Ok?) && MissingBilled(d, table, a + 1, b)
  {
    hide Bill;
    assert forall k :: a < k ==> (MonthRange(k) in d.history <==> MonthRange(k) in c.history);
  }

  lemma {:induction false} EachMeaning(c: Cache, table: seq<ComponentRow>, a: int, b: int)
    requires Valid(c) && MonthSafe(table)
    ensures ConsolidateEach(c, table, MonthFilters(a, b, [])).Ok? <==> MissingBilled(c, table, a, b)
    ensures ConsolidateEach(c, table, MonthFilters(a, b, [])).Ok? ==>
              && Valid(ConsolidateEach(c, table, MonthFilters(a, b, [])).value)
              && Extended(c, ConsolidateEach(c, table, MonthFilters(a, b, [])).value, table, a, b)
    decreases b - a
  {
    hide Bill, Consolidate, ConsolidateEach, MonthFilters, MonthSafe, StoredRows, Valid, Extended, MissingBilled;
    if b <= a {
      EachNone(c, table, a, b);
    } else {
      EachStep(c, table, a, b);
      if MonthRange(a) in c.history {
        MissingStep(c, c, table, a, b);
        EachMeaning(c, table, a + 1, b);
        if ConsolidateEach(c, table, MonthFilters(a + 1, b, [])).Ok? {
          ExtendedStep(c, c, ConsolidateEach(c, table, MonthFilters(a + 1, b, [])).value, table, a, b);
        }
      } else {
        var f := MonthFilter(a, []);
        assert RangeOf(f) == Ok(MonthRange(a));
        ConsolidateMeaning(c, table, f);
        if Bill(table, f).Ok? {
          var d := Consolidate(c, table, f).value;
          MissingStep(c, d, table, a, b);
          EachMeaning(d, table, a + 1, b);
          if ConsolidateEach(d, table, MonthFilters(a + 1, b, [])).Ok? {
            ExtendedStep(c, d, ConsolidateEach(d, table, MonthFilters(a + 1, b, [])).value, table, a, b);
          }
        } else {
          MissingStep(c, c, table, a, b);
        }
      }
    }
  }

  /** `ConsolidateFullMonths` succeeds exactly when both bounds are dates and every missing month can be
      billed; it then has consolidated the months from the start's month up to, and not including, the
      end's month, in addition to those it had. */
  lemma FullMonthsMeaning(c: Cache, table: seq<ComponentRow>, startAt: CivilDate, endAt: CivilDate)
    requires Valid(c) && MonthSafe(table)
    ensures ConsolidateFullMonths(c, table, Some(startAt), Some(endAt)).Ok? <==>
            MissingBilled(c, table, startAt.month, endAt.month)
    ensures ConsolidateFullMonths(c, table, Some(startAt), Some(endAt)).Ok? ==>
              && Valid(ConsolidateFullMonths(c, table, Some(startAt), Some(endAt)).value)
              && Extended(c, ConsolidateFullMonths(c, table, Some(startAt), Some(endAt)).value, table, startAt.month,
                  endAt.month)
  {
    TruncatedSplit(EventFilter(Some(startAt), Some(endAt), []));
    EachMeaning(c, table, startAt.month, endAt.month);
  }

  lemma {:induction false} EachPresent(c: Cache, table: seq<ComponentRow>, a: int, b: int)
    requires forall k :: a <= k < b ==> MonthRange(k) in c.history
    ensures ConsolidateEach(c, table, MonthFilters(a, b, [])) == Ok(c)
    decreases b - a
  {
    if a < b {
      MonthFiltersTail(a, b);
      assert RangeOf(MonthFilter(a, [])) == Ok(MonthRange(a));
      EachPresent(c, table, a + 1, b);
    }
  }

  /** Running it again changes nothing, whatever has become of the components in between. */
  lemma FullMonthsIdempotent(c: Cache, table: seq<ComponentRow>, later: seq<ComponentRow>, startAt: CivilDate,
      endAt: CivilDate)
    requires Valid(c) && MonthSafe(table) && ConsolidateFullMonths(c, table, Some(startAt), Some(endAt)).Ok?
    ensures var d := ConsolidateFullMonths(c, table, Some(startAt), Some(endAt)).value;
            ConsolidateFullMonths(d, later, Some(startAt), Some(endAt)) == Ok(d)
  {
    FullMonthsMeaning(c, table, startAt, endAt);
    TruncatedSplit(EventFilter(Some(startAt), Some(endAt), []));
    EachPresent(ConsolidateFullMonths(c, table, Some(startAt), Some(endAt)).value, later, startAt.month, endAt.month);
  }
}
