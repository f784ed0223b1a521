/** `eventio.EventFilter`: the query window and its split into calendar months. */
module EventFilters {
  import opened Base
  import opened Calendar
  import opened Timeline

  /** `[start, stop)` between two midnights. */
  function Between(start: CivilDate, stop: CivilDate): Range {
    Range(Midnight(start), Midnight(stop))
  }

  /** A bound is `None` when the text is not a date; `orgs` empty means every organisation. */
  datatype EventFilter = EventFilter(start: Option<CivilDate>, stop: Option<CivilDate>, orgs: seq<string>) {
    predicate Valid() {
      start.Some? && stop.Some?
    }

    /** `[start, stop)` */
    function Instants(): Range
      requires Valid()
    {
      Between(start.value, stop.value)
    }

    function SplitByMonth(): Result<seq<EventFilter>> {
      if !Valid() then Err("invalid date")
      else Ok(RecursiveSplitByMonth(start.value, stop.value))
    }

    function RecursiveSplitByMonth(t1: CivilDate, t2: CivilDate): seq<EventFilter>
      decreases t2.month - t1.month, if Before(t1, t2) then 1 else 0
    {
      if !Before(t1, t2) then []
      else
        var next := Calendar.TruncateMonth(AddMonth(t1));
        [EventFilter(Some(t1), Some(MinDate(t2, next)), orgs)] + RecursiveSplitByMonth(next, t2)
    }

    function TruncateMonth(): Result<EventFilter> {
      if !Valid() then Err("invalid date")
      else Ok(EventFilter(Some(Calendar.TruncateMonth(start.value)), Some(Calendar.TruncateMonth(stop.value)), orgs))
    }
  }

  /** The pieces run from `t1` to `t2` without gap or overlap, none is empty, and they only meet
      on the first of a month. */
  ghost predicate Splits(pieces: seq<EventFilter>, t1: CivilDate, t2: CivilDate, orgs: seq<string>) {
    && |pieces| > 0
    && (forall i :: 0 <= i < |pieces| ==>
          pieces[i].Valid() && pieces[i].orgs == orgs && Before(pieces[i].start.value, pieces[i].stop.value))
    && pieces[0].start == Some(t1)
    && pieces[|pieces| - 1].stop == Some(t2)
    && (forall i :: 0 < i < |pieces| ==>
          pieces[i - 1].stop == pieces[i].start && pieces[i].start.value.day == 1)
  }

  /** The window ends no later than `months` month starts after its first day. */
  ghost predicate Within(f: EventFilter, months: int)
    requires f.Valid()
  {
    !Before(FirstOf(f.start.value.month + months), f.stop.value)
  }

  lemma {:induction false} SplitTiles(f: EventFilter, t1: CivilDate, t2: CivilDate)
    requires Before(t1, t2)
    ensures Splits(f.RecursiveSplitByMonth(t1, t2), t1, t2, f.orgs)
    decreases t2.month - t1.month
  {
    var next := Calendar.TruncateMonth(AddMonth(t1));
    if Before(next, t2) {
      SplitTiles(f, next, t2);
    }
  }

  /** The day of the month survives `AddDate(0, 1, 0)`, or the window ends before it matters. */
  predicate FirstPieceRegular(t1: CivilDate, t2: CivilDate) {
    t1.day <= MonthLength(t1.month + 1) || !Before(FirstOf(t1.month + 1), t2)
  }

  /** Every piece after the first lies in one calendar month. The first may run into a second month
      (January 30th to March 1st), never into a third, and does so exactly when its start day does not
      exist in the following month and the window goes beyond that month's first day. */
  lemma {:induction false} SplitMonths(f: EventFilter, t1: CivilDate, t2: CivilDate)
    requires Before(t1, t2)
    ensures var pieces := f.RecursiveSplitByMonth(t1, t2);
            && Splits(pieces, t1, t2, f.orgs)
            && (forall i :: 0 < i < |pieces| ==> Within(pieces[i], 1))
            && (Within(pieces[0], 1) <==> FirstPieceRegular(t1, t2))
            && Within(pieces[0], 2)
    decreases t2.month - t1.month
  {
    SplitTiles(f, t1, t2);
    var next := Calendar.TruncateMonth(AddMonth(t1));
    if Before(next, t2) {
      SplitMonths(f, next, t2);
    }
  }

  /** `SplitByMonth` as its callers see it: an error for a bound that is not a date, nothing for an
      empty or reversed window, otherwise the tiling above. */
  lemma SplitByMonthMeaning(f: EventFilter)
    ensures f.SplitByMonth().Ok? <==> f.Valid()
    ensures f.Valid() && !Before(f.start.value, f.stop.value) ==> f.SplitByMonth() == Ok([])
    ensures f.Valid() && Before(f.start.value, f.stop.value) ==>
              var pieces := f.SplitByMonth().value;
              && Splits(pieces, f.start.value, f.stop.value, f.orgs)
              && (forall i :: 0 < i < |pieces| ==> Within(pieces[i], 1))
              && (Within(pieces[0], 1) <==> FirstPieceRegular(f.start.value, f.stop.value))
              && Within(pieces[0], 2)
  {
    if f.Valid() && Before(f.start.value, f.stop.value) {
      SplitMonths(f, f.start.value, f.stop.value);
    }
  }

  /** The first piece of `2018-01-30 .. 2018-04-01` covers the whole of February. */
  lemma SplitSpansTwoMonths()
    ensures var f := EventFilter(Some(Date(12 * 2018, 30)), Some(Date(12 * 2018 + 3, 1)), []);
            && f.SplitByMonth().Ok? && |f.SplitByMonth().value| > 0
            && f.SplitByMonth().value[0] == EventFilter(Some(Date(12 * 2018, 30)), Some(Date(12 * 2018 + 2, 1)), [])
  {
    assert AddMonth(Date(12 * 2018, 30)) == Date(12 * 2018 + 2, 2);
  }

  /** Month number `k` as a window. */
  function MonthFilter(k: int, orgs: seq<string>): EventFilter {
    EventFilter(Some(FirstOf(k)), Some(FirstOf(k + 1)), orgs)
  }

  /** Months `a`, `a + 1`, ..., `b - 1`. */
  function MonthFilters(a: int, b: int, orgs: seq<string>): seq<EventFilter> {
    if a >= b then [] else seq(b - a, i => MonthFilter(a + i, orgs))
  }

  /** Between month starts, the pieces are exactly the calendar months in order. */
  lemma {:induction false} WholeMonthsSplit(f: EventFilter, t1: CivilDate, t2: CivilDate)
    requires t1.day == t2.day == 1
    ensures f.RecursiveSplitByMonth(t1, t2) == MonthFilters(t1.month, t2.month, f.orgs)
    decreases t2.month - t1.month
  {
    if Before(t1, t2) {
      var next := Calendar.TruncateMonth(AddMonth(t1));
      WholeMonthsSplit(f, next, t2);
      assert MinDate(t2, next) == next == FirstOf(t1.month + 1);
      assert MonthFilters(t1.month, t2.month, f.orgs)
          == [MonthFilter(t1.month, f.orgs)] + MonthFilters(t1.month + 1, t2.month, f.orgs);
    }
  }

  /** Truncating first turns any window into the calendar months from the start's month up to,
      and not including, the stop's month. */
  lemma TruncatedSplit(f: EventFilter)
    requires f.Valid()
    ensures f.TruncateMonth().Ok?
    ensures f.TruncateMonth().value.SplitByMonth()
         == Ok(MonthFilters(f.start.value.month, f.stop.value.month, f.orgs))
  {
    var g := f.TruncateMonth().value;
    WholeMonthsSplit(g, g.start.value, g.stop.value);
  }
}
