/** `billable_event_components_by_day`: a component's cost spread over the days it touches. */
module ByDay {
  import opened Calendar
  import opened Timeline
  import opened MonthSplit
  import opened Formulas

  function DayOf(t: int): int {
    t / DAY
  }

  function TimeOfDay(t: int): int {
    t % DAY
  }

  /** `GENERATE_SERIES(LOWER(duration), UPPER(duration), '1 day')`: how many instants it yields. */
  function SeriesLength(d: Range): nat
    requires !d.Empty()
  {
    (d.hi - d.lo) / DAY + 1
  }

  /** The day that contains the series' `i`-th instant. */
  function SeriesDay(d: Range, i: nat): int {
    DayOf(d.lo + i * DAY)
  }

  /** `UPPER - LOWER` of `'[midnight, midnight + 1 day - 1 second]' * duration`, which is NULL, and adds
      nothing to a sum, when that intersection is empty. */
  function Attributed(d: Range, day: int): int {
    var from, to := day * DAY, day * DAY + DAY - SECOND;
    var lo, hi := if from < d.lo then d.lo else from, if to < d.hi then to else d.hi;
    if lo <= hi then hi - lo else 0
  }

  /** `EXTRACT(EPOCH FROM day_duration) / EXTRACT(EPOCH FROM duration) * cost_for_duration` */
  function DayCost(d: Range, cost: real, day: int): real
    requires !d.Empty()
  {
    Product(Attributed(d, day) as real / 1000000.0 / Seconds(d), cost)
  }

  function TotalAttributed(d: Range, n: nat): int {
    if n == 0 then 0 else TotalAttributed(d, n - 1) + Attributed(d, SeriesDay(d, n - 1))
  }

  function TotalCost(d: Range, cost: real, n: nat): real
    requires !d.Empty()
  {
    if n == 0 then 0.0 else TotalCost(d, cost, n - 1) + DayCost(d, cost, SeriesDay(d, n - 1))
  }

  lemma SeriesDayIs(d: Range, i: nat)
    ensures SeriesDay(d, i) == DayOf(d.lo) + i
  {
  }

  /** The first `n` days of the series account for the time up to their end, less at most a second each. */
  lemma {:induction false} AttributedUpTo(d: Range, n: nat)
    requires !d.Empty()
    ensures var end := (DayOf(d.lo) + n) * DAY;
            var reached := if end < d.lo then 0 else (if end < d.hi then end else d.hi) - d.lo;
            reached - n * SECOND <= TotalAttributed(d, n) <= reached
  {
    if n > 0 {
      AttributedUpTo(d, n - 1);
      SeriesDayIs(d, n - 1);
    }
  }

  /** The series stops a day short exactly when the component ends earlier in the day than it starts. */
  lemma SeriesReaches(d: Range)
    requires !d.Empty()
    ensures var end := (DayOf(d.lo) + SeriesLength(d)) * DAY;
            && (TimeOfDay(d.lo) <= TimeOfDay(d.hi) ==> d.hi < end)
            && (TimeOfDay(d.hi) < TimeOfDay(d.lo) ==> end == d.hi - TimeOfDay(d.hi))
  {
    var days, a, b := DayOf(d.hi) - DayOf(d.lo), TimeOfDay(d.lo), TimeOfDay(d.hi);
    assert d.hi - d.lo == days * DAY + (b - a);
    if a <= b {
      assert (d.hi - d.lo) / DAY == days;
    } else {
      assert (d.hi - d.lo) / DAY == days - 1;
    }
  }

  /** What the day is not attributed, when the component ends earlier in the day than it starts. */
  function FinalDayLoss(d: Range): int {
    if TimeOfDay(d.hi) < TimeOfDay(d.lo) then TimeOfDay(d.hi) else 0
  }

  /** The days are never attributed more than the component's duration, and fall short of it by at most a
      second for each day and, only when it ends earlier in the day than it starts, by its last day. */
  lemma AttributedBounds(d: Range)
    requires !d.Empty()
    ensures TotalAttributed(d, SeriesLength(d)) <= d.hi - d.lo - FinalDayLoss(d)
    ensures d.hi - d.lo - FinalDayLoss(d) - SeriesLength(d) * SECOND <= TotalAttributed(d, SeriesLength(d))
    ensures 0 <= FinalDayLoss(d) < DAY
  {
    AttributedUpTo(d, SeriesLength(d));
    SeriesReaches(d);
  }

  /** The last second of a day. */
  function LastSecond(day: int): Range {
    Range((day + 1) * 86_400_000_000 - 1_000_000, (day + 1) * 86_400_000_000)
  }

  /** A day is attributed what the component has of it, except for what it has of the day's last second. */
  lemma AttributedExactly(d: Range, day: int)
    requires !d.Empty()
    ensures Attributed(d, day)
         == MicrosIn(d, Range(day * 86_400_000_000, (day + 1) * 86_400_000_000)) - MicrosIn(d, LastSecond(day))
  {
  }

  /** What the component has of the last seconds of the first `n` days of the series. */
  function LastSeconds(d: Range, n: nat): int
    requires !d.Empty()
  {
    if n == 0 then 0 else LastSeconds(d, n - 1) + MicrosIn(d, LastSecond(d.lo / 86_400_000_000 + n - 1))
  }

  /** How much of the component lies before `t`. */
  function Reached(d: Range, t: int): int {
    if t < d.lo then 0 else (if t < d.hi then t else d.hi) - d.lo
  }

  lemma DayReached(d: Range, day: int)
    requires !d.Empty()
    ensures Reached(d, (day + 1) * DAY)
         == Reached(d, day * DAY) + MicrosIn(d, Range(day * 86_400_000_000, (day + 1) * 86_400_000_000))
  {
  }

  lemma {:induction false} AttributedSoFar(d: Range, n: nat)
    requires !d.Empty()
    ensures TotalAttributed(d, n) == Reached(d, (DayOf(d.lo) + n) * DAY) - LastSeconds(d, n)
  {
    hide Reached, Attributed, MicrosIn;
    if n == 0 {
      NothingReached(d);
    } else {
      AttributedSoFar(d, n - 1);
      SeriesDayIs(d, n - 1);
      AttributedExactly(d, DayOf(d.lo) + n - 1);
      DayReached(d, DayOf(d.lo) + n - 1);
    }
  }

  lemma NothingReached(d: Range)
    requires !d.Empty()
    ensures Reached(d, DayOf(d.lo) * DAY) == 0
  {
  }

  /** All the days together are attributed the component's duration, except for the last seconds that it has and,
      when it ends earlier in the day than it starts, for its last day. */
  lemma AttributedTotal(d: Range)
    requires !d.Empty()
    ensures TotalAttributed(d, SeriesLength(d)) == d.hi - d.lo - FinalDayLoss(d) - LastSeconds(d, SeriesLength(d))
  {
    AttributedSoFar(d, SeriesLength(d));
    SeriesReaches(d);
  }

  /** The price of one microsecond of the component. */
  function UnitCost(d: Range, cost: real): real
    requires !d.Empty()
  {
    cost / (d.hi - d.lo) as real
  }

  lemma DayCostMeaning(d: Range, cost: real, day: int)
    requires !d.Empty()
    ensures DayCost(d, cost, day) == Product(Attributed(d, day) as real, UnitCost(d, cost))
  {
    var x, len := Attributed(d, day) as real, (d.hi - d.lo) as real;
    QuotientOfQuotients(x, len);
    SharedFactor(x, len, cost);
  }

  lemma QuotientOfQuotients(x: real, len: real)
    requires len > 0.0
    ensures x / 1000000.0 / (len / 1000000.0) == x / len
  {
  }

  lemma SharedFactor(x: real, len: real, cost: real)
    requires len > 0.0
    ensures Product(x / len, cost) == Product(x, cost / len)
  {
  }

  lemma ProductAdds(x: real, y: real, unit: real)
    ensures Product(x + y, unit) == Product(x, unit) + Product(y, unit)
  {
  }

  lemma ProductMonotone(x: real, y: real, unit: real)
    requires x <= y && unit >= 0.0
    ensures Product(x, unit) <= Product(y, unit)
  {
  }

  lemma {:induction false} TotalCostMeaning(d: Range, cost: real, n: nat)
    requires !d.Empty()
    ensures TotalCost(d, cost, n) == Product(TotalAttributed(d, n) as real, UnitCost(d, cost))
  {
    hide Product, UnitCost, Attributed, DayCost;
    if n > 0 {
      TotalCostMeaning(d, cost, n - 1);
      DayCostMeaning(d, cost, SeriesDay(d, n - 1));
      ProductAdds(TotalAttributed(d, n - 1) as real, Attributed(d, SeriesDay(d, n - 1)) as real, UnitCost(d, cost));
    } else {
      ProductAdds(0.0, 0.0, UnitCost(d, cost));
    }
  }

  lemma WholeCost(d: Range, cost: real)
    requires !d.Empty()
    ensures Product((d.hi - d.lo) as real, UnitCost(d, cost)) == cost
    ensures cost >= 0.0 ==> UnitCost(d, cost) >= 0.0
  {
  }

  /** The daily costs never sum above the component's cost, and what is missing is at most the price of
      the final day's loss and of one second for each day. */
  lemma DailyCostsBounded(d: Range, cost: real)
    requires !d.Empty() && cost >= 0.0
    ensures TotalCost(d, cost, SeriesLength(d)) <= cost
    ensures cost - TotalCost(d, cost, SeriesLength(d))
         <= Product((FinalDayLoss(d) + SeriesLength(d) * SECOND) as real, UnitCost(d, cost))
  {
    hide Product, UnitCost, TotalCost, TotalAttributed, SeriesLength, FinalDayLoss;
    var n, unit := SeriesLength(d), UnitCost(d, cost);
    AttributedBounds(d);
    TotalCostMeaning(d, cost, n);
    WholeCost(d, cost);
    var len, total, missing := d.hi - d.lo, TotalAttributed(d, n), FinalDayLoss(d) + n * SECOND;
    ProductMonotone(total as real, len as real, unit);
    ProductMonotone(len as real, total as real + missing as real, unit);
    ProductAdds(total as real, missing as real, unit);
  }
}
