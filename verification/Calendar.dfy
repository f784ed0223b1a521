/** The proleptic Gregorian calendar as Go's `time` package and PostgreSQL count it, in UTC. */
module Calendar {

  /** A day, by the number of its month (`12 * year + month - 1`, so that "the next month" is one
      more) and its day in that month. */
  datatype Date = Date(month: int, day: int)

  predicate LeapYear(year: int) {
    year % 4 == 0 && (year % 100 != 0 || year % 400 == 0)
  }

  function DaysIn(year: int, month: int): (n: int)
    requires 1 <= month <= 12
    ensures 28 <= n <= 31
  {
    if month == 2 then if LeapYear(year) then 29 else 28
    else if month in {4, 6, 9, 11} then 30
    else 31
  }

  /** The number of days in month number `k`. */
  function MonthLength(k: int): (n: int)
    ensures 28 <= n <= 31
  {
    DaysIn(k / 12, k % 12 + 1)
  }

  predicate ValidDate(d: Date) {
    1 <= d.day <= MonthLength(d.month)
  }

  /** What `time.Parse("2006-01-02", _)` can produce. */
  type CivilDate = d: Date | ValidDate(d) witness Date(EPOCH_MONTH, 1)

  /** `t1.Before(t2)` on midnights. */
  predicate Before(a: Date, b: Date) {
    a.month < b.month || (a.month == b.month && a.day < b.day)
  }

  function FirstOf(k: int): CivilDate {
    Date(k, 1)
  }

  // Days are numbered from 1970-01-01, the first day of month EPOCH_MONTH.

  const EPOCH_MONTH := 12 * 1970

  /** The day number of the first of month `k`. */
  function MonthStart(k: int): int
    decreases if k < EPOCH_MONTH then EPOCH_MONTH - k else k - EPOCH_MONTH
  {
    if k == EPOCH_MONTH then 0
    else if k > EPOCH_MONTH then MonthStart(k - 1) + MonthLength(k - 1)
    else MonthStart(k + 1) - MonthLength(k)
  }

  function DayNumber(d: CivilDate): int {
    MonthStart(d.month) + d.day - 1
  }

  // ----- The calendar by its rules, without counting month by month -----

  /** The leap days of the years before `year`, from year 1 on. */
  function LeapDaysBefore(year: int): int {
    (year - 1) / 4 - (year - 1) / 100 + (year - 1) / 400
  }

  /** The days of an ordinary year before its month, January being 1. */
  const DAYS_BEFORE: seq<int> := [0, 31, 59, 90, 120, 151, 181, 212, 243, 273, 304, 334]

  /** The days from 1970-01-01 to the first of a month. */
  function DaysToMonth(year: int, month: int): int
    requires 1 <= month <= 12
  {
    365 * (year - 1970) + LeapDaysBefore(year) - LeapDaysBefore(1970) + DAYS_BEFORE[month - 1]
    + if month > 2 && LeapYear(year) then 1 else 0
  }

  lemma LeapDaysStep(year: int)
    ensures LeapDaysBefore(year + 1) == LeapDaysBefore(year) + if LeapYear(year) then 1 else 0
  {
    OneMore(year, 4);
    OneMore(year, 100);
    OneMore(year, 400);
    CenturiesAreFourths(year);
  }

  lemma CenturiesAreFourths(year: int)
    ensures year % 100 == 0 ==> year % 4 == 0
    ensures year % 400 == 0 ==> year % 100 == 0
  {
    if year % 100 == 0 {
      assert year == 4 * (25 * (year / 100));
    }
    if year % 400 == 0 {
      assert year == 100 * (4 * (year / 400));
    }
  }

  lemma OneMore(n: int, d: int)
    requires d in {4, 100, 400}
    ensures n / d == (n - 1) / d + if n % d == 0 then 1 else 0
  {
  }

  /** From one month to the next, December included. */
  lemma NextMonth(k: int)
    ensures DaysToMonth((k + 1) / 12, (k + 1) % 12 + 1) == DaysToMonth(k / 12, k % 12 + 1) + MonthLength(k)
  {
    if k % 12 == 11 {
      assert (k + 1) / 12 == k / 12 + 1 && (k + 1) % 12 == 0;
      LeapDaysStep(k / 12);
    } else {
      assert (k + 1) / 12 == k / 12 && (k + 1) % 12 == k % 12 + 1;
    }
  }

  lemma {:induction false} MonthStartIsDays(k: int)
    ensures MonthStart(k) == DaysToMonth(k / 12, k % 12 + 1)
    decreases if k < EPOCH_MONTH then EPOCH_MONTH - k else k - EPOCH_MONTH
  {
    hide DaysToMonth, MonthLength;
    if k > EPOCH_MONTH {
      MonthStartIsDays(k - 1);
      NextMonth(k - 1);
    } else if k < EPOCH_MONTH {
      MonthStartIsDays(k + 1);
      NextMonth(k);
    } else {
      assert DaysToMonth(1970, 1) == 0 by { DaysToEpoch(); }
    }
  }

  lemma DaysToEpoch()
    ensures DaysToMonth(1970, 1) == 0
  {
  }

  lemma DaysToMonthByRule(year: int, month: int)
    requires 1 <= month <= 12
    ensures DaysToMonth(year, month)
         == 365 * (year - 1970) + ((year - 1) / 4 - (year - 1) / 100 + (year - 1) / 400 - 477)
            + [0, 31, 59, 90, 120, 151, 181, 212, 243, 273, 304, 334][month - 1]
            + if month > 2 && year % 4 == 0 && (year % 100 != 0 || year % 400 == 0) then 1 else 0
  {
  }

  lemma DaysInByRule(year: int, month: int)
    requires 1 <= month <= 12
    ensures DaysIn(year, month)
         == [31, if year % 4 == 0 && (year % 100 != 0 || year % 400 == 0) then 29 else 28,
             31, 30, 31, 30, 31, 31, 30, 31, 30, 31][month - 1]
  {
  }

  /** Which days a month has, and the number of each of them from 1970-01-01: 365 for each year between, one
      for each leap day between, and the days of the year before it. */
  lemma DatesAndDays(year: int, month: int, day: int)
    requires 1 <= month <= 12
    ensures ValidDate(Date(12 * year + month - 1, day)) <==>
            1 <= day <= [31, if year % 4 == 0 && (year % 100 != 0 || year % 400 == 0) then 29 else 28,
                         31, 30, 31, 30, 31, 31, 30, 31, 30, 31][month - 1]
    ensures ValidDate(Date(12 * year + month - 1, day)) ==>
              DayNumber(Date(12 * year + month - 1, day))
              == 365 * (year - 1970) + ((year - 1) / 4 - (year - 1) / 100 + (year - 1) / 400 - 477)
                 + [0, 31, 59, 90, 120, 151, 181, 212, 243, 273, 304, 334][month - 1]
                 + (if month > 2 && year % 4 == 0 && (year % 100 != 0 || year % 400 == 0) then 1 else 0)
                 + (day - 1)
  {
    hide MonthStart, DaysIn, DaysToMonth;
    var k := 12 * year + month - 1;
    assert k / 12 == year && k % 12 == month - 1;
    MonthStartIsDays(k);
    DaysToMonthByRule(year, month);
    DaysInByRule(year, month);
  }

  /** Days are 24 hours long, and instants are counted in microseconds. */
  lemma MidnightOfDay(d: CivilDate)
    ensures Midnight(d) == 24 * 3_600 * 1_000_000 * DayNumber(d)
  {
  }

  /** Months start at least 28 days apart. */
  lemma {:induction false} MonthStartMonotone(j: int, k: int)
    requires j <= k
    ensures MonthStart(j) + 28 * (k - j) <= MonthStart(k)
    decreases k - j
  {
    if j < k {
      MonthStartMonotone(j, k - 1);
    }
  }

  /** A day lies in exactly the month its date names. */
  lemma DayInMonth(d: CivilDate)
    ensures MonthStart(d.month) <= DayNumber(d) < MonthStart(d.month + 1)
  {
  }

  /** Comparing dates field by field is comparing day numbers. */
  lemma BeforeIsEarlierDay(a: CivilDate, b: CivilDate)
    ensures Before(a, b) <==> DayNumber(a) < DayNumber(b)
  {
    DayInMonth(a);
    DayInMonth(b);
    if a.month < b.month {
      MonthStartMonotone(a.month + 1, b.month);
    } else if b.month < a.month {
      MonthStartMonotone(b.month + 1, a.month);
    }
  }

  /** `t.AddDate(0, 1, 0)`: the same day of the next month, where a day past the end of that
      month runs over into the month after it. */
  function AddMonth(d: CivilDate): CivilDate {
    var last := MonthLength(d.month + 1);
    if d.day <= last then Date(d.month + 1, d.day) else Date(d.month + 2, d.day - last)
  }

  /** Go's normalisation, stated on day numbers: `d.day - 1` days after the first of the next month. */
  lemma AddMonthNormalises(d: CivilDate)
    ensures DayNumber(AddMonth(d)) == MonthStart(d.month + 1) + d.day - 1
  {
    assert MonthStart(d.month + 2) == MonthStart(d.month + 1) + MonthLength(d.month + 1);
  }

  /** `time.Date(t.Year(), t.Month(), 1, ...)` */
  function TruncateMonth(d: CivilDate): CivilDate {
    FirstOf(d.month)
  }

  function MinDate(a: CivilDate, b: CivilDate): CivilDate {
    if Before(a, b) then a else b
  }

  // Instants are microseconds since the epoch, PostgreSQL's resolution.

  const SECOND := 1_000_000
  const HOUR := 3_600_000_000
  const DAY := 86_400_000_000

  function Midnight(d: CivilDate): int {
    DayNumber(d) * DAY
  }

  /** The instant month number `k` starts. */
  function MonthInstant(k: int): int {
    Midnight(FirstOf(k))
  }

  lemma MonthInstantMonotone(j: int, k: int)
    requires j < k
    ensures MonthInstant(j) < MonthInstant(k)
  {
    MonthStartMonotone(j, k);
  }

  /** The check constraints `valid_from_start_of_month`. */
  ghost predicate StartOfMonth(t: int) {
    exists k :: t == MonthInstant(k)
  }
}
