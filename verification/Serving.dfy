/** Where the billable events handler gets its rows: month by month, from the cache where a month has been
    consolidated and from the components where it has not. */
module Serving {
  import opened Base
  import opened Calendar
  import opened EventFilters
  import opened Database
  import Bills
  import Consolidation
  import MonthSplit

  function MonthRows(db: Db, f: EventFilter): Result<seq<Bills.BillRow>> {
    match Consolidation.IsRangeConsolidated(db.cache, f)
    case Err(e) => Err(e)
    case Ok(true) => Consolidation.GetConsolidated(db.cache, f)
    case Ok(false) => Bills.Bill(db.components, f)
  }

  /** The loop over the months, up to the first error. */
  function AllMonths(db: Db, fs: seq<EventFilter>): Result<seq<seq<Bills.BillRow>>> {
    if fs == [] then Ok([])
    else
      match MonthRows(db, fs[0])
      case Err(e) => Err(e)
      case Ok(rows) =>
        match AllMonths(db, fs[1..])
        case Err(e) => Err(e)
        case Ok(rest) => Ok([rows] + rest)
  }

  function Answer(db: Db, f: EventFilter): Result<seq<seq<Bills.BillRow>>> {
    match f.SplitByMonth()
    case Err(e) => Err(e)
    case Ok(months) => AllMonths(db, months)
  }

  predicate Consolidated(db: Db, f: EventFilter) {
    Consolidation.IsRangeConsolidated(db.cache, f) == Ok(true)
  }

  lemma MonthRowsSucceed(db: Db, f: EventFilter)
    requires Sound(db) && f.Valid() && Before(f.start.value, f.stop.value)
    ensures MonthRows(db, f).Ok? <==> Consolidated(db, f) || Bills.Bill(db.components, f).Ok?
  {
    hide Bills.Bill, Consolidation.StoredRows, MonthlyBills.MonthSafe;
    if Consolidated(db, f) {
      Consolidation.ConsolidatedIsReadable(db.cache, f);
    }
  }

  lemma {:induction false} AllMonthsSucceed(db: Db, fs: seq<EventFilter>)
    requires Sound(db)
    requires forall i :: 0 <= i < |fs| ==> fs[i].Valid() && Before(fs[i].start.value, fs[i].stop.value)
    ensures AllMonths(db, fs).Ok? <==>
            forall i :: 0 <= i < |fs| ==> Consolidated(db, fs[i]) || Bills.Bill(db.components, fs[i]).Ok?
    ensures AllMonths(db, fs).Ok? ==>
              && |AllMonths(db, fs).value| == |fs|
              && forall i :: 0 <= i < |fs| ==> MonthRows(db, fs[i]) == Ok(AllMonths(db, fs).value[i])
  {
    hide Sound, Consolidated, MonthRows, Bills.Bill;
    if fs != [] {
      MonthRowsSucceed(db, fs[0]);
      AllMonthsSucceed(db, fs[1..]);
      assert forall i :: 0 < i < |fs| ==> fs[i] == fs[1..][i - 1];
      assert forall i :: 0 <= i < |fs[1..]| ==> fs[1..][i] == fs[i + 1];
    }
  }

  /** A query fails only for a bound that is not a date, or for a month that is not consolidated and cannot
      be billed: the cache never fails, whatever the window. */
  lemma AnswerSucceeds(db: Db, f: EventFilter)
    requires Sound(db)
    ensures Answer(db, f).Ok? <==>
            f.Valid() && forall i :: 0 <= i < |f.SplitByMonth().value| ==>
              Consolidated(db, f.SplitByMonth().value[i]) || Bills.Bill(db.components, f.SplitByMonth().value[i]).Ok?
  {
    hide Sound, Consolidated, AllMonths, Bills.Bill;
    SplitByMonthMeaning(f);
    if f.Valid() {
      AllMonthsSucceed(db, f.SplitByMonth().value);
    }
  }

  lemma FrozenRows(db: Db, steps: seq<Step>, f: EventFilter)
    requires Sound(db) && (forall s :: s in steps ==> Legal(s)) && Consolidated(db, f)
    ensures MonthRows(Run(db, steps), f) == MonthRows(db, f)
  {
    hide Sound, Run, Bills.Bill, Consolidation.StoredRows, Consolidation.GetConsolidated;
    var r := Consolidation.RangeOf(f).value;
    ConsolidatedIsFrozen(db, steps, r);
    RunSound(db, steps);
    SoundCache(db);
    SoundCache(Run(db, steps));
    Consolidation.ConsolidatedIsReadable(db.cache, f);
    Consolidation.ConsolidatedIsReadable(Run(db, steps).cache, f);
  }

  lemma SoundCache(db: Db)
    requires Sound(db)
    ensures Consolidation.Valid(db.cache)
  {
  }

  lemma {:induction false} FrozenMonths(db: Db, steps: seq<Step>, fs: seq<EventFilter>)
    requires Sound(db) && forall s :: s in steps ==> Legal(s)
    requires forall i :: 0 <= i < |fs| ==> Consolidated(db, fs[i])
    ensures AllMonths(Run(db, steps), fs) == AllMonths(db, fs)
  {
    hide Sound, Run, Consolidated, MonthRows;
    if fs != [] {
      FrozenRows(db, steps, fs[0]);
      FrozenMonths(db, steps, fs[1..]);
    }
  }

  /** The answer to a query over consolidated months never changes, whatever is collected, configured,
      refreshed, consolidated or rolled back afterwards. */
  lemma AnswerIsFrozen(db: Db, steps: seq<Step>, f: EventFilter)
    requires Sound(db) && (forall s :: s in steps ==> Legal(s)) && f.Valid()
    requires forall i :: 0 <= i < |f.SplitByMonth().value| ==> Consolidated(db, f.SplitByMonth().value[i])
    ensures Answer(Run(db, steps), f) == Answer(db, f)
  {
    hide Sound, Run, Consolidated, AllMonths;
    FrozenMonths(db, steps, f.SplitByMonth().value);
  }

  /** Nothing has changed the bill of a consolidated month since. */
  ghost predicate UpToDate(db: Db) {
    forall r :: r in db.cache.history ==>
      Bills.Bill(db.components, MonthFilter(r.start.month, [])) == Ok(Consolidation.StoredRows(db.cache, r))
  }

  /** Then the cache cannot be told from the live bill. */
  lemma MonthRowsAreLive(db: Db, f: EventFilter)
    requires Sound(db) && UpToDate(db) && f.Valid() && Before(f.start.value, f.stop.value)
    ensures MonthRows(db, f) == Bills.Bill(db.components, f)
  {
    hide Bills.Bill, Consolidation.StoredRows, Consolidation.GetConsolidated, MonthlyBills.MonthSafe;
    if Consolidated(db, f) {
      Consolidation.ConsolidatedIsReadable(db.cache, f);
      Bills.BillForOrgs(db.components, f, f.orgs);
    }
  }

  /** The sum of the rows' prices, before or after VAT. */
  function RowsTotal(months: seq<seq<Bills.BillRow>>, basis: Bills.Basis): real {
    if months == [] then 0.0 else Sum(Bills.RowPrices(months[0], basis)) + RowsTotal(months[1..], basis)
  }

  lemma {:induction false} LiveTotals(db: Db, fs: seq<EventFilter>, basis: Bills.Basis)
    requires Sound(db) && UpToDate(db) && AllMonths(db, fs).Ok?
    requires forall i :: 0 <= i < |fs| ==> fs[i].Valid() && Before(fs[i].start.value, fs[i].stop.value)
    ensures RowsTotal(AllMonths(db, fs).value, basis) == MonthSplit.Totals(db.components, fs, basis)
  {
    hide Sound, UpToDate, MonthRows, Bills.Bill, Bills.RowPrices;
    if fs != [] {
      MonthRowsAreLive(db, fs[0]);
      LiveTotals(db, fs[1..], basis);
      var rest := AllMonths(db, fs[1..]).value;
      assert AllMonths(db, fs).value[1..] == rest;
    }
  }

  /** Whatever mixture of cached and live months serves a query, its total before and after VAT is that of one
      live bill for the whole window, plus at most one started hour for each component the query concerns. */
  lemma AnswerTotal(db: Db, f: EventFilter, basis: Bills.Basis)
    requires Sound(db) && UpToDate(db)
    requires f.Valid() && Before(f.start.value, f.stop.value) && MonthSplit.AskedAreMetered(db.components, f, basis)
    ensures Answer(db, f).Ok?
    ensures 0.0 <= RowsTotal(Answer(db, f).value, basis) - MonthSplit.Total(db.components, f, basis)
                <= MonthSplit.AskedHours(db.components, f, basis)
  {
    hide Sound, UpToDate, AllMonths, Consolidated, Bills.Bill;
    hide MonthSplit.Metered, MonthSplit.HourPrice, MonthSplit.Total, MonthSplit.Asked, MonthSplit.AskedHours;
    SplitByMonthMeaning(f);
    MonthSplit.PiecesInside(f);
    var months := f.SplitByMonth().value;
    forall i | 0 <= i < |months| ensures Bills.Bill(db.components, months[i]).Ok? {
      MonthSplit.MeteredBill(db.components, months[i], f, basis);
    }
    AllMonthsSucceed(db, months);
    LiveTotals(db, months, basis);
    MonthSplit.SplitBills(db.components, f, basis);
  }

  // ----- Each check and each read sees a database of its own -----

  /** A month whose history is looked up in one transaction and whose rows are read in a later one. */
  function ReadMonth(check: Db, read: Db, f: EventFilter): Result<seq<Bills.BillRow>> {
    match Consolidation.IsRangeConsolidated(check.cache, f)
    case Err(e) => Err(e)
    case Ok(true) => Consolidation.GetConsolidated(read.cache, f)
    case Ok(false) => Bills.Bill(read.components, f)
  }

  /** What the database had become by each check and each read. */
  datatype Moment = Moment(check: seq<Step>, read: seq<Step>)

  function ReadMonths(db: Db, moments: seq<Moment>, fs: seq<EventFilter>): Result<seq<seq<Bills.BillRow>>>
    requires |moments| == |fs|
  {
    if fs == [] then Ok([])
    else
      match ReadMonth(Run(db, moments[0].check), Run(db, moments[0].read), fs[0])
      case Err(e) => Err(e)
      case Ok(rows) =>
        match ReadMonths(db, moments[1..], fs[1..])
        case Err(e) => Err(e)
        case Ok(rest) => Ok([rows] + rest)
  }

  ghost predicate LegalMoment(m: Moment) {
    (forall s :: s in m.check ==> Legal(s)) && forall s :: s in m.read ==> Legal(s)
  }

  lemma FrozenRead(db: Db, m: Moment, f: EventFilter)
    requires Sound(db) && LegalMoment(m) && Consolidated(db, f)
    ensures ReadMonth(Run(db, m.check), Run(db, m.read), f) == MonthRows(db, f)
  {
    hide Sound, Run, Bills.Bill, Consolidation.StoredRows, Consolidation.GetConsolidated;
    var r := Consolidation.RangeOf(f).value;
    ConsolidatedIsFrozen(db, m.check, r);
    ConsolidatedIsFrozen(db, m.read, r);
    FrozenRows(db, m.read, f);
  }

  lemma {:induction false} FrozenReads(db: Db, moments: seq<Moment>, fs: seq<EventFilter>)
    requires Sound(db) && |moments| == |fs| && forall m :: m in moments ==> LegalMoment(m)
    requires forall i :: 0 <= i < |fs| ==> Consolidated(db, fs[i])
    ensures ReadMonths(db, moments, fs) == AllMonths(db, fs)
  {
    hide Sound, Run, Consolidated, MonthRows, ReadMonth, LegalMoment;
    if fs != [] {
      FrozenRead(db, moments[0], fs[0]);
      FrozenReads(db, moments[1..], fs[1..]);
    }
  }

  /** ... and the answer over consolidated months is the same even if any steps come between any two of the
      transactions that make it up. */
  lemma AnswerIsOneAnswer(db: Db, moments: seq<Moment>, f: EventFilter)
    requires Sound(db) && f.Valid() && |moments| == |f.SplitByMonth().value|
    requires forall m :: m in moments ==> LegalMoment(m)
    requires forall i :: 0 <= i < |f.SplitByMonth().value| ==> Consolidated(db, f.SplitByMonth().value[i])
    ensures ReadMonths(db, moments, f.SplitByMonth().value) == Answer(db, f)
  {
    hide Sound, Run, Consolidated, AllMonths, ReadMonths, LegalMoment;
    FrozenReads(db, moments, f.SplitByMonth().value);
  }
}
