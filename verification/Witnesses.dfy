/** Inputs at which the less obvious things happen. */
module Witnesses {
  import opened Base
  import opened Calendar
  import opened Timeline
  import opened EventLog
  import opened Events
  import opened Formulas
  import opened Components
  import opened ComponentTable
  import opened Plans
  import opened BillGap

  // ----- An event from before its plan -----

  /** Every formula of the event's plan is the constant zero, so that pricing cannot fail. */
  lemma FreeEvaluates(cat: Catalogue, ev: EventRow)
    requires cat.Valid()
    requires forall v :: v in VersionsOf(cat.plans, ev.planGuid) ==>
               forall c :: c in v.data.components ==> c.formula == Const(0.0)
    ensures Evaluates(cat, ev)
  {
    forall s | Some(s) in EventRows(cat, ev) ensures CostOf(ev, s).Some? {
      RowOrigin(cat, ev, s);
    }
  }

  /** One free version of the plan from month `k + 1` on, with rates that start with it. */
  function OnePlan(from: int): Catalogue {
    Catalogue(map["p" := [Version(from, Nodes(1))]], map["GBP" := [Version(from, 1.0)]],
        map["Standard" := [Version(from, 0.2)]])
  }

  lemma OnePlanValid(k: int)
    ensures OnePlan(MonthInstant(k)).Valid() && RatesChecked(OnePlan(MonthInstant(k)))
  {
    hide MonthInstant, StartOfMonth, RatesFrom;
    MonthInstantFacts(k);
    RatesSince(OnePlan(MonthInstant(k)), MonthInstant(k), MonthInstant(k));
  }

  lemma OnePiece(from: int, lo: int, hi: int)
    requires lo < from < hi
    ensures PlanPieces(OnePlan(from), LongEvent(lo, hi)) == [Piece(Range(from, hi), Version(from, Nodes(1)))]
  {
    assert Cut(VersionsOf(OnePlan(from).plans, "p"), Range(lo, hi), 1) == [];
  }

  /** An event that starts a month before the first version of its plan passes the consistency check and the
      rebuild, and is not charged for that month. */
  lemma UnchargedStart(k: int) returns (cat: Catalogue, ev: EventRow)
    ensures cat.Valid() && RatesChecked(cat) && PlansConsistent(cat, [ev]) && BuildComponents(cat, [ev]).Ok?
    ensures ev.duration == Range(MonthInstant(k), MonthInstant(k + 2))
    ensures forall t :: MonthInstant(k) <= t < MonthInstant(k + 1) ==> ChargesAt(cat, ev.planGuid, t) == []
  {
    var lo, from, hi := MonthInstant(k), MonthInstant(k + 1), MonthInstant(k + 2);
    MonthInstantMonotone(k, k + 1);
    MonthInstantMonotone(k + 1, k + 2);
    cat, ev := OnePlan(from), LongEvent(lo, hi);
    OnePlanValid(k + 1);
    hide MonthInstant, BuildComponents, ChargesAt, RatesChecked;
    LatePlanBuilds(from, lo, hi);
    LatePlanCharges(from);
  }

  lemma LatePlanBuilds(from: int, lo: int, hi: int)
    requires lo < from < hi && OnePlan(from).Valid() && RatesChecked(OnePlan(from))
    ensures PlansConsistent(OnePlan(from), [LongEvent(lo, hi)])
    ensures BuildComponents(OnePlan(from), [LongEvent(lo, hi)]).Ok?
  {
    hide BuildComponents, RatesChecked, EventRows, Evaluates, Rated;
    var cat, ev := OnePlan(from), LongEvent(lo, hi);
    OnePiece(from, lo, hi);
    assert PlanPieces(cat, ev)[0].version.data.components == [FREE];
    assert VersionsOf(cat.plans, ev.planGuid) == [Version(from, Nodes(1))];
    CheckedIsRated(cat, ev);
    FreeEvaluates(cat, ev);
    BuildSucceeds(cat, [ev]);
  }

  lemma LatePlanCharges(from: int)
    ensures forall t :: t < from ==> ChargesAt(OnePlan(from), "p", t) == []
  {
    forall t | t < from ensures ChargesAt(OnePlan(from), "p", t) == [] {
      LookupBefore(VersionsOf(OnePlan(from).plans, "p"), t);
    }
  }

  // ----- An entry from the future -----

  /** One entry that is later than the rebuild makes it fail, whatever else the log holds. */
  lemma OneFutureEntry(log: Log, names: Names, now: int, e: RawEvent)
    requires e.createdAt > now && !e.eventType.Staging?
    ensures CreateEvents(log + [e], names, now) == Err("range bounds")
  {
    var n := |log|;
    assert (log + [e])[n] == e && Lead(log + [e], n) == None;
    assert Duration(log + [e], n, now) == Range(e.createdAt, now);
  }

  // ----- A dummy plan whose rates start late -----

  /** No plan is configured; pounds and standard VAT have rates from `from` on. */
  function RatesOnly(from: int): Catalogue {
    Catalogue(map[], map["GBP" := [Version(from, 1.0)]], map["Standard" := [Version(from, 0.2)]])
  }

  lemma DummyOnly(from: int, lo: int, hi: int) returns (v: Version<PlanTerms>)
    requires EPOCH <= lo < hi
    ensures IsPending(v)
    ensures VersionsOf(GenerateMissingPlans(RatesOnly(from), [LongEvent(lo, hi)]).plans, "p") == [v]
    ensures PlanPieces(GenerateMissingPlans(RatesOnly(from), [LongEvent(lo, hi)]), LongEvent(lo, hi))
            == [Piece(Range(lo, hi), v)]
  {
    var ev := LongEvent(lo, hi);
    var name := NewestName([ev], "p");
    v := Version(EPOCH, PlanTerms(name, 0, 0, 0, [PENDING]));
    var h: History<PlanTerms> := [];
    assert ev in [ev] && "p" in UsedPlans([ev]);
    WithDummiesAt(map[], [ev], "p");
    assert WithEpochPlan(h, name) == [Version(EPOCH, PlanTerms(name, 0, 0, 0, []))];
    assert WithDummy(h, name) == [v];
    assert Cut([v], Range(lo, hi), 1) == [];
  }

  lemma RatesOnlyValid(k: int)
    ensures RatesOnly(MonthInstant(k)).Valid() && RatesChecked(RatesOnly(MonthInstant(k)))
  {
    assert RatesOnly(MonthInstant(k)).currencies["GBP"][0].from % DAY == 0;
  }

  /** An event of a plan nobody configured, with rates that start in month `k`: if the event goes on into that
      month the rebuild succeeds and leaves the event's beginning out; if it ends before, the rebuild fails. */
  lemma LateDummyRates(k: int, lo: int, hi: int) returns (cat: Catalogue, ev: EventRow)
    requires EPOCH <= lo < MonthInstant(k) && lo < hi
    ensures RatesChecked(cat) && ev.duration == Range(lo, hi)
    ensures PlansConsistent(GenerateMissingPlans(cat, [ev]), [ev])
    ensures BuildComponents(GenerateMissingPlans(cat, [ev]), [ev]).Ok? <==> MonthInstant(k) < hi
    ensures TagsAt(EventRows(GenerateMissingPlans(cat, [ev]), ev), lo) == []
    ensures MonthInstant(k) < hi ==> TagsAt(EventRows(GenerateMissingPlans(cat, [ev]), ev), MonthInstant(k)) != []
  {
    var from := MonthInstant(k);
    RatesOnlyValid(k);
    hide MonthInstant, GenerateMissingPlans, EventRows, TagsAt, BuildComponents;
    cat, ev := RatesOnly(from), LongEvent(lo, hi);
    var c := GenerateMissingPlans(cat, [ev]);
    var v := DummyOnly(from, lo, hi);
    GenerateKeepsValid(cat, [ev]);
    CheckedIsCheckedButDummies(cat);
    RebuildWithDummies(cat, [ev]);
    FreeEvaluates(c, ev);
    GenerateRatesSame(cat, [ev]);
    LateRates(from, c, v, lo, hi);
    DummyInForce(cat, ev, v, lo);
    DummyChargedSince(cat, [ev], ev, v, lo);
    if from < hi {
      DummyInForce(cat, ev, v, from);
      DummyChargedSince(cat, [ev], ev, v, from);
    }
  }

  lemma GenerateRatesSame(cat: Catalogue, events: seq<EventRow>)
    ensures GenerateMissingPlans(cat, events).currencies == cat.currencies
    ensures GenerateMissingPlans(cat, events).vats == cat.vats
  {
  }

  lemma DummyInForce(cat: Catalogue, ev: EventRow, v: Version<PlanTerms>, t: int)
    requires VersionsOf(GenerateMissingPlans(cat, [ev]).plans, ev.planGuid) == [v] && v.from <= t
    ensures Lookup(VersionsOf(GenerateMissingPlans(cat, [ev]).plans, ev.planGuid), t) == Some(v)
  {
  }

  lemma LateRates(from: int, c: Catalogue, v: Version<PlanTerms>, lo: int, hi: int)
    requires lo < from && lo < hi && IsPending(v)
    requires c.currencies == RatesOnly(from).currencies && c.vats == RatesOnly(from).vats
    requires PlanPieces(c, LongEvent(lo, hi)) == [Piece(Range(lo, hi), v)]
    ensures Billable(c, LongEvent(lo, hi)) && (DummiesFound(c, LongEvent(lo, hi)) <==> from < hi)
    ensures forall t :: RatesFrom(RatesOnly(from), PENDING, t) <==> from <= t
  {
    var p := Piece(Range(lo, hi), v);
    assert p in PlanPieces(c, LongEvent(lo, hi));
    assert VersionsOf(c.currencies, PENDING.currency) == [Version(from, 1.0)];
    assert VersionsOf(c.vats, PENDING.vat) == [Version(from, 0.2)];
    assert RatesFound(c, PENDING, p.range) <==> from < hi;
    forall t ensures RatesFrom(RatesOnly(from), PENDING, t) <==> from <= t {
      if from <= t {
        RatesSincePending(from, t);
      }
    }
  }

  lemma RatesSincePending(from: int, t: int)
    requires from <= t
    ensures RatesFrom(RatesOnly(from), PENDING, t)
  {
    assert VersionsOf(RatesOnly(from).currencies, PENDING.currency)[0].from <= t;
    assert VersionsOf(RatesOnly(from).vats, PENDING.vat)[0].from <= t;
  }
}
