/** Dummy pricing plans for services nobody configured, and the check that every event has a plan. */
module Plans {
  import opened Base
  import opened Calendar
  import opened Timeline
  import opened Events
  import opened Formulas
  import opened Components
  import opened ComponentTable
  import opened StoreConfig

  /** `'epoch'::timestamptz` */
  const EPOCH := 0

  const PENDING := PlanComponent("pending", Const(0.0), "GBP", "Standard")

  function UsedPlans(events: seq<EventRow>): set<string> {
    set ev | ev in events :: ev.planGuid
  }

  /** `first_value(resource_type || ' ' || plan_name) over (... order by lower(duration) desc)` */
  function NewestName(events: seq<EventRow>, guid: string, best: Option<EventRow> := None): string {
    if events == [] then
      match best case Some(ev) => ev.subject.resourceType + " " + ev.planName case None => ""
    else
      var ev := events[0];
      NewestName(events[1..], guid,
                 if ev.planGuid == guid && (best.None? || best.value.duration.lo < ev.duration.lo)
                 then Some(ev) else best)
  }

  predicate HasEpochPlan(h: History<PlanTerms>) {
    exists i :: 0 <= i < |h| && h[i].from == EPOCH
  }

  /** The first insert: a version at the epoch, where there is none. */
  function WithEpochPlan(h: History<PlanTerms>, name: string): History<PlanTerms> {
    match Insert(h, Version(EPOCH, PlanTerms(name, 0, 0, 0, [])))
    case Some(g) => g
    case None => h
  }

  function Pend(v: Version<PlanTerms>): Version<PlanTerms> {
    if v.from == EPOCH && v.data.components == [] then Version(EPOCH, v.data.(components := [PENDING])) else v
  }

  /** The second insert: a free component for the version at the epoch, where it has none. */
  function WithPending(h: History<PlanTerms>): History<PlanTerms> {
    Map((v: Version<PlanTerms>) => Pend(v), h)
  }

  function WithDummy(h: History<PlanTerms>, name: string): History<PlanTerms> {
    WithPending(WithEpochPlan(h, name))
  }

  type PlanTable = map<string, History<PlanTerms>>

  function WithDummies(plans: PlanTable, events: seq<EventRow>): PlanTable {
    var used := UsedPlans(events);
    map g | g in plans.Keys + used ::
      if g in used then WithDummy(VersionsOf(plans, g), NewestName(events, g)) else plans[g]
  }

  /** `generateMissingPlans` */
  function GenerateMissingPlans(cat: Catalogue, events: seq<EventRow>): Catalogue {
    cat.(plans := WithDummies(cat.plans, events))
  }

  /** `checkPlanConsistency`: no event is left whose plan has no version that overlaps it. */
  predicate PlansConsistent(cat: Catalogue, events: seq<EventRow>) {
    forall ev :: ev in events ==> PlanPieces(cat, ev) != []
  }

  /** One version is added, at the epoch, and only where there was none; versions that start later stay
      in force exactly as before. */
  lemma WithDummyMeaning(h: History<PlanTerms>, name: string)
    requires Sorted(h)
    ensures Sorted(WithDummy(h, name)) && HasEpochPlan(WithDummy(h, name))
    ensures |WithDummy(h, name)| == if HasEpochPlan(h) then |h| else |h| + 1
    ensures forall t :: Lookup(h, t).Some? && Lookup(h, t).value.from > EPOCH ==>
              Lookup(WithDummy(h, name), t) == Lookup(h, t)
  {
    hide Lookup;
    var g := WithEpochPlan(h, name);
    EpochPlanAdded(h, name);
    var j :| 0 <= j < |g| && g[j].from == EPOCH;
    assert WithPending(g)[j].from == EPOCH;
    forall t | Lookup(h, t).Some? && Lookup(h, t).value.from > EPOCH
      ensures Lookup(WithDummy(h, name), t) == Lookup(h, t)
    {
      WithDummyLookup(h, name, t);
    }
  }

  // ----- Column by column -----

  /** The type and plan name of an event of the plan that no other of them started after. */
  ghost predicate IsNewestName(events: seq<EventRow>, guid: string, name: string) {
    exists i :: 0 <= i < |events| && IsNewest(events, guid, i)
      && name == events[i].subject.resourceType + " " + events[i].planName
  }

  ghost predicate IsNewest(events: seq<EventRow>, guid: string, i: nat)
    requires i < |events|
  {
    && events[i].planGuid == guid
    && forall j :: 0 <= j < |events| && events[j].planGuid == guid ==> events[j].duration.lo <= events[i].duration.lo
  }

  /** Of the first `n` events, `best` is one of the plan that no other of them started after, if there is any. */
  ghost predicate BestSoFar(events: seq<EventRow>, guid: string, n: nat, best: Option<EventRow>)
    requires n <= |events|
  {
    match best
    case None => forall j :: 0 <= j < n ==> events[j].planGuid != guid
    case Some(ev) =>
      && ev in events[..n] && ev.planGuid == guid
      && forall j :: 0 <= j < n && events[j].planGuid == guid ==> events[j].duration.lo <= ev.duration.lo
  }

  lemma BestStep(events: seq<EventRow>, guid: string, n: nat, best: Option<EventRow>)
    requires n < |events| && BestSoFar(events, guid, n, best)
    ensures BestSoFar(events, guid, n + 1,
              if events[n].planGuid == guid && (best.None? || best.value.duration.lo < events[n].duration.lo)
              then Some(events[n]) else best)
  {
    assert events[..n + 1] == events[..n] + [events[n]];
  }

  lemma {:induction false} NewestNameMeaning(events: seq<EventRow>, guid: string, n: nat, best: Option<EventRow>)
    requires n <= |events| && BestSoFar(events, guid, n, best)
    requires exists ev :: ev in events && ev.planGuid == guid
    ensures IsNewestName(events, guid, NewestName(events[n..], guid, best))
    decreases |events| - n
  {
    if n < |events| {
      assert events[n..][1..] == events[n + 1..] && events[n..][0] == events[n];
      hide BestSoFar, IsNewestName;
      BestStep(events, guid, n, best);
      NewestNameMeaning(events, guid, n + 1,
          if events[n].planGuid == guid && (best.None? || best.value.duration.lo < events[n].duration.lo)
          then Some(events[n]) else best);
    } else {
      var i :| 0 <= i < |events| && events[i] == best.value;
      assert IsNewest(events, guid, i);
    }
  }

  /** The version is an old one, with the free component if it is the one at the epoch and had none. */
  ghost predicate Kept(u: Version<PlanTerms>, v: Version<PlanTerms>) {
    && v.from == u.from && v.data.name == u.data.name
    && v.data.nodes == u.data.nodes && v.data.memory == u.data.memory && v.data.storage == u.data.storage
    && if u.from == 0 && u.data.components == [] then FreeComponent(v.data)
       else v.data.components == u.data.components
  }

  /** A component that costs nothing, in pounds and with standard VAT, and no other. */
  ghost predicate FreeComponent(terms: PlanTerms) {
    && |terms.components| == 1
    && terms.components[0].name == "pending" && terms.components[0].formula == Const(0.0)
    && terms.components[0].currency == "GBP" && terms.components[0].vat == "Standard"
  }

  /** The version is a new one at the epoch, free and without sizes, named after the newest event of the plan. */
  ghost predicate Added(events: seq<EventRow>, guid: string, v: Version<PlanTerms>) {
    && v.from == 0 && v.data.nodes == 0 && v.data.memory == 0 && v.data.storage == 0
    && FreeComponent(v.data) && IsNewestName(events, guid, v.data.name)
  }

  /** Of a plan in use every version is kept, one at the epoch is added where there was none, and there is nothing
      else. */
  ghost predicate Completed(before: History<PlanTerms>, after: History<PlanTerms>, events: seq<EventRow>,
      guid: string) {
    && (forall u :: u in before ==> exists v :: v in after && Kept(u, v))
    && ((exists v :: v in after && Added(events, guid, v)) || exists u :: u in before && u.from == 0)
    && (forall v :: v in after ==>
          || (exists u :: u in before && Kept(u, v))
          || ((forall u :: u in before ==> u.from != 0) && Added(events, guid, v)))
  }

  /** The plans after adding dummies: those that no event uses are the same, and the others are completed. */
  lemma GenerateColumns(cat: Catalogue, events: seq<EventRow>, guid: string)
    requires cat.Valid()
    ensures var before, after := VersionsOf(cat.plans, guid), VersionsOf(GenerateMissingPlans(cat, events).plans, guid);
            if exists ev :: ev in events && ev.planGuid == guid
            then Completed(before, after, events, guid) else after == before
  {
    hide NewestName, WithDummies, WithDummy, Completed, IsNewestName;
    WithDummiesAt(cat.plans, events, guid);
    if exists ev :: ev in events && ev.planGuid == guid {
      assert events[0..] == events;
      NewestNameMeaning(events, guid, 0, None);
      DummyColumns(VersionsOf(cat.plans, guid), NewestName(events, guid), events, guid);
    }
  }

  lemma DummyColumns(h: History<PlanTerms>, name: string, events: seq<EventRow>, guid: string)
    requires Sorted(h) && IsNewestName(events, guid, name)
    ensures Completed(h, WithDummy(h, name), events, guid)
  {
    hide IsNewestName, WithDummy, Pend;
    DummyMembers(h, name);
    var added := Version(EPOCH, PlanTerms(name, 0, 0, 0, []));
    assert Added(events, guid, Pend(added)) by { PendAdded(events, guid, name); }
    forall u ensures Kept(u, Pend(u)) {
      PendKeeps(u);
    }
    hide Kept, Added;
  }

  lemma PendAdded(events: seq<EventRow>, guid: string, name: string)
    requires IsNewestName(events, guid, name)
    ensures Added(events, guid, Pend(Version(EPOCH, PlanTerms(name, 0, 0, 0, []))))
  {
  }

  lemma PendKeeps(u: Version<PlanTerms>)
    ensures Kept(u, Pend(u))
  {
  }

  lemma DummyMembers(h: History<PlanTerms>, name: string)
    requires Sorted(h)
    ensures forall u :: u in h ==> Pend(u) in WithDummy(h, name)
    ensures (forall u :: u in h ==> u.from != 0) ==>
              Pend(Version(EPOCH, PlanTerms(name, 0, 0, 0, []))) in WithDummy(h, name)
    ensures forall v :: v in WithDummy(h, name) ==>
              || (exists u :: u in h && v == Pend(u))
              || ((forall u :: u in h ==> u.from != 0) && v == Pend(Version(EPOCH, PlanTerms(name, 0, 0, 0, []))))
  {
    hide Sorted, Insert, Pend;
    var added, g := Version(EPOCH, PlanTerms(name, 0, 0, 0, [])), WithEpochPlan(h, name);
    InsertConflict(h, added);
    if Insert(h, added).Some? {
      InsertedMembers(h, added);
      assert forall u :: u in g <==> u in h || u == added;
    } else {
      var i :| 0 <= i < |h| && h[i].from == EPOCH;
      assert h[i] in h && g == h;
    }
    forall v ensures v in WithDummy(h, name) <==> exists u :: u in g && v == Pend(u) {
      PendMembers(g, v);
    }
  }

  lemma PendMembers(g: History<PlanTerms>, v: Version<PlanTerms>)
    ensures v in WithPending(g) <==> exists u :: u in g && v == Pend(u)
  {
    if v in WithPending(g) {
      var i :| 0 <= i < |g| && WithPending(g)[i] == v;
      assert g[i] in g;
    }
    if u :| u in g && v == Pend(u) {
      var i :| 0 <= i < |g| && g[i] == u;
      assert WithPending(g)[i] == v;
    }
  }

  lemma WithDummyLookup(h: History<PlanTerms>, name: string, t: int)
    requires Sorted(h) && Lookup(h, t).Some? && Lookup(h, t).value.from > EPOCH
    ensures Lookup(WithDummy(h, name), t) == Lookup(h, t)
  {
    hide Lookup, WithPending;
    var v := Version(EPOCH, PlanTerms(name, 0, 0, 0, []));
    if Insert(h, v).Some? {
      LookupInsert(h, v, t);
    }
    PendingLookup(WithEpochPlan(h, name), t);
  }

  lemma {:induction false} PendingLookup(h: History<PlanTerms>, t: int)
    ensures Lookup(WithPending(h), t)
         == match Lookup(h, t) case None => None case Some(v) => Some(Pend(v))
  {
    if h != [] {
      assert WithPending(h)[..|h| - 1] == WithPending(h[..|h| - 1]);
      PendingLookup(h[..|h| - 1], t);
    }
  }

  lemma WithDummyIdempotent(h: History<PlanTerms>, name: string, other: string)
    requires Sorted(h) && HasEpochPlan(h)
    ensures WithDummy(WithPending(h), name) == WithPending(h)
    ensures WithDummy(h, other) == WithPending(h)
  {
    InsertConflict(h, Version(EPOCH, PlanTerms(other, 0, 0, 0, [])));
    var g := WithPending(h);
    var i :| 0 <= i < |h| && h[i].from == EPOCH;
    assert g[i].from == EPOCH;
    InsertConflict(g, Version(EPOCH, PlanTerms(name, 0, 0, 0, [])));
    assert WithPending(g) == g;
  }

  lemma EpochIsMonthStart()
    ensures StartOfMonth(EPOCH)
  {
    assert MonthInstant(EPOCH_MONTH) == EPOCH;
  }

  lemma WithDummyValid(h: History<PlanTerms>, name: string)
    requires Sorted(h)
    requires forall i :: 0 <= i < |h| ==> StartOfMonth(h[i].from) && DistinctNames(h[i].data.components)
    ensures forall i :: 0 <= i < |WithDummy(h, name)| ==>
              StartOfMonth(WithDummy(h, name)[i].from) && DistinctNames(WithDummy(h, name)[i].data.components)
  {
    EpochIsMonthStart();
    var v := Version(EPOCH, PlanTerms(name, 0, 0, 0, []));
    var g := WithEpochPlan(h, name);
    if Insert(h, v).Some? {
      var k := InsertPlace(h, v);
    }
    assert forall i :: 0 <= i < |g| ==> StartOfMonth(g[i].from) && DistinctNames(g[i].data.components);
  }

  /** The tables' keys and check constraints survive. */
  lemma GenerateKeepsValid(cat: Catalogue, events: seq<EventRow>)
    requires cat.Valid()
    ensures GenerateMissingPlans(cat, events).Valid()
  {
    var c := GenerateMissingPlans(cat, events);
    forall g | g in c.plans
      ensures Sorted(c.plans[g]) && forall i :: 0 <= i < |c.plans[g]| ==>
                StartOfMonth(c.plans[g][i].from) && DistinctNames(c.plans[g][i].data.components)
    {
      if g in UsedPlans(events) {
        WithDummyMeaning(VersionsOf(cat.plans, g), NewestName(events, g));
        WithDummyValid(VersionsOf(cat.plans, g), NewestName(events, g));
      }
    }
  }

  /** Repeating it adds nothing. */
  lemma GenerateIdempotent(cat: Catalogue, events: seq<EventRow>)
    requires cat.Valid()
    ensures GenerateMissingPlans(GenerateMissingPlans(cat, events), events) == GenerateMissingPlans(cat, events)
  {
    hide WithDummies, WithDummy, UsedPlans, NewestName;
    var once := WithDummies(cat.plans, events);
    var twice := WithDummies(once, events);
    forall g ensures g in once <==> g in twice {
      WithDummiesAt(cat.plans, events, g);
      WithDummiesAt(once, events, g);
    }
    forall g | g in once ensures twice[g] == once[g] {
      WithDummiesAt(cat.plans, events, g);
      WithDummiesAt(once, events, g);
      if g in UsedPlans(events) {
        WithDummyTwice(VersionsOf(cat.plans, g), NewestName(events, g), NewestName(events, g));
      }
    }
    assert twice == once;
  }

  lemma WithDummiesAt(plans: PlanTable, events: seq<EventRow>, g: string)
    ensures g in WithDummies(plans, events) <==> g in plans || g in UsedPlans(events)
    ensures g in WithDummies(plans, events) ==>
              WithDummies(plans, events)[g]
              == if g in UsedPlans(events) then WithDummy(VersionsOf(plans, g), NewestName(events, g)) else plans[g]
  {
  }

  lemma WithDummyTwice(h: History<PlanTerms>, name: string, other: string)
    requires Sorted(h)
    ensures WithDummy(WithDummy(h, name), other) == WithDummy(h, name)
  {
    EpochPlanAdded(h, name);
    WithDummyIdempotent(WithEpochPlan(h, name), other, name);
  }

  lemma EpochPlanAdded(h: History<PlanTerms>, name: string)
    requires Sorted(h)
    ensures Sorted(WithEpochPlan(h, name)) && HasEpochPlan(WithEpochPlan(h, name))
    ensures |WithEpochPlan(h, name)| == if HasEpochPlan(h) then |h| else |h| + 1
  {
    var v := Version(EPOCH, PlanTerms(name, 0, 0, 0, []));
    InsertConflict(h, v);
    if Insert(h, v).Some? {
      var k := InsertPlace(h, v);
      assert WithEpochPlan(h, name)[k] == v;
    }
  }

  /** An event that lies after the epoch then has a plan version at every instant of its duration. */
  lemma GenerateCovers(cat: Catalogue, events: seq<EventRow>, ev: EventRow)
    requires cat.Valid() && ev in events && EPOCH <= ev.duration.lo && !ev.duration.Empty()
    ensures Tiles(Ranges(PlanPieces(GenerateMissingPlans(cat, events), ev)), ev.duration)
  {
    var h := VersionsOf(GenerateMissingPlans(cat, events).plans, ev.planGuid);
    assert ev.planGuid in UsedPlans(events);
    WithDummyMeaning(VersionsOf(cat.plans, ev.planGuid), NewestName(events, ev.planGuid));
    var i :| 0 <= i < |h| && h[i].from == EPOCH;
    CutTiles(h, ev.duration);
  }

  /** Exactly which events the consistency check can still complain about afterwards: those that ended by
      the epoch and overlap no version that was configured. */
  lemma GenerateMakesConsistent(cat: Catalogue, events: seq<EventRow>)
    requires cat.Valid() && forall ev :: ev in events ==> !ev.duration.Empty()
    ensures PlansConsistent(GenerateMissingPlans(cat, events), events)
       <==> forall ev :: ev in events && ev.duration.hi <= EPOCH ==> PlanPieces(cat, ev) != []
  {
    var c := GenerateMissingPlans(cat, events);
    forall ev | ev in events
      ensures PlanPieces(c, ev) != [] <==> ev.duration.hi > EPOCH || PlanPieces(cat, ev) != []
    {
      var h, g := VersionsOf(cat.plans, ev.planGuid), VersionsOf(c.plans, ev.planGuid);
      assert ev.planGuid in UsedPlans(events);
      WithDummyMeaning(h, NewestName(events, ev.planGuid));
      DummyFirst(h, NewestName(events, ev.planGuid));
      CutEmpty(h, ev.duration);
      CutEmpty(g, ev.duration);
    }
  }

  lemma DummyFirst(h: History<PlanTerms>, name: string)
    requires Sorted(h)
    ensures WithDummy(h, name) != []
    ensures WithDummy(h, name)[0].from == if h == [] || EPOCH < h[0].from then EPOCH else h[0].from
  {
    var v := Version(EPOCH, PlanTerms(name, 0, 0, 0, []));
    InsertConflict(h, v);
    var g := WithEpochPlan(h, name);
    assert WithPending(g) != [] && WithPending(g)[0].from == g[0].from by {
      assert |WithPending(g)| == |g|;
      EpochPlanAdded(h, name);
    }
    if Insert(h, v).Some? {
      var k := InsertPlace(h, v);
      assert g[0] == if k == 0 then v else h[0];
      assert k > 0 ==> g[k] == v && g[0].from < g[k].from;
      assert k == 0 && h != [] ==> g[1] == h[0] && g[0].from < g[1].from;
    } else {
      var i :| 0 <= i < |h| && h[i].from == EPOCH;
    }
  }

  // ----- The rates of the dummy plans -----

  /** The plan has a version at the epoch with a component of its own. */
  predicate PricedAtEpoch(h: History<PlanTerms>) {
    exists i :: 0 <= i < |h| && h[i].from == EPOCH && h[i].data.components != []
  }

  ghost predicate IsPending(v: Version<PlanTerms>) {
    v.from == EPOCH && v.data.components == [PENDING]
  }

  lemma DummyVersions(h: History<PlanTerms>, name: string)
    requires Sorted(h)
    ensures forall v :: v in WithDummy(h, name) ==> v in h || IsPending(v)
    ensures PricedAtEpoch(h) ==> WithDummy(h, name) == h
    ensures !PricedAtEpoch(h) ==> exists v :: v in WithDummy(h, name) && IsPending(v)
  {
    var v := Version(EPOCH, PlanTerms(name, 0, 0, 0, []));
    var g := WithEpochPlan(h, name);
    InsertConflict(h, v);
    if Insert(h, v).Some? {
      var k := InsertPlace(h, v);
      assert g[k] == v && WithPending(g)[k] == Pend(v);
      assert Pend(v) in WithDummy(h, name) && IsPending(Pend(v));
      assert forall i :: 0 <= i < |g| && i != k ==> g[i] in h;
    } else if PricedAtEpoch(h) {
      var i :| 0 <= i < |h| && h[i].from == EPOCH && h[i].data.components != [];
      assert forall j :: 0 <= j < |h| && h[j].from == EPOCH ==> j == i;
      assert WithPending(h) == h;
    } else {
      var i :| 0 <= i < |h| && h[i].from == EPOCH;
      assert WithPending(h)[i] == Pend(h[i]) && IsPending(Pend(h[i]));
      assert Pend(h[i]) in WithDummy(h, name);
    }
  }

  lemma RatesOfVersion(cat: Catalogue, g: string, v: Version<PlanTerms>)
    requires RatesChecked(cat) && v in VersionsOf(cat.plans, g)
    ensures forall c :: c in v.data.components ==> RatesFrom(cat, c, v.from)
  {
    var i :| 0 <= i < |VersionsOf(cat.plans, g)| && VersionsOf(cat.plans, g)[i] == v;
  }

  /** The dummy plans are in pounds at the standard VAT rate from the epoch, and nothing checks that such
      rates exist by then: what `checkVATRates` and `checkCurrencyRates` established stays true exactly when
      they do, or when no dummy component was needed. */
  lemma GenerateRates(cat: Catalogue, events: seq<EventRow>)
    requires cat.Valid() && RatesChecked(cat)
    ensures RatesChecked(GenerateMissingPlans(cat, events)) <==>
            RatesFrom(cat, PENDING, EPOCH)
            || forall g :: g in UsedPlans(events) ==> PricedAtEpoch(VersionsOf(cat.plans, g))
  {
    hide WithDummies, WithDummy, UsedPlans, NewestName, RatesFrom, PricedAtEpoch;
    var c := GenerateMissingPlans(cat, events);
    assert forall p: PlanComponent, from: int :: RatesFrom(c, p, from) == RatesFrom(cat, p, from) by {
      SameRates(cat, c);
    }
    if RatesFrom(cat, PENDING, EPOCH)
       || forall g :: g in UsedPlans(events) ==> PricedAtEpoch(VersionsOf(cat.plans, g)) {
      forall g, i | g in c.plans && 0 <= i < |c.plans[g]|
        ensures forall p :: p in c.plans[g][i].data.components ==> RatesFrom(c, p, c.plans[g][i].from)
      {
        WithDummiesAt(cat.plans, events, g);
        var v := c.plans[g][i];
        if g in UsedPlans(events) {
          DummyVersions(VersionsOf(cat.plans, g), NewestName(events, g));
        }
        if v in VersionsOf(cat.plans, g) {
          RatesOfVersion(cat, g, v);
        }
      }
    }
    if RatesChecked(c) {
      forall g | g in UsedPlans(events) && !PricedAtEpoch(VersionsOf(cat.plans, g))
        ensures RatesFrom(cat, PENDING, EPOCH)
      {
        WithDummiesAt(cat.plans, events, g);
        DummyVersions(VersionsOf(cat.plans, g), NewestName(events, g));
        var v :| v in c.plans[g] && IsPending(v);
        RatesOfVersion(c, g, v);
        assert PENDING in v.data.components;
      }
    }
  }

  lemma SameRates(a: Catalogue, b: Catalogue)
    requires a.currencies == b.currencies && a.vats == b.vats
    ensures forall p: PlanComponent, from: int :: RatesFrom(a, p, from) == RatesFrom(b, p, from)
  {
  }

  /** What is left of the rate checks once dummy plans are committed: every version but the dummies finds its
      rates. */
  ghost predicate CheckedButDummies(cat: Catalogue) {
    forall g, v :: v in VersionsOf(cat.plans, g) && !IsPending(v) ==> VersionChecked(cat, v)
  }

  ghost predicate VersionChecked(cat: Catalogue, v: Version<PlanTerms>) {
    forall c :: c in v.data.components ==> RatesFrom(cat, c, v.from)
  }

  lemma CheckedIsCheckedButDummies(cat: Catalogue)
    requires RatesChecked(cat)
    ensures CheckedButDummies(cat)
  {
    forall g, v | v in VersionsOf(cat.plans, g) ensures VersionChecked(cat, v) {
      RatesOfVersion(cat, g, v);
    }
  }

  /** It survives any number of refreshes, each of which may add dummies. */
  lemma GenerateKeepsChecked(cat: Catalogue, events: seq<EventRow>)
    requires cat.Valid() && CheckedButDummies(cat)
    ensures CheckedButDummies(GenerateMissingPlans(cat, events))
  {
    hide WithDummies, WithDummy, UsedPlans, NewestName, RatesFrom;
    var c := GenerateMissingPlans(cat, events);
    SameRates(cat, c);
    forall g, v | v in VersionsOf(c.plans, g) && !IsPending(v) ensures VersionChecked(c, v) {
      WithDummiesAt(cat.plans, events, g);
      if g in UsedPlans(events) {
        DummyVersions(VersionsOf(cat.plans, g), NewestName(events, g));
      }
      assert v in VersionsOf(cat.plans, g);
      assert VersionChecked(cat, v);
    }
  }

  lemma FoundWhenStarted(cat: Catalogue, c: PlanComponent, r: Range)
    requires cat.Valid() && !r.Empty() && RatesFrom(cat, c, r.lo)
    ensures RatesFound(cat, c, r)
  {
  }

  lemma RatesStay(cat: Catalogue, c: PlanComponent, from: int, to: int)
    requires RatesFrom(cat, c, from) && from <= to
    ensures RatesFrom(cat, c, to)
  {
  }

  /** The rates of the dummy component are found over every part of the event that falls to a dummy version. */
  ghost predicate DummiesFound(cat: Catalogue, ev: EventRow) {
    forall p :: p in PlanPieces(cat, ev) && IsPending(p.version) ==>
      !p.range.Empty() && RatesFound(cat, PENDING, p.range)
  }

  /** Late rates only matter where a dummy version is met: an event's rates are all found exactly when those
      of the dummy component are, over the parts of the event that fall to dummy versions; for instance
      when pounds and standard VAT have rates by the time the event starts. */
  lemma DummiesRated(cat: Catalogue, ev: EventRow)
    requires cat.Valid() && CheckedButDummies(cat)
    ensures Rated(cat, ev) <==> DummiesFound(cat, ev)
    ensures RatesFrom(cat, PENDING, ev.duration.lo) ==> Rated(cat, ev)
  {
    hide RatesFound, RatesFrom, PieceRated, CheckedButDummies;
    forall p | p in PlanPieces(cat, ev)
      ensures !p.range.Empty()
      ensures IsPending(p.version) ==> (PieceRated(cat, p) <==> RatesFound(cat, PENDING, p.range))
      ensures !IsPending(p.version) ==> PieceRated(cat, p)
      ensures RatesFrom(cat, PENDING, ev.duration.lo) ==> RatesFound(cat, PENDING, p.range)
    {
      DummyPiece(cat, ev, p);
    }
  }

  lemma DummyPiece(cat: Catalogue, ev: EventRow, p: Piece<PlanTerms>)
    requires cat.Valid() && CheckedButDummies(cat) && p in PlanPieces(cat, ev)
    ensures !p.range.Empty()
    ensures IsPending(p.version) ==> (PieceRated(cat, p) <==> RatesFound(cat, PENDING, p.range))
    ensures !IsPending(p.version) ==> PieceRated(cat, p)
    ensures RatesFrom(cat, PENDING, ev.duration.lo) ==> RatesFound(cat, PENDING, p.range)
  {
    hide RatesFound, RatesFrom;
    CutInside(VersionsOf(cat.plans, ev.planGuid), ev.duration, 0);
    if RatesFrom(cat, PENDING, ev.duration.lo) {
      RatesStay(cat, PENDING, ev.duration.lo, p.range.lo);
      FoundWhenStarted(cat, PENDING, p.range);
    }
    if !IsPending(p.version) {
      assert VersionChecked(cat, p.version);
      forall k | k in p.version.data.components ensures RatesFound(cat, k, p.range) {
        RatesStay(cat, k, p.version.from, p.range.lo);
        FoundWhenStarted(cat, k, p.range);
      }
    }
  }

  /** What a rebuild needs, in terms of the dummies. */
  ghost predicate Buildable(cat: Catalogue, events: seq<EventRow>) {
    forall e :: 0 <= e < |events| ==>
      Billable(cat, events[e]) && DummiesFound(cat, events[e]) && Evaluates(cat, events[e])
  }

  /** The rebuild where dummy plans may already be committed, exactly: it fails for an event without a plan
      version or a component, for a dummy's part of an event over which the rates are not found, and for a
      division by zero. The same holds once this refresh has added its own dummies. */
  lemma RebuildWithDummies(cat: Catalogue, events: seq<EventRow>)
    requires cat.Valid() && CheckedButDummies(cat) && DistinctGuids(events)
    ensures BuildComponents(cat, events).Ok? <==> Buildable(cat, events)
    ensures BuildComponents(GenerateMissingPlans(cat, events), events).Ok?
       <==> Buildable(GenerateMissingPlans(cat, events), events)
  {
    hide BuildComponents, Buildable, GenerateMissingPlans, CheckedButDummies;
    RebuildExactly(cat, events);
    GenerateKeepsValid(cat, events);
    GenerateKeepsChecked(cat, events);
    RebuildExactly(GenerateMissingPlans(cat, events), events);
  }

  lemma RebuildExactly(cat: Catalogue, events: seq<EventRow>)
    requires cat.Valid() && CheckedButDummies(cat) && DistinctGuids(events)
    ensures BuildComponents(cat, events).Ok? <==> Buildable(cat, events)
  {
    hide BuildComponents, Billable, Evaluates, Rated, DummiesFound, CheckedButDummies;
    BuildSucceeds(cat, events);
    forall e | 0 <= e < |events| ensures Rated(cat, events[e]) <==> DummiesFound(cat, events[e]) {
      DummiesRated(cat, events[e]);
    }
  }

  /** While a dummy version is in force the event is charged, at no cost, from the instant on at which pounds
      and standard VAT both have rates; before that it is not in the table at all. */
  lemma DummyChargedSince(cat: Catalogue, events: seq<EventRow>, ev: EventRow, v: Version<PlanTerms>, t: int)
    requires cat.Valid() && ev.duration.Contains(t) && IsPending(v)
    requires Lookup(VersionsOf(GenerateMissingPlans(cat, events).plans, ev.planGuid), t) == Some(v)
    ensures TagsAt(EventRows(GenerateMissingPlans(cat, events), ev), t) != [] <==> RatesFrom(cat, PENDING, t)
    ensures forall tag, seconds: real :: tag in TagsAt(EventRows(GenerateMissingPlans(cat, events), ev), t) ==>
              Eval(tag.component.formula, InputsOf(ev, tag.plan.data), seconds) == Some(0.0)
  {
    hide WithDummies, EventRows, TagsAt, RatesFrom;
    var c := GenerateMissingPlans(cat, events);
    GenerateKeepsValid(cat, events);
    SameRates(cat, c);
    ChargeStarts(c, v, PENDING, t);
    RowsArePointwise(c, ev, t);
    assert v.data.components[1..] == [];
    assert ComponentChargesAt(c, v, v.data.components, t) == ChargeAt(c, v, PENDING, t) + [];
  }

  /** `checkPlanConsistency` asks for an overlap. An event that passes has a plan version at every instant of
      its duration, equivalently its plan versions tile it, exactly when the first version of its plan starts
      no later than the event; otherwise its beginning is not charged. */
  lemma ConsistentIsCovered(cat: Catalogue, events: seq<EventRow>, ev: EventRow)
    requires cat.Valid() && PlansConsistent(cat, events) && ev in events && !ev.duration.Empty()
    ensures VersionsOf(cat.plans, ev.planGuid) != []
    ensures InForceThroughout(cat, ev) <==> VersionsOf(cat.plans, ev.planGuid)[0].from <= ev.duration.lo
    ensures Tiles(Ranges(PlanPieces(cat, ev)), ev.duration) <==> InForceThroughout(cat, ev)
  {
    var h, lo := VersionsOf(cat.plans, ev.planGuid), ev.duration.lo;
    CutEmpty(h, ev.duration);
    if h[0].from <= lo {
      CutTiles(h, ev.duration);
      forall t | ev.duration.Contains(t) ensures Lookup(h, t).Some? {
        LookupNewest(h, h[0], t);
      }
    } else {
      LookupBefore(h, lo);
      assert ev.duration.Contains(lo);
      CutInside(h, ev.duration, 0);
      var first := PlanPieces(cat, ev)[0];
      assert first in PlanPieces(cat, ev) && Ranges(PlanPieces(cat, ev))[0] == first.range;
      var i :| 0 <= i < |h| && h[i] == first.version;
    }
  }

  /** Some version of the event's plan is in force at each of its instants. */
  ghost predicate InForceThroughout(cat: Catalogue, ev: EventRow) {
    forall t :: ev.duration.Contains(t) ==> Lookup(VersionsOf(cat.plans, ev.planGuid), t).Some?
  }

  /** Every configured version has a component. `checkPricingComponents` means to check this, but asks
      for a negative count, so it has to be assumed. */
  ghost predicate AllHaveComponents(cat: Catalogue) {
    forall g :: g in cat.plans ==> forall i :: 0 <= i < |cat.plans[g]| ==> cat.plans[g][i].data.components != []
  }

  /** `checkPricingComponents` as it is written: `having count(ppc.*) < 0`. */
  predicate PricingComponentsAccepted(cat: Catalogue) {
    forall g :: g in cat.plans ==> forall i :: 0 <= i < |cat.plans[g]| ==> !(|cat.plans[g][i].data.components| < 0)
  }

  /** It accepts every catalogue, and a configuration whose one plan has no component loads. */
  lemma PricingComponentsCheckIsVacuous(cat: Catalogue) returns (cfg: Config)
    ensures PricingComponentsAccepted(cat)
    ensures Load(cfg).Ok? && !AllHaveComponents(Load(cfg).value)
  {
    var row := PlanRow("p", Timestamp(FirstOf(EPOCH_MONTH), 0), "n", 0, 0, 0, []);
    cfg := Config([], [], [row]);
    var v := Version(row.validFrom.Instant(), TermsOf(row));
    var h: History<PlanTerms> := [];
    assert h + [v] == [v];
    assert InsertPlan(map[], row) == Ok(map["p" := [v]]);
    assert [row][..0] == [] && LoadPlans([]) == Ok(map[]);
    assert LoadPlans([row]) == Ok(map["p" := [v]]);
    assert Load(cfg).value.plans["p"][0].data.components == [];
  }

  /** With that assumption, a consistent catalogue can bill every event. */
  lemma ConsistentIsBillable(cat: Catalogue, events: seq<EventRow>)
    requires cat.Valid() && AllHaveComponents(cat) && PlansConsistent(cat, events)
    ensures forall ev :: ev in events ==> Billable(cat, ev)
  {
    forall ev | ev in events ensures Billable(cat, ev) {
      var h := VersionsOf(cat.plans, ev.planGuid);
      CutInside(h, ev.duration, 0);
      forall p | p in PlanPieces(cat, ev) ensures p.version.data.components != [] {
        var i :| 0 <= i < |h| && h[i] == p.version;
      }
    }
  }
}
