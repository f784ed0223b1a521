/** `cfstore.Store`: the transactions that collect listings of services, plans, organisations and spaces. */
module CfStore {
  import opened Base
  import opened Timeline
  import opened Events
  import opened CfHistory

  /** A row of `service_plans`, with the version of the service that it references. */
  datatype PlanRecord = PlanRecord(plan: PlanName, serviceFrom: int)

  datatype Tables = Tables(services: Table<string>, plans: Table<PlanRecord>, orgs: Table<string>,
      spaces: Table<string>)

  const NO_TABLES := Tables(map[], map[], map[], map[])

  /** `check (length(name) > 0)` */
  function NameGiven(): string -> bool {
    (name: string) => name != ""
  }

  /** The plan's own check, and its foreign key to `services (guid, valid_from)`. */
  function PlanAllowed(services: Table<string>): PlanRecord -> bool {
    (p: PlanRecord) =>
      && p.plan.name != ""
      && exists v :: v in VersionsOf(services, p.plan.serviceGuid) && v.from == p.serviceFrom
  }

  ghost predicate RowsSatisfy<T>(table: Table<T>, p: T -> bool) {
    forall g :: g in table ==> Sorted(table[g]) && forall v :: v in table[g] ==> p(v.data)
  }

  /** Every constraint of the four tables. */
  ghost predicate Consistent(t: Tables) {
    && RowsSatisfy(t.services, NameGiven())
    && RowsSatisfy(t.orgs, NameGiven())
    && RowsSatisfy(t.spaces, NameGiven())
    && RowsSatisfy(t.plans, PlanAllowed(t.services))
  }

  type Listing<T> = Result<seq<Listed<T>>>

  predicate Allowed<T(==)>(es: seq<Listed<T>>, p: T -> bool) {
    forall e :: e in es ==> p(e.data)
  }

  /** What is inserted for a listed plan: it is skipped if its service is unknown, or else references the
      newest version of its service. */
  function RecordOf(services: Table<string>, e: Listed<PlanName>): seq<Listed<PlanRecord>> {
    var h := VersionsOf(services, e.data.serviceGuid);
    if h == [] then [] else [e.With(PlanRecord(e.data, h[|h| - 1].from))]
  }

  function PlanRecords(services: Table<string>, es: seq<Listed<PlanName>>): seq<Listed<PlanRecord>> {
    if es == [] then [] else RecordOf(services, es[0]) + PlanRecords(services, es[1..])
  }

  // ----- The four collections on values -----

  function WithServices(t: Tables, l: Listing<string>): Result<Tables> {
    match l
    case Err(e) => Err(e)
    case Ok(es) => if Allowed(es, NameGiven()) then Ok(t.(services := RecordAll(t.services, es)))
        else Err("check constraint")
  }

  function WithPlans(t: Tables, l: Listing<PlanName>): Result<Tables> {
    match l
    case Err(e) => Err(e)
    case Ok(es) =>
      var records := PlanRecords(t.services, es);
      if Allowed(records, PlanAllowed(t.services)) then Ok(t.(plans := RecordAll(t.plans, records)))
      else Err("check constraint")
  }

  function WithOrgs(t: Tables, l: Listing<string>): Result<Tables> {
    match l
    case Err(e) => Err(e)
    case Ok(es) => if Allowed(es, NameGiven()) then Ok(t.(orgs := RecordAll(t.orgs, es))) else Err("check constraint")
  }

  function WithSpaces(t: Tables, l: Listing<string>): Result<Tables> {
    match l
    case Err(e) => Err(e)
    case Ok(es) => if Allowed(es, NameGiven()) then Ok(t.(spaces := RecordAll(t.spaces, es)))
        else Err("check constraint")
  }

  datatype Tx =
    | Services(services: Listing<string>, commits: bool)
    | Plans(plans: Listing<PlanName>, commits: bool)
    | Orgs(orgs: Listing<string>, commits: bool)
    | Spaces(spaces: Listing<string>, commits: bool)
    | Init(services: Listing<string>, plans: Listing<PlanName>, orgs: Listing<string>, spaces: Listing<string>,
        commits: bool)

  function WithAll(t: Tables, services: Listing<string>, plans: Listing<PlanName>, orgs: Listing<string>,
      spaces: Listing<string>): Result<Tables> {
    match WithServices(t, services)
    case Err(e) => Err(e)
    case Ok(t1) =>
      match WithPlans(t1, plans)
      case Err(e) => Err(e)
      case Ok(t2) =>
        match WithOrgs(t2, orgs)
        case Err(e) => Err(e)
        case Ok(t3) => WithSpaces(t3, spaces)
  }

  function Body(t: Tables, tx: Tx): Result<Tables> {
    match tx
    case Services(l, _) => WithServices(t, l)
    case Plans(l, _) => WithPlans(t, l)
    case Orgs(l, _) => WithOrgs(t, l)
    case Spaces(l, _) => WithSpaces(t, l)
    case Init(s, p, o, sp, _) => WithAll(t, s, p, o, sp)
  }

  /** A transaction takes effect as a whole or not at all. */
  predicate Effective(t: Tables, tx: Tx) {
    Body(t, tx).Ok? && tx.commits
  }

  function Apply(t: Tables, tx: Tx): Tables {
    if Effective(t, tx) then Body(t, tx).value else t
  }

  function Run(txs: seq<Tx>): Tables {
    if txs == [] then NO_TABLES else Apply(Run(txs[..|txs| - 1]), txs[|txs| - 1])
  }

  // ----- Constraints hold over every run -----

  /** Collecting never removes or changes a row, and adds only rows that were listed. */
  lemma {:induction false} RecordAllKeeps<T>(table: Table<T>, es: seq<Listed<T>>, p: T -> bool)
    requires RowsSatisfy(table, p) && Allowed(es, p)
    ensures RowsSatisfy(RecordAll(table, es), p)
    ensures forall g, v :: v in VersionsOf(table, g) ==> v in VersionsOf(RecordAll(table, es), g)
  {
    if es != [] {
      var front, e := es[..|es| - 1], es[|es| - 1];
      RecordAllKeeps(table, front, p);
      var before := RecordAll(table, front);
      RecordKeeps(VersionsOf(before, e.guid), e);
      assert RecordAll(table, es) == RecordIn(before, e);
    }
  }

  /** A plan's reference stays good when services are only added to. */
  lemma PlansStayAllowed(plans: Table<PlanRecord>, s1: Table<string>, s2: Table<string>)
    requires RowsSatisfy(plans, PlanAllowed(s1))
    requires forall g, v :: v in VersionsOf(s1, g) ==> v in VersionsOf(s2, g)
    ensures RowsSatisfy(plans, PlanAllowed(s2))
  {
    forall g, v | g in plans && v in plans[g] ensures PlanAllowed(s2)(v.data) {
      assert PlanAllowed(s1)(v.data);
    }
  }

  lemma WithServicesKeeps(t: Tables, l: Listing<string>)
    requires Consistent(t) && WithServices(t, l).Ok?
    ensures Consistent(WithServices(t, l).value)
  {
    hide RecordAll;
    RecordAllKeeps(t.services, l.value, NameGiven());
    PlansStayAllowed(t.plans, t.services, RecordAll(t.services, l.value));
  }

  lemma WithPlansKeeps(t: Tables, l: Listing<PlanName>)
    requires Consistent(t) && WithPlans(t, l).Ok?
    ensures Consistent(WithPlans(t, l).value)
  {
    hide RecordAll, PlanRecords;
    RecordAllKeeps(t.plans, PlanRecords(t.services, l.value), PlanAllowed(t.services));
  }

  lemma WithOrgsKeeps(t: Tables, l: Listing<string>)
    requires Consistent(t) && WithOrgs(t, l).Ok?
    ensures Consistent(WithOrgs(t, l).value)
  {
    hide RecordAll;
    RecordAllKeeps(t.orgs, l.value, NameGiven());
  }

  lemma WithSpacesKeeps(t: Tables, l: Listing<string>)
    requires Consistent(t) && WithSpaces(t, l).Ok?
    ensures Consistent(WithSpaces(t, l).value)
  {
    hide RecordAll;
    RecordAllKeeps(t.spaces, l.value, NameGiven());
  }

  lemma ApplyKeeps(t: Tables, tx: Tx)
    requires Consistent(t)
    ensures Consistent(Apply(t, tx))
  {
    hide Consistent, WithServices, WithPlans, WithOrgs, WithSpaces;
    if Effective(t, tx) {
      match tx
      case Services(l, _) => WithServicesKeeps(t, l);
      case Plans(l, _) => WithPlansKeeps(t, l);
      case Orgs(l, _) => WithOrgsKeeps(t, l);
      case Spaces(l, _) => WithSpacesKeeps(t, l);
      case Init(s, p, o, sp, _) =>
        WithServicesKeeps(t, s);
        var t1 := WithServices(t, s).value;
        WithPlansKeeps(t1, p);
        var t2 := WithPlans(t1, p).value;
        WithOrgsKeeps(t2, o);
        WithSpacesKeeps(WithOrgs(t2, o).value, sp);
    }
  }

  /** Over every run of collections, whichever fail or are rolled back, keys stay unique, names non-empty and
      every plan version references an existing version of its service. */
  lemma {:induction false} RunConsistent(txs: seq<Tx>)
    ensures Consistent(Run(txs))
  {
    hide Apply;
    if txs != [] {
      RunConsistent(txs[..|txs| - 1]);
      ApplyKeeps(Run(txs[..|txs| - 1]), txs[|txs| - 1]);
    }
  }

  lemma {:induction false} PlanRecordsReference(services: Table<string>, es: seq<Listed<PlanName>>,
      r: Listed<PlanRecord>)
    requires r in PlanRecords(services, es)
    ensures exists v :: v in VersionsOf(services, r.data.plan.serviceGuid) && v.from == r.data.serviceFrom
  {
    if r in PlanRecords(services, es[1..]) {
      PlanRecordsReference(services, es[1..], r);
    } else {
      var h := VersionsOf(services, es[0].data.serviceGuid);
      assert h[|h| - 1] in h;
    }
  }

  /** The insert of a plan is never refused for its foreign key, only for an empty name. */
  lemma ForeignKeyNeverFails(services: Table<string>, es: seq<Listed<PlanName>>)
    ensures Allowed(PlanRecords(services, es), PlanAllowed(services))
       <==> forall r :: r in PlanRecords(services, es) ==> r.data.plan.name != ""
  {
    forall r | r in PlanRecords(services, es)
      ensures PlanAllowed(services)(r.data) <==> r.data.plan.name != ""
    {
      PlanRecordsReference(services, es, r);
    }
  }

  // ----- What the tables then say -----

  // The listings of each kind that took effect in a run, one after the other.

  function ServicesOf(tx: Tx): seq<Listed<string>> {
    if (tx.Services? || tx.Init?) && tx.services.Ok? then tx.services.value else []
  }

  function OrgsOf(tx: Tx): seq<Listed<string>> {
    if (tx.Orgs? || tx.Init?) && tx.orgs.Ok? then tx.orgs.value else []
  }

  function SpacesOf(tx: Tx): seq<Listed<string>> {
    if (tx.Spaces? || tx.Init?) && tx.spaces.Ok? then tx.spaces.value else []
  }

  /** A plan is seen when its service is known. */
  function PlansOf(t: Tables, tx: Tx): seq<Listed<PlanRecord>> {
    match tx
    case Plans(l, _) => if l.Ok? then PlanRecords(t.services, l.value) else []
    case Init(s, l, _, _, _) => if s.Ok? && l.Ok? then PlanRecords(RecordAll(t.services, s.value), l.value) else []
    case _ => []
  }

  datatype Seen = Seen(services: seq<Listed<string>>, plans: seq<Listed<PlanRecord>>, orgs: seq<Listed<string>>,
      spaces: seq<Listed<string>>)

  function SeenIn(txs: seq<Tx>): Seen {
    if txs == [] then Seen([], [], [], [])
    else
      var front, tx := txs[..|txs| - 1], txs[|txs| - 1];
      var s := SeenIn(front);
      if !Effective(Run(front), tx) then s
      else
        Seen(s.services + ServicesOf(tx), s.plans + PlansOf(Run(front), tx), s.orgs + OrgsOf(tx),
             s.spaces + SpacesOf(tx))
  }

  lemma {:induction false} RecordAllConcat<T>(table: Table<T>, a: seq<Listed<T>>, b: seq<Listed<T>>)
    ensures RecordAll(table, a + b) == RecordAll(RecordAll(table, a), b)
  {
    if b == [] {
      assert a + b == a;
    } else {
      RecordAllConcat(table, a, b[..|b| - 1]);
      assert (a + b)[..|a + b| - 1] == a + b[..|b| - 1];
    }
  }

  lemma EffectiveRecords(t: Tables, tx: Tx)
    requires Effective(t, tx)
    ensures Apply(t, tx) == Tables(RecordAll(t.services, ServicesOf(tx)), RecordAll(t.plans, PlansOf(t, tx)),
                                   RecordAll(t.orgs, OrgsOf(tx)), RecordAll(t.spaces, SpacesOf(tx)))
  {
    hide PlanRecords, Allowed, RecordAll;
    NothingRecorded(t.services);
    NothingRecorded(t.plans);
    NothingRecorded(t.orgs);
    NothingRecorded(t.spaces);
  }

  /** The tables after a run hold what was recorded of the listings that took effect. */
  lemma {:induction false} RunRecords(txs: seq<Tx>)
    ensures Run(txs) == Tables(RecordAll(map[], SeenIn(txs).services), RecordAll(map[], SeenIn(txs).plans),
                               RecordAll(map[], SeenIn(txs).orgs), RecordAll(map[], SeenIn(txs).spaces))
  {
    if txs != [] {
      var front, tx := txs[..|txs| - 1], txs[|txs| - 1];
      RunRecords(front);
      if Effective(Run(front), tx) {
        hide Effective, Apply, PlansOf, RecordAll;
        EffectiveRecords(Run(front), tx);
        var s := SeenIn(front);
        RecordAllConcat(map[], s.services, ServicesOf(tx));
        RecordAllConcat(map[], s.plans, PlansOf(Run(front), tx));
        RecordAllConcat(map[], s.orgs, OrgsOf(tx));
        RecordAllConcat(map[], s.spaces, SpacesOf(tx));
      }
    }
  }

  // ----- Collecting the same thing again -----

  ghost predicate AllSorted<T>(table: Table<T>) {
    forall g :: g in table ==> Sorted(table[g])
  }

  /** The guids and times of two listings agree. */
  ghost predicate SameTimes<T>(a: seq<Listed<T>>, b: seq<Listed<T>>) {
    |a| == |b| && forall i :: 0 <= i < |a| ==> a[i].guid == b[i].guid && a[i].updatedAt == b[i].updatedAt
  }

  lemma {:induction false} RecordAllGrows<T>(table: Table<T>, es: seq<Listed<T>>)
    requires AllSorted(table)
    ensures AllSorted(RecordAll(table, es))
    ensures forall g, v :: v in VersionsOf(table, g) ==> v in VersionsOf(RecordAll(table, es), g)
  {
    if es != [] {
      var front, e := es[..|es| - 1], es[|es| - 1];
      RecordAllGrows(table, front);
      RecordKeeps(VersionsOf(RecordAll(table, front), e.guid), e);
    }
  }

  /** What was listed is known afterwards ... */
  lemma {:induction false} RecordAllKnows<T>(table: Table<T>, es: seq<Listed<T>>, i: nat)
    requires AllSorted(table) && i < |es|
    ensures VersionsOf(RecordAll(table, es), es[i].guid) != []
  {
    var front, e := es[..|es| - 1], es[|es| - 1];
    RecordAllGrows(table, front);
    RecordKeeps(VersionsOf(RecordAll(table, front), e.guid), e);
    if i < |front| {
      RecordAllKnows(table, front, i);
    }
  }

  lemma UpdateStays<T>(table: Table<T>, e: Listed<T>, x: Listed<T>)
    requires AllSorted(table) && HasUpdate(VersionsOf(table, x.guid), x)
    ensures HasUpdate(VersionsOf(RecordIn(table, e), x.guid), x)
  {
    RecordKeeps(VersionsOf(table, e.guid), e);
    var v :| v in VersionsOf(table, x.guid) && v.from == x.updatedAt;
    assert v in VersionsOf(RecordIn(table, e), x.guid);
  }

  /** ... and if it was known before, it then has a version from its update on. */
  lemma {:induction false} RecordAllUpdates<T>(table: Table<T>, es: seq<Listed<T>>, i: nat)
    requires AllSorted(table) && i < |es| && VersionsOf(table, es[i].guid) != []
    ensures HasUpdate(VersionsOf(RecordAll(table, es), es[i].guid), es[i])
  {
    hide HasUpdate, Record;
    var front, e := es[..|es| - 1], es[|es| - 1];
    RecordAllGrows(table, front);
    if i < |front| {
      RecordAllUpdates(table, front, i);
      UpdateStays(RecordAll(table, front), e, es[i]);
    } else {
      var h := VersionsOf(RecordAll(table, front), e.guid);
      assert VersionsOf(table, e.guid)[0] in h;
      RecordUpdates(h, e);
    }
  }

  /** A listing whose updates are all there adds nothing. */
  lemma {:induction false} RecordAllFixed<T>(table: Table<T>, es: seq<Listed<T>>)
    requires AllSorted(table)
    requires forall i :: 0 <= i < |es| ==> HasUpdate(VersionsOf(table, es[i].guid), es[i])
    ensures RecordAll(table, es) == table
  {
    hide HasUpdate;
    if es != [] {
      var front, e := es[..|es| - 1], es[|es| - 1];
      RecordAllFixed(table, front);
      RecordPresent(VersionsOf(table, e.guid), e);
      assert e.guid in table by { UpdatedIsKnown(table, e); }
      assert table[e.guid := table[e.guid]] == table;
    }
  }

  lemma UpdatedIsKnown<T>(table: Table<T>, e: Listed<T>)
    requires HasUpdate(VersionsOf(table, e.guid), e)
    ensures e.guid in table
  {
  }

  /** After two collections of a listing a third changes nothing. */
  lemma CollectedTwice<T>(table: Table<T>, a: seq<Listed<T>>, b: seq<Listed<T>>)
    requires AllSorted(table) && SameTimes(a, b)
    ensures RecordAll(RecordAll(RecordAll(table, a), b), b) == RecordAll(RecordAll(table, a), b)
  {
    hide RecordAll, HasUpdate;
    var once := RecordAll(table, a);
    RecordAllGrows(table, a);
    RecordAllGrows(once, b);
    forall i | 0 <= i < |b| ensures HasUpdate(VersionsOf(RecordAll(once, b), b[i].guid), b[i]) {
      RecordAllKnows(table, a, i);
      RecordAllUpdates(once, b, i);
    }
    RecordAllFixed(RecordAll(once, b), b);
  }

  /** Collecting services again makes none known that was unknown. */
  lemma {:induction false} SameKnown(table: Table<string>, es: seq<Listed<string>>, guid: string)
    requires VersionsOf(RecordAll(table, es), guid) != []
    ensures VersionsOf(table, guid) != [] || exists i :: 0 <= i < |es| && es[i].guid == guid
  {
    if es != [] {
      var front, e := es[..|es| - 1], es[|es| - 1];
      if e.guid == guid {
        assert es[|es| - 1].guid == guid;
      } else {
        SameKnown(table, front, guid);
        if i :| 0 <= i < |front| && front[i].guid == guid {
          assert es[i].guid == guid;
        }
      }
    }
  }

  lemma KnownOnce(table: Table<string>, es: seq<Listed<string>>, guid: string)
    requires AllSorted(table)
    ensures var once := RecordAll(table, es);
            VersionsOf(once, guid) != [] <==> VersionsOf(RecordAll(once, es), guid) != []
  {
    hide RecordAll;
    var once := RecordAll(table, es);
    RecordAllGrows(table, es);
    RecordAllGrows(once, es);
    if VersionsOf(once, guid) != [] {
      assert VersionsOf(once, guid)[0] in VersionsOf(RecordAll(once, es), guid);
    } else if VersionsOf(RecordAll(once, es), guid) != [] {
      SameKnown(once, es, guid);
      var i :| 0 <= i < |es| && es[i].guid == guid;
      RecordAllKnows(table, es, i);
    }
  }

  lemma {:induction false} PlanRecordsTimes(s1: Table<string>, s2: Table<string>, l: seq<Listed<PlanName>>)
    requires forall g :: VersionsOf(s1, g) != [] <==> VersionsOf(s2, g) != []
    ensures SameTimes(PlanRecords(s1, l), PlanRecords(s2, l))
  {
    if l != [] {
      PlanRecordsTimes(s1, s2, l[1..]);
    }
  }

  lemma PlansOfAgain(t: Tables, tx: Tx)
    requires AllSorted(t.services) && Effective(t, tx) && Effective(Apply(t, tx), tx)
    ensures SameTimes(PlansOf(t, tx), PlansOf(Apply(t, tx), tx))
    ensures PlansOf(Apply(Apply(t, tx), tx), tx) == PlansOf(Apply(t, tx), tx)
  {
    hide RecordAll, PlanRecords, Effective, Apply;
    EffectiveRecords(t, tx);
    EffectiveRecords(Apply(t, tx), tx);
    var es, once := ServicesOf(tx), RecordAll(t.services, ServicesOf(tx));
    CollectedTwice(t.services, es, es);
    forall g ensures VersionsOf(once, g) != [] <==> VersionsOf(RecordAll(once, es), g) != [] {
      KnownOnce(t.services, es, g);
    }
    if tx.Init? && tx.plans.Ok? {
      PlanRecordsTimes(once, RecordAll(once, es), tx.plans.value);
    }
    NothingRecorded(t.services);
  }

  /** Re-collecting an unchanged listing reaches a fixpoint within two runs: for every transaction, whatever
      it lists, in any order, with or without repetitions. */
  lemma CollectingAgain(t: Tables, tx: Tx)
    requires Consistent(t)
    ensures Apply(Apply(Apply(t, tx), tx), tx) == Apply(Apply(t, tx), tx)
  {
    hide RecordAll, PlanRecords, PlansOf, Body;
    var t1 := Apply(t, tx);
    var t2 := Apply(t1, tx);
    if Effective(t, tx) && Effective(t1, tx) && Effective(t2, tx) {
      hide Effective, Apply;
      EffectiveRecords(t, tx);
      EffectiveRecords(t1, tx);
      EffectiveRecords(t2, tx);
      PlansOfAgain(t, tx);
      CollectedTwice(t.services, ServicesOf(tx), ServicesOf(tx));
      CollectedTwice(t.plans, PlansOf(t, tx), PlansOf(t1, tx));
      CollectedTwice(t.orgs, OrgsOf(tx), OrgsOf(tx));
      CollectedTwice(t.spaces, SpacesOf(tx), SpacesOf(tx));
    }
  }

  // ----- The tables as the events see them -----

  function PlanNames(h: History<PlanRecord>): History<PlanName> {
    Map((v: Version<PlanRecord>) => Version(v.from, v.data.plan), h)
  }

  /** The columns that `create_events.sql` reads. */
  function NamesOf(t: Tables): Names {
    Names(map g | g in t.plans :: PlanNames(t.plans[g]), t.services, t.orgs, t.spaces)
  }

  /** What the processing loop requires of the tables that the collectors leave behind. */
  lemma NamesAreValid(t: Tables)
    requires Consistent(t)
    ensures NamesOf(t).Valid()
  {
  }

  function PlanSeen(e: Listed<PlanRecord>): Listed<PlanName> {
    e.With(e.data.plan)
  }

  function ServiceKnown(services: Table<string>): Listed<PlanName> -> bool {
    (e: Listed<PlanName>) => VersionsOf(services, e.data.serviceGuid) != []
  }

  /** The service version that the record references is one that no other is newer than. */
  ghost predicate ReferencesNewest(services: Table<string>, r: PlanRecord) {
    && (exists v :: v in VersionsOf(services, r.plan.serviceGuid) && v.from == r.serviceFrom)
    && forall v :: v in VersionsOf(services, r.plan.serviceGuid) ==> v.from <= r.serviceFrom
  }

  lemma RecordOfListed(services: Table<string>, e: Listed<PlanName>)
    requires AllSorted(services)
    ensures if ServiceKnown(services)(e)
            then |RecordOf(services, e)| == 1 && PlanSeen(RecordOf(services, e)[0]) == e
                 && ReferencesNewest(services, RecordOf(services, e)[0].data)
            else RecordOf(services, e) == []
  {
    var h := VersionsOf(services, e.data.serviceGuid);
    if h != [] {
      assert h[|h| - 1] in h;
    }
  }

  /** What is recorded of a listing of plans: those whose service is known, in order, each with its own guid,
      times, name, service and unique id, and with the newest version of the service. */
  lemma {:induction false} PlanRecordsListed(services: Table<string>, es: seq<Listed<PlanName>>)
    requires AllSorted(services)
    ensures Map(PlanSeen, PlanRecords(services, es)) == Filter(ServiceKnown(services), es)
    ensures forall r :: r in PlanRecords(services, es) ==> ReferencesNewest(services, r.data)
  {
    hide RecordOf, ReferencesNewest, AllSorted, ServiceKnown;
    if es != [] {
      PlanRecordsListed(services, es[1..]);
      RecordOfListed(services, es[0]);
      var head, tail := RecordOf(services, es[0]), PlanRecords(services, es[1..]);
      if ServiceKnown(services)(es[0]) {
        assert head == [head[0]];
        assert Map(PlanSeen, head + tail) == [es[0]] + Map(PlanSeen, tail);
      } else {
        assert head + tail == tail;
      }
    }
  }

  lemma {:induction false} InsertPlanNames(h: History<PlanRecord>, v: Version<PlanRecord>)
    ensures Insert(PlanNames(h), Version(v.from, v.data.plan))
         == match Insert(h, v) case Some(g) => Some(PlanNames(g)) case None => None
  {
    if h == [] || h[|h| - 1].from < v.from {
      assert PlanNames(h + [v]) == PlanNames(h) + [Version(v.from, v.data.plan)];
    } else if v.from < h[|h| - 1].from {
      var front := h[..|h| - 1];
      InsertPlanNames(front, v);
      assert PlanNames(h)[..|h| - 1] == PlanNames(front);
      if Insert(h, v).Some? {
        assert PlanNames(Insert(front, v).value + [h[|h| - 1]])
            == PlanNames(Insert(front, v).value) + [PlanNames(h)[|h| - 1]];
      }
    }
  }

  lemma {:induction false} ObservedPlanNames(obs: seq<Listed<PlanRecord>>)
    ensures PlanNames(Observed(obs)) == Observed(Map(PlanSeen, obs))
  {
    if obs != [] {
      var front, e := obs[..|obs| - 1], obs[|obs| - 1];
      ObservedPlanNames(front);
      assert Map(PlanSeen, obs)[..|obs| - 1] == Map(PlanSeen, front);
      var h := Observed(front);
      InsertPlanNames(h, Version(ValidFrom(h, e), e.data));
    }
  }

  /** After any run, an event finds the org, space and service name that the thing was last listed with by
      the end of the event, or was first listed with if it ended before any update ... */
  lemma NamesAppear(txs: seq<Tx>, guid: string, t: int)
    ensures Regular(Filter(OfGuid(guid), SeenIn(txs).orgs)) ==>
              NameAt(NamesOf(Run(txs)).orgs, guid, t) == [Appearance(Filter(OfGuid(guid), SeenIn(txs).orgs), t)]
    ensures Regular(Filter(OfGuid(guid), SeenIn(txs).spaces)) ==>
              NameAt(NamesOf(Run(txs)).spaces, guid, t) == [Appearance(Filter(OfGuid(guid), SeenIn(txs).spaces), t)]
    ensures Regular(Filter(OfGuid(guid), SeenIn(txs).services)) ==>
              NameAt(NamesOf(Run(txs)).services, guid, t) == [Appearance(Filter(OfGuid(guid), SeenIn(txs).services), t)]
  {
    hide Regular, NameAt, Appearance, Run, SeenIn, RecordAll;
    RunRecords(txs);
    var s := SeenIn(txs);
    if Regular(Filter(OfGuid(guid), s.orgs)) {
      JoinedNameAppears(s.orgs, guid, t);
    }
    if Regular(Filter(OfGuid(guid), s.spaces)) {
      JoinedNameAppears(s.spaces, guid, t);
    }
    if Regular(Filter(OfGuid(guid), s.services)) {
      JoinedNameAppears(s.services, guid, t);
    }
  }

  /** ... and the plan that was listed while its service was known. */
  lemma PlanAppears(txs: seq<Tx>, guid: string, t: int)
    requires Regular(Map(PlanSeen, Filter(OfGuid(guid), SeenIn(txs).plans)))
    ensures PlanAt(NamesOf(Run(txs)).plans, guid, t)
         == [Appearance(Map(PlanSeen, Filter(OfGuid(guid), SeenIn(txs).plans)), t)]
  {
    hide Regular, PlanAt, Appearance, Run, SeenIn, RecordAll, Consistent, Lookup;
    RunRecords(txs);
    RunConsistent(txs);
    NamesAreValid(Run(txs));
    var obs := Filter(OfGuid(guid), SeenIn(txs).plans);
    RecordAllByGuid(SeenIn(txs).plans, guid);
    ObservedPlanNames(obs);
    PlanAtIsLookup(NamesOf(Run(txs)).plans, guid, t);
    HistoryAnswers(Map(PlanSeen, obs), t);
    assert VersionsOf(NamesOf(Run(txs)).plans, guid) == PlanNames(VersionsOf(Run(txs).plans, guid));
  }

  // ----- The store as it runs -----

  lemma RecordAllNext<T>(table: Table<T>, es: seq<Listed<T>>, n: nat)
    requires n < |es|
    ensures RecordAll(table, es[..n + 1]) == RecordIn(RecordAll(table, es[..n]), es[n])
  {
    assert es[..n + 1][..n] == es[..n];
  }

  lemma PlanRecordsHead(services: Table<string>, es: seq<Listed<PlanName>>)
    requires es != []
    ensures PlanRecords(services, es) == RecordOf(services, es[0]) + PlanRecords(services, es[1..])
  {
  }

  lemma {:induction false} PlanRecordsConcat(services: Table<string>, a: seq<Listed<PlanName>>,
      b: seq<Listed<PlanName>>)
    ensures PlanRecords(services, a + b) == PlanRecords(services, a) + PlanRecords(services, b)
  {
    hide PlanRecords;
    if a == [] {
      assert a + b == b;
      NothingListed(services);
    } else {
      PlanRecordsConcat(services, a[1..], b);
      assert (a + b)[1..] == a[1..] + b && (a + b)[0] == a[0];
      PlanRecordsHead(services, a);
      PlanRecordsHead(services, a + b);
    }
  }

  class HistoricDataStore {
    var services: Table<string>
    var plans: Table<PlanRecord>
    var orgs: Table<string>
    var spaces: Table<string>

    constructor ()
      ensures View() == NO_TABLES
    {
      services, plans, orgs, spaces := map[], map[], map[], map[];
    }

    function View(): Tables
      reads this
    {
      Tables(services, plans, orgs, spaces)
    }

    // Inside a transaction: after an error some rows may have been written, for the caller to roll back.

    method CollectServicesIn(listing: Listing<string>) returns (r: Outcome)
      modifies this`services
      ensures r.Done? <==> WithServices(old(View()), listing).Ok?
      ensures r.Done? ==> View() == WithServices(old(View()), listing).value
    {
      hide RecordAll, RecordIn;
      if listing.Err? {
        return Failed(listing.error);
      }
      var es := listing.value;
      var n := 0;
      NothingRecorded(services);
      assert es[..0] == [];
      while n < |es|
        invariant 0 <= n <= |es|
        invariant Allowed(es[..n], NameGiven())
        invariant services == RecordAll(old(services), es[..n])
      {
        RecordAllNext(old(services), es, n);
        if es[n].data == "" {
          return Failed("check constraint");
        }
        services := RecordIn(services, es[n]);
        n := n + 1;
      }
      assert es[..n] == es;
      r := Done;
    }

    method CollectServicePlansIn(listing: Listing<PlanName>) returns (r: Outcome)
      modifies this`plans
      ensures r.Done? <==> WithPlans(old(View()), listing).Ok?
      ensures r.Done? ==> View() == WithPlans(old(View()), listing).value
    {
      hide RecordAll, RecordIn, PlanAllowed, PlanRecords;
      if listing.Err? {
        return Failed(listing.error);
      }
      var es := listing.value;
      ForeignKeyNeverFails(services, es);
      var n := 0;
      NothingRecorded(plans);
      assert es[..0] == [];
      assert PlanRecords(services, []) == [] by { NothingListed(services); }
      while n < |es|
        invariant 0 <= n <= |es|
        invariant forall r :: r in PlanRecords(services, es[..n]) ==> r.data.plan.name != ""
        invariant plans == RecordAll(old(plans), PlanRecords(services, es[..n]))
      {
        var plan := es[n];
        PlanRecordsNext(services, es, n);
        var versions := VersionsOf(services, plan.data.serviceGuid);
        if versions == [] {
          assert PlanRecords(services, es[..n]) + [] == PlanRecords(services, es[..n]);
          n := n + 1;
          continue;
        }
        var record := plan.With(PlanRecord(plan.data, versions[|versions| - 1].from));
        if plan.data.name == "" {
          return Failed("check constraint");
        }
        RecordAllLast(old(plans), PlanRecords(services, es[..n]), record);
        plans := RecordIn(plans, record);
        n := n + 1;
      }
      assert es[..n] == es;
      r := Done;
    }

    method CollectOrgsIn(listing: Listing<string>) returns (r: Outcome)
      modifies this`orgs
      ensures r.Done? <==> WithOrgs(old(View()), listing).Ok?
      ensures r.Done? ==> View() == WithOrgs(old(View()), listing).value
    {
      hide RecordAll, RecordIn;
      if listing.Err? {
        return Failed(listing.error);
      }
      var es := listing.value;
      var n := 0;
      NothingRecorded(orgs);
      assert es[..0] == [];
      while n < |es|
        invariant 0 <= n <= |es|
        invariant Allowed(es[..n], NameGiven())
        invariant orgs == RecordAll(old(orgs), es[..n])
      {
        RecordAllNext(old(orgs), es, n);
        if es[n].data == "" {
          return Failed("check constraint");
        }
        orgs := RecordIn(orgs, es[n]);
        n := n + 1;
      }
      assert es[..n] == es;
      r := Done;
    }

    method CollectSpacesIn(listing: Listing<string>) returns (r: Outcome)
      modifies this`spaces
      ensures r.Done? <==> WithSpaces(old(View()), listing).Ok?
      ensures r.Done? ==> View() == WithSpaces(old(View()), listing).value
    {
      hide RecordAll, RecordIn;
      if listing.Err? {
        return Failed(listing.error);
      }
      var es := listing.value;
      var n := 0;
      NothingRecorded(spaces);
      assert es[..0] == [];
      while n < |es|
        invariant 0 <= n <= |es|
        invariant Allowed(es[..n], NameGiven())
        invariant spaces == RecordAll(old(spaces), es[..n])
      {
        RecordAllNext(old(spaces), es, n);
        if es[n].data == "" {
          return Failed("check constraint");
        }
        spaces := RecordIn(spaces, es[n]);
        n := n + 1;
      }
      assert es[..n] == es;
      r := Done;
    }

    /** Each exported method is one transaction around one or, for `Init`, all of the collections. */
    method Collect(tx: Tx) returns (r: Outcome)
      modifies this
      ensures View() == Apply(old(View()), tx)
      ensures r.Done? <==> Effective(old(View()), tx)
    {
      hide WithServices, WithPlans, WithOrgs, WithSpaces;
      var savedServices, savedPlans, savedOrgs, savedSpaces := services, plans, orgs, spaces;
      match tx {
        case Services(l, _) => r := CollectServicesIn(l);
        case Plans(l, _) => r := CollectServicePlansIn(l);
        case Orgs(l, _) => r := CollectOrgsIn(l);
        case Spaces(l, _) => r := CollectSpacesIn(l);
        case Init(s, p, o, sp, _) =>
          r := CollectServicesIn(s);
          if r.Done? {
            r := CollectServicePlansIn(p);
          }
          if r.Done? {
            r := CollectOrgsIn(o);
          }
          if r.Done? {
            r := CollectSpacesIn(sp);
          }
      }
      if r.Done? && !tx.commits {
        r := Failed("commit failed");
      }
      if r.Failed? {
        services, plans, orgs, spaces := savedServices, savedPlans, savedOrgs, savedSpaces;
      }
    }
  }

  lemma NothingRecorded<T>(table: Table<T>)
    ensures RecordAll(table, []) == table
  {
  }

  lemma NothingListed(services: Table<string>)
    ensures PlanRecords(services, []) == []
  {
  }

  lemma PlanRecordsNext(services: Table<string>, es: seq<Listed<PlanName>>, n: nat)
    requires n < |es|
    ensures PlanRecords(services, es[..n + 1]) == PlanRecords(services, es[..n]) + RecordOf(services, es[n])
    ensures forall r :: r in RecordOf(services, es[n]) ==> r in PlanRecords(services, es)
  {
    hide RecordOf;
    assert es[..n + 1] == es[..n] + [es[n]];
    PlanRecordsConcat(services, es[..n], [es[n]]);
    assert PlanRecords(services, [es[n]]) == RecordOf(services, es[n]) by {
      NothingListed(services);
      assert [es[n]][1..] == [];
    }
    assert es == es[..n + 1] + es[n + 1..];
    PlanRecordsConcat(services, es[..n + 1], es[n + 1..]);
  }

  lemma RecordAllLast<T>(table: Table<T>, es: seq<Listed<T>>, e: Listed<T>)
    ensures RecordAll(table, es + [e]) == RecordIn(RecordAll(table, es), e)
  {
    assert (es + [e])[..|es|] == es;
  }
}
