/** The `events` table: usage ranges joined with the names and plans that were valid when they ended. */
module Events {
  import opened Base
  import opened Timeline
  import opened Compaction
  import opened EventLog

  /** `service_plans.unique_id` is text that need not be a UUID. */
  datatype UniqueId = Uuid(guid: string) | OtherText(text: string)

  /** The fields of a service plan version that the query exposes. */
  datatype PlanName = PlanName(serviceGuid: string, name: string, uniqueId: UniqueId)

  /** `service_plans`, `services`, `orgs` and `spaces`, each keyed by guid and version. */
  datatype Names = Names(
    plans: map<string, History<PlanName>>,
    services: map<string, History<string>>,
    orgs: map<string, History<string>>,
    spaces: map<string, History<string>>)
  {
    ghost predicate Valid() {
      && (forall g :: g in plans ==> Sorted(plans[g]))
      && (forall g :: g in services ==> Sorted(services[g]))
      && (forall g :: g in orgs ==> Sorted(orgs[g]))
      && (forall g :: g in spaces ==> Sorted(spaces[g]))
    }
  }

  function VersionsOf<T>(table: map<string, History<T>>, guid: string): History<T> {
    if guid in table then table[guid] else []
  }

  /** The columns compared by `not_redundant` in `valid_service_plans`. Text that is a UUID and text
      that is not never compare equal, which the leading mark keeps. */
  function PlanColumns(): PlanName -> seq<Column> {
    (p: PlanName) => [Some(p.serviceGuid), Some(p.name),
                      Some(match p.uniqueId case Uuid(g) => "u" + g case OtherText(t) => "t" + t)]
  }

  /** ... and in `valid_services`, `valid_orgs` and `valid_spaces`. */
  function NameColumns(): string -> seq<Column> {
    (n: string) => [Some(n)]
  }

  lemma PlanColumnsExpose()
    ensures Exposes(PlanColumns())
  {
    var columns := PlanColumns();
    forall x, y | columns(x) == columns(y) ensures x == y {
      assert columns(x)[0] == columns(y)[0] && columns(x)[1] == columns(y)[1] && columns(x)[2] == columns(y)[2];
      var a := match x.uniqueId case Uuid(g) => "u" + g case OtherText(t) => "t" + t;
      var b := match y.uniqueId case Uuid(g) => "u" + g case OtherText(t) => "t" + t;
      assert a == b && a[0] == b[0] && a[1..] == b[1..];
      assert x.uniqueId == y.uniqueId by {
        match x.uniqueId
        case Uuid(g) => assert a[1..] == g;
        case OtherText(t) => assert a[1..] == t;
      }
    }
  }

  lemma NameColumnsExpose()
    ensures Exposes(NameColumns())
  {
    var columns := NameColumns();
    forall x, y | columns(x) == columns(y) ensures x == y {
      assert columns(x)[0] == columns(y)[0];
    }
  }

  /** Who a charge is for; it is copied unchanged from events to components to bills. */
  datatype Subject = Subject(
    eventGuid: string, resourceGuid: string, resourceName: string, resourceType: string,
    orgGuid: string, orgName: string, spaceGuid: string, spaceName: string)

  datatype EventRow = EventRow(
    subject: Subject, duration: Range, planGuid: string, planName: string,
    serviceGuid: string, serviceName: string,
    nodes: Option<int>, memory: Option<int>, storage: Option<int>)

  /** The guid that stands for a service plan nobody knows. */
  const PLACEHOLDER_PLAN := "d5091c33-2f9d-4b15-82dc-4ad69717fc03"

  /** The select list of the final query, for one combination of joined rows. */
  function Row(u: Usage, plan: Option<PlanName>, service: Option<string>, org: Option<string>,
      space: Option<string>): EventRow {
    var e := u.event;
    EventRow(
      Subject(e.guid, e.resource, e.name.GetOr(""), e.resourceType,
              e.org, org.GetOr(e.org), e.space, space.GetOr(e.space)),
      u.duration,
      if e.resourceType == "service"
      then if plan.Some? && plan.value.uniqueId.Uuid? then plan.value.uniqueId.guid else PLACEHOLDER_PLAN
      else e.plan,
      if plan.Some? then plan.value.name else e.planName,
      if plan.Some? && service.Some? then plan.value.serviceGuid else e.service,
      service.GetOr(e.serviceName),
      e.nodes, e.memory, e.storage)
  }

  /** A left join's rows: what matched, or one NULL row. */
  function LeftJoin<T>(rows: seq<Version<T>>): seq<Option<T>> {
    if rows == [] then [None] else Map((v: Version<T>) => Some(v.data), rows)
  }

  /** `left join valid_x on ... and upper(ev.duration) <@ valid_x.valid_for` */
  function NameAt(table: map<string, History<string>>, guid: string, t: int): seq<Option<string>> {
    LeftJoin(Matches(Compact(VersionsOf(table, guid), NameColumns()), t))
  }

  function PlanAt(table: map<string, History<PlanName>>, guid: string, t: int): seq<Option<PlanName>> {
    LeftJoin(Matches(Compact(VersionsOf(table, guid), PlanColumns()), t))
  }

  // The combinations of joined rows, one table after the other.

  function JoinSpaces(u: Usage, plan: Option<PlanName>, service: Option<string>, org: Option<string>,
                      spaces: seq<Option<string>>): seq<EventRow> {
    if spaces == [] then []
    else [Row(u, plan, service, org, spaces[0])] + JoinSpaces(u, plan, service, org, spaces[1..])
  }

  function JoinOrgs(names: Names, u: Usage, plan: Option<PlanName>, service: Option<string>,
                    orgs: seq<Option<string>>): seq<EventRow> {
    if orgs == [] then []
    else
      JoinSpaces(u, plan, service, orgs[0], NameAt(names.spaces, u.event.space, u.duration.hi))
      + JoinOrgs(names, u, plan, service, orgs[1..])
  }

  function JoinServices(names: Names, u: Usage, plan: Option<PlanName>,
                        services: seq<Option<string>>): seq<EventRow> {
    if services == [] then []
    else
      JoinOrgs(names, u, plan, services[0], NameAt(names.orgs, u.event.org, u.duration.hi))
      + JoinServices(names, u, plan, services[1..])
  }

  function JoinPlans(names: Names, u: Usage, plans: seq<Option<PlanName>>): seq<EventRow> {
    if plans == [] then []
    else
      JoinServices(names, u, plans[0],
                   if plans[0].None? then [None]
                   else NameAt(names.services, plans[0].value.serviceGuid, u.duration.hi))
      + JoinPlans(names, u, plans[1..])
  }

  /** The rows one usage joins to. */
  function Joined(names: Names, u: Usage): seq<EventRow> {
    JoinPlans(names, u, PlanAt(names.plans, u.event.plan, u.duration.hi))
  }

  function JoinedAll(names: Names, us: seq<Usage>): seq<EventRow> {
    if us == [] then [] else Joined(names, us[0]) + JoinedAll(names, us[1..])
  }

  /** The usage with the names in force when it ended, read from the full tables. */
  function Named(names: Names, u: Usage): EventRow {
    var t := u.duration.hi;
    var plan := Data(Lookup(VersionsOf(names.plans, u.event.plan), t));
    Row(u, plan,
        if plan.None? then None else Data(Lookup(VersionsOf(names.services, plan.value.serviceGuid), t)),
        Data(Lookup(VersionsOf(names.orgs, u.event.org), t)),
        Data(Lookup(VersionsOf(names.spaces, u.event.space), t)))
  }

  lemma NameAtIsLookup(table: map<string, History<string>>, guid: string, t: int)
    requires forall g :: g in table ==> Sorted(table[g])
    ensures NameAt(table, guid, t) == [Data(Lookup(VersionsOf(table, guid), t))]
  {
    var h := VersionsOf(table, guid);
    NameColumnsExpose();
    CompactShape(h, NameColumns());
    MatchesIsLookup(Compact(h, NameColumns()), t);
    CompactPreservesLookup(h, NameColumns(), t);
  }

  lemma PlanAtIsLookup(table: map<string, History<PlanName>>, guid: string, t: int)
    requires forall g :: g in table ==> Sorted(table[g])
    ensures PlanAt(table, guid, t) == [Data(Lookup(VersionsOf(table, guid), t))]
  {
    var h := VersionsOf(table, guid);
    PlanColumnsExpose();
    CompactShape(h, PlanColumns());
    MatchesIsLookup(Compact(h, PlanColumns()), t);
    CompactPreservesLookup(h, PlanColumns(), t);
  }

  /** Compaction, validity ranges and the four left joins give each usage exactly one row: the one with
      the names that the full tables hold at the end of the usage. */
  lemma JoinIsLookup(names: Names, u: Usage)
    requires names.Valid()
    ensures Joined(names, u) == [Named(names, u)]
  {
    var t := u.duration.hi;
    PlanAtIsLookup(names.plans, u.event.plan, t);
    var plan := Data(Lookup(VersionsOf(names.plans, u.event.plan), t));
    if plan.Some? {
      NameAtIsLookup(names.services, plan.value.serviceGuid, t);
    }
    NameAtIsLookup(names.orgs, u.event.org, t);
    NameAtIsLookup(names.spaces, u.event.space, t);
    var service := if plan.None? then None else Data(Lookup(VersionsOf(names.services, plan.value.serviceGuid), t));
    var org := Data(Lookup(VersionsOf(names.orgs, u.event.org), t));
    var space := Data(Lookup(VersionsOf(names.spaces, u.event.space), t));
    assert JoinSpaces(u, plan, service, org, [space]) == [Row(u, plan, service, org, space)];
    assert JoinOrgs(names, u, plan, service, [org]) == [Row(u, plan, service, org, space)];
    assert JoinServices(names, u, plan, [service]) == [Row(u, plan, service, org, space)];
    assert JoinPlans(names, u, [plan]) == [Row(u, plan, service, org, space)];
  }

  lemma {:induction false} JoinedAllIsNamed(names: Names, us: seq<Usage>)
    requires names.Valid()
    ensures |JoinedAll(names, us)| == |us|
    ensures forall i :: 0 <= i < |us| ==> JoinedAll(names, us)[i] == Named(names, us[i])
  {
    if us != [] {
      JoinIsLookup(names, us[0]);
      JoinedAllIsNamed(names, us[1..]);
    }
  }

  /** The primary key of `events`. */
  predicate DistinctGuids(rows: seq<EventRow>) {
    forall i, j :: 0 <= i < j < |rows| ==> rows[i].subject.eventGuid != rows[j].subject.eventGuid
  }

  /** The transaction that runs `create_events.sql`: it fails on an undefined range, on a usage whose
      resource was never named (`resource_name` is NOT NULL) and on a repeated event guid. */
  function CreateEvents(log: Log, names: Names, now: int): Result<seq<EventRow>> {
    var usages := Usages(log, now);
    var rows := JoinedAll(names, usages);
    if !RangesDefined(log, now) then Err("range bounds")
    else if exists u :: u in usages && u.event.name.None? then Err("null value")
    else if !DistinctGuids(rows) then Err("duplicate key")
    else Ok(rows)
  }

  /** Every row of a rebuilt table is non-empty and has its own guid, and the table lists exactly the
      usages of the log, each with the names in force when it ended. */
  lemma CreateEventsMeaning(log: Log, names: Names, now: int)
    requires names.Valid() && CreateEvents(log, names, now).Ok?
    ensures var rows := CreateEvents(log, names, now).value;
            var usages := Usages(log, now);
            && |rows| == |usages|
            && (forall i :: 0 <= i < |rows| ==> rows[i] == Named(names, usages[i]) && !rows[i].duration.Empty())
            && DistinctGuids(rows)
  {
    hide JoinedAll, Usages;
    JoinedAllIsNamed(names, Usages(log, now));
    UsagesNonEmpty(log, now, 0);
  }

  /** Column by column, the row that a usage should have: its own entry's columns, except for what the tables of
      names know at its end. A plan guid is looked up for services only. */
  ghost predicate Columns(row: EventRow, u: Usage, names: Names) {
    var e, t := u.event, u.duration.hi;
    var plan := Lookup(VersionsOf(names.plans, e.plan), t);
    var org, space := Lookup(VersionsOf(names.orgs, e.org), t), Lookup(VersionsOf(names.spaces, e.space), t);
    && row.duration == u.duration
    && row.subject.eventGuid == e.guid && row.subject.resourceGuid == e.resource
    && Some(row.subject.resourceName) == e.name && row.subject.resourceType == e.resourceType
    && row.subject.orgGuid == e.org && row.subject.spaceGuid == e.space
    && row.subject.orgName == (if org.Some? then org.value.data else e.org)
    && row.subject.spaceName == (if space.Some? then space.value.data else e.space)
    && row.nodes == e.nodes && row.memory == e.memory && row.storage == e.storage
    && (e.resourceType != "service" ==> row.planGuid == e.plan)
    && (e.resourceType == "service" ==>
          match plan
          case None => row.planGuid == "d5091c33-2f9d-4b15-82dc-4ad69717fc03"
          case Some(p) =>
            match p.data.uniqueId
            case Uuid(guid) => row.planGuid == guid
            case OtherText(_) => row.planGuid == "d5091c33-2f9d-4b15-82dc-4ad69717fc03")
    && match plan
       case None => row.planName == e.planName && row.serviceGuid == e.service && row.serviceName == e.serviceName
       case Some(p) =>
         var service := Lookup(VersionsOf(names.services, p.data.serviceGuid), t);
         && row.planName == p.data.name
         && row.serviceGuid == (if service.Some? then p.data.serviceGuid else e.service)
         && row.serviceName == (if service.Some? then service.value.data else e.serviceName)
  }

  /** Every column of a rebuilt table. */
  lemma EventColumns(log: Log, names: Names, now: int)
    requires names.Valid() && CreateEvents(log, names, now).Ok?
    ensures var rows, usages := CreateEvents(log, names, now).value, Usages(log, now);
            |rows| == |usages| && forall i :: 0 <= i < |rows| ==> Columns(rows[i], usages[i], names)
  {
    hide JoinedAll, Usages, Columns, Named;
    CreateEventsMeaning(log, names, now);
    var rows, usages := CreateEvents(log, names, now).value, Usages(log, now);
    forall i | 0 <= i < |rows| ensures Columns(rows[i], usages[i], names) {
      assert usages[i] in usages;
      NamedColumns(names, usages[i]);
    }
  }

  lemma NamedColumns(names: Names, u: Usage)
    requires u.event.name.Some?
    ensures Columns(Named(names, u), u, names)
  {
    hide Lookup;
  }

  /** The rebuild fails exactly when some range is undefined, an entry that was in use had no name by then, or
      two of them have the same guid. */
  lemma CreateEventsSucceeds(log: Log, names: Names, now: int)
    requires names.Valid()
    ensures CreateEvents(log, names, now).Ok? <==>
            && RangesDefined(log, now)
            && (forall i :: 0 <= i < |log| && Counted(log, i, now) ==> NamedBy(log, i))
            && (forall i, j :: 0 <= i < j < |log| && Counted(log, i, now) && Counted(log, j, now) ==>
                  log[i].guid != log[j].guid)
  {
    hide JoinedAll, Usages, RangesDefined, Counted, NamedBy, Named;
    var usages := Usages(log, now);
    JoinedAllIsNamed(names, usages);
    UsageGuids(log, now, 0);
    UsageNames(log, now);
    forall i | 0 <= i < |usages| ensures JoinedAll(names, usages)[i].subject.eventGuid == usages[i].event.guid {
      NamedGuid(names, usages[i]);
    }
  }

  lemma NamedGuid(names: Names, u: Usage)
    ensures Named(names, u).subject.eventGuid == u.event.guid
  {
  }

  lemma {:induction false} UsagesNonEmpty(log: Log, now: int, i: nat)
    requires i <= |log|
    ensures forall u :: u in Usages(log, now, i) ==> !u.duration.Empty() && u.event.state == Some(Started)
    decreases |log| - i
  {
    if i < |log| {
      UsagesNonEmpty(log, now, i + 1);
    }
  }
}
