/** From the log of usage events to the charges of every instant: what the two rebuilds compute together. */
module Pipeline {
  import opened Base
  import opened Timeline
  import opened EventLog
  import opened Events
  import opened Formulas
  import opened Components
  import opened ComponentTable

  /** What a component row charges for, whatever part of the event it spans. */
  datatype Charge = Charge(
    subject: Subject, planGuid: string, planFrom: int, planName: string,
    nodes: int, memory: int, storage: int, component: string, formula: Formula,
    currencyCode: string, currencyRate: real, vatCode: string, vatRate: real)

  function ChargeOf(): ComponentRow -> Charge {
    (row: ComponentRow) =>
      Charge(row.subject, row.planGuid, row.planFrom, row.planName, row.nodes, row.memory, row.storage,
             row.component, row.formula, row.currencyCode, row.currencyRate, row.vatCode, row.vatRate)
  }

  /** The charge for `ev` of one plan component at one exchange and one VAT rate. */
  function Charged(ev: EventRow): Tag -> Charge {
    (tag: Tag) =>
      var inputs := InputsOf(ev, tag.plan.data);
      Charge(ev.subject, ev.planGuid, tag.plan.from, tag.plan.data.name, inputs.nodes, inputs.memory, inputs.storage,
             tag.component.name, tag.component.formula,
             tag.component.currency, tag.currency.data, tag.component.vat, tag.vat.data)
  }

  function Covering(guid: string, t: int): ComponentRow -> bool {
    (row: ComponentRow) => row.subject.eventGuid == guid && row.duration.Contains(t)
  }

  /** The charges that the table holds for event `guid` at instant `t`. */
  function ChargesFor(table: seq<ComponentRow>, guid: string, t: int): seq<Charge> {
    Map(ChargeOf(), Filter(Covering(guid, t), table))
  }

  lemma ChargesForConcat(a: seq<ComponentRow>, b: seq<ComponentRow>, guid: string, t: int)
    ensures ChargesFor(a + b, guid, t) == ChargesFor(a, guid, t) + ChargesFor(b, guid, t)
  {
    FilterConcat(Covering(guid, t), a, b);
  }

  lemma ChargesForNone(rows: seq<ComponentRow>, guid: string, t: int)
    requires forall i :: 0 <= i < |rows| ==> rows[i].subject.eventGuid != guid
    ensures ChargesFor(rows, guid, t) == []
  {
    FilterNone(Covering(guid, t), rows);
  }

  lemma {:induction false} PricedCharges(ev: EventRow, rows: Rows, t: int)
    requires Priced(ev, rows).Some?
    ensures ChargesFor(Priced(ev, rows).value, ev.subject.eventGuid, t) == Map(Charged(ev), TagsAt(rows, t))
    ensures forall i :: 0 <= i < |Priced(ev, rows).value| ==> Priced(ev, rows).value[i].subject == ev.subject
  {
    hide CostOf;
    if rows != [] {
      PricedCharges(ev, rows[1..], t);
      var s := rows[0].value;
      var row, rest := RowOf(ev, s, CostOf(ev, s).value), Priced(ev, rows[1..]).value;
      assert Priced(ev, rows).value == [row] + rest;
      FilterCons(Covering(ev.subject.eventGuid, t), row, rest);
      assert ChargeOf()(row) == Charged(ev)(s.tag);
    }
  }

  /** No row of the table is for an event that is not in the list. */
  lemma TableGuids(cat: Catalogue, events: seq<EventRow>, guid: string)
    requires AllPriced(cat, events).Some?
    requires forall e :: 0 <= e < |events| ==> events[e].subject.eventGuid != guid
    ensures forall i :: 0 <= i < |AllPriced(cat, events).value| ==>
            AllPriced(cat, events).value[i].subject.eventGuid != guid
  {
    hide AllPriced, EventRows, CostOf;
    forall i | 0 <= i < |AllPriced(cat, events).value|
      ensures AllPriced(cat, events).value[i].subject.eventGuid != guid
    {
      var e, s := TableOrigin(cat, events, i);
    }
  }

  lemma {:induction false} TableCharges(cat: Catalogue, events: seq<EventRow>, k: nat, t: int)
    requires DistinctGuids(events) && k < |events| && AllPriced(cat, events).Some?
    ensures ChargesFor(AllPriced(cat, events).value, events[k].subject.eventGuid, t)
         == Map(Charged(events[k]), TagsAt(EventRows(cat, events[k]), t))
  {
    hide EventRows, Priced, ChargesFor, TagsAt;
    var guid := events[k].subject.eventGuid;
    var rows := EventRows(cat, events[0]);
    var head, rest := Priced(events[0], rows).value, AllPriced(cat, events[1..]).value;
    PricedCharges(events[0], rows, t);
    ChargesForConcat(head, rest, guid, t);
    if k == 0 {
      TableGuids(cat, events[1..], guid);
      ChargesForNone(rest, guid, t);
    } else {
      TableCharges(cat, events[1..], k - 1, t);
      ChargesForNone(head, guid, t);
    }
  }

  lemma {:induction false} TagsOutside(rows: Rows, r: Range, t: int)
    requires forall i :: 0 <= i < |rows| && rows[i].Some? ==> rows[i].value.range.Inside(r)
    requires !r.Contains(t)
    ensures TagsAt(rows, t) == []
  {
    if rows != [] {
      assert !(rows[0].Some? && rows[0].value.range.Contains(t));
      TagsOutside(rows[1..], r, t);
    }
  }

  /** What an event should be charged for at `t`: every component of the version of its plan then in force,
      at the rates then in force, while the event lasts. */
  function Due(cat: Catalogue, ev: EventRow, t: int): seq<Charge> {
    if ev.duration.Contains(t) then Map(Charged(ev), ChargesAt(cat, ev.planGuid, t)) else []
  }

  /** Column by column, the charge for an event of one component at its rates. */
  ghost predicate IsCharge(c: Charge, ev: EventRow, tag: Tag) {
    var terms := tag.plan.data;
    && c.subject == ev.subject && c.planGuid == ev.planGuid
    && c.planFrom == tag.plan.from && c.planName == terms.name
    && c.memory == (match ev.memory case Some(m) => m case None => terms.memory)
    && c.storage == (match ev.storage case Some(m) => m case None => terms.storage)
    && c.nodes == (match ev.nodes case Some(n) => n case None => terms.nodes)
    && c.component == tag.component.name && c.formula == tag.component.formula
    && c.currencyCode == tag.component.currency && c.currencyRate == tag.currency.data
    && c.vatCode == tag.component.vat && c.vatRate == tag.vat.data
  }

  /** What is due at `t`: while the event lasts a charge for each component of the plan version in force and the
      rates in force, and no other. */
  lemma DueColumns(cat: Catalogue, ev: EventRow, t: int)
    ensures forall c :: c in Due(cat, ev, t) ==>
              ev.duration.Contains(t) && exists tag :: InForce(cat, ev.planGuid, tag, t) && IsCharge(c, ev, tag)
    ensures ev.duration.Contains(t) ==>
              forall tag :: InForce(cat, ev.planGuid, tag, t) ==>
                exists c :: c in Due(cat, ev, t) && IsCharge(c, ev, tag)
  {
    hide InForce, ChargesAt, IsCharge, Charged;
    var tags := ChargesAt(cat, ev.planGuid, t);
    forall c | c in Due(cat, ev, t)
      ensures ev.duration.Contains(t) && exists tag :: InForce(cat, ev.planGuid, tag, t) && IsCharge(c, ev, tag)
    {
      var i :| 0 <= i < |tags| && c == Charged(ev)(tags[i]);
      ChargesAtInForce(cat, ev.planGuid, t, tags[i]);
      ChargedColumns(ev, tags[i]);
    }
    if ev.duration.Contains(t) {
      forall tag | InForce(cat, ev.planGuid, tag, t) ensures exists c :: c in Due(cat, ev, t) && IsCharge(c, ev, tag) {
        ChargesAtInForce(cat, ev.planGuid, t, tag);
        ChargedColumns(ev, tag);
        var i :| 0 <= i < |tags| && tags[i] == tag;
        assert Due(cat, ev, t)[i] == Charged(ev)(tag);
      }
    }
  }

  lemma ChargedColumns(ev: EventRow, tag: Tag)
    ensures IsCharge(Charged(ev)(tag), ev, tag)
  {
  }

  /** The component table charges every event at every instant for exactly what is due. */
  lemma EventCharges(cat: Catalogue, events: seq<EventRow>, k: nat, t: int)
    requires cat.Valid() && DistinctGuids(events) && k < |events| && BuildComponents(cat, events).Ok?
    ensures ChargesFor(BuildComponents(cat, events).value, events[k].subject.eventGuid, t) == Due(cat, events[k], t)
  {
    hide EventRows, ChargesFor, AllPriced, ChargesAt, TagsAt;
    TableCharges(cat, events, k, t);
    var ev := events[k];
    if ev.duration.Contains(t) {
      RowsArePointwise(cat, ev, t);
    } else {
      var rows := EventRows(cat, ev);
      forall i | 0 <= i < |rows| && rows[i].Some? ensures rows[i].value.range.Inside(ev.duration) {
        assert rows[i] == Some(rows[i].value);
        RowOrigin(cat, ev, rows[i].value);
      }
      TagsOutside(rows, ev.duration, t);
    }
  }

  /** Some entry with this guid is what the replay finds running at `t`. */
  ghost predicate RunningGuid(log: Log, now: int, t: int, guid: string) {
    exists u :: u in Usages(log, now) && u.event.guid == guid && u in Running(log, now, KeyOf(u.event), t)
  }

  lemma UsageCharged(log: Log, names: Names, cat: Catalogue, now: int, t: int, u: Usage)
    requires Ordered(log) && names.Valid() && cat.Valid() && t < now
    requires CreateEvents(log, names, now).Ok?
    requires BuildComponents(cat, CreateEvents(log, names, now).value).Ok?
    requires u in Usages(log, now)
    ensures ChargesFor(BuildComponents(cat, CreateEvents(log, names, now).value).value, u.event.guid, t)
         == if u in Running(log, now, KeyOf(u.event), t) then Due(cat, Named(names, u), t) else []
  {
    hide CreateEvents, BuildComponents, ChargesFor, Usages, Running, Due, Named;
    var events, usages := CreateEvents(log, names, now).value, Usages(log, now);
    CreateEventsMeaning(log, names, now);
    UsageIsReplay(log, now, KeyOf(u.event), t);
    FilterMembers(InUse(KeyOf(u.event), t), usages);
    var i :| 0 <= i < |usages| && usages[i] == u;
    NamedKeeps(names, u);
    EventCharges(cat, events, i, t);
    NothingDue(cat, events[i], t);
  }

  lemma NamedKeeps(names: Names, u: Usage)
    ensures Named(names, u).subject.eventGuid == u.event.guid && Named(names, u).duration == u.duration
  {
  }

  lemma NothingDue(cat: Catalogue, ev: EventRow, t: int)
    ensures !ev.duration.Contains(t) ==> Due(cat, ev, t) == []
  {
  }

  lemma NotRunningNotCharged(log: Log, names: Names, cat: Catalogue, now: int, t: int, guid: string)
    requires Ordered(log) && names.Valid() && cat.Valid() && t < now
    requires CreateEvents(log, names, now).Ok?
    requires BuildComponents(cat, CreateEvents(log, names, now).value).Ok?
    requires !RunningGuid(log, now, t, guid)
    ensures ChargesFor(BuildComponents(cat, CreateEvents(log, names, now).value).value, guid, t) == []
  {
    hide CreateEvents, BuildComponents, ChargesFor, Usages, Running, Due, Named;
    if u :| u in Usages(log, now) && u.event.guid == guid {
      UsageCharged(log, names, cat, now, t, u);
    } else {
      NobodysGuid(log, names, now, guid);
      UnknownGuid(cat, CreateEvents(log, names, now).value, guid, t);
    }
  }

  lemma NobodysGuid(log: Log, names: Names, now: int, guid: string)
    requires names.Valid() && CreateEvents(log, names, now).Ok?
    requires forall u :: u in Usages(log, now) ==> u.event.guid != guid
    ensures var events := CreateEvents(log, names, now).value;
            forall e :: 0 <= e < |events| ==> events[e].subject.eventGuid != guid
  {
    hide CreateEvents, Usages;
    CreateEventsMeaning(log, names, now);
    var events, usages := CreateEvents(log, names, now).value, Usages(log, now);
    forall e | 0 <= e < |events| ensures events[e].subject.eventGuid != guid {
      assert usages[e] in usages && events[e] == Named(names, usages[e]);
    }
  }

  lemma UnknownGuid(cat: Catalogue, events: seq<EventRow>, guid: string, t: int)
    requires BuildComponents(cat, events).Ok?
    requires forall e :: 0 <= e < |events| ==> events[e].subject.eventGuid != guid
    ensures ChargesFor(BuildComponents(cat, events).value, guid, t) == []
  {
    TableGuids(cat, events, guid);
    ChargesForNone(BuildComponents(cat, events).value, guid, t);
  }

  /** From the log to the charges: at every past instant the entry of a resource and event type that the replay
      of the log finds running is charged for exactly what is due under the names, plans and rates of the
      tables; every other usage, and every guid that no running entry has, is charged nothing. */
  lemma LogToCharges(log: Log, names: Names, cat: Catalogue, now: int, k: Key, t: int)
    requires Ordered(log) && names.Valid() && cat.Valid() && t < now
    requires CreateEvents(log, names, now).Ok?
    requires BuildComponents(cat, CreateEvents(log, names, now).value).Ok?
    ensures forall u :: u in Running(log, now, k, t) ==> u in Usages(log, now)
    ensures forall u :: u in Usages(log, now) && KeyOf(u.event) == k ==>
              ChargesFor(BuildComponents(cat, CreateEvents(log, names, now).value).value, u.event.guid, t)
              == if u in Running(log, now, k, t) then Due(cat, Named(names, u), t) else []
    ensures forall guid :: !RunningGuid(log, now, t, guid) ==>
              ChargesFor(BuildComponents(cat, CreateEvents(log, names, now).value).value, guid, t) == []
  {
    hide CreateEvents, BuildComponents, ChargesFor, Usages, Running, Due, Named, RunningGuid;
    UsageIsReplay(log, now, k, t);
    FilterMembers(InUse(k, t), Usages(log, now));
    forall u | u in Usages(log, now) && KeyOf(u.event) == k
      ensures ChargesFor(BuildComponents(cat, CreateEvents(log, names, now).value).value, u.event.guid, t)
           == if u in Running(log, now, k, t) then Due(cat, Named(names, u), t) else []
    {
      UsageCharged(log, names, cat, now, t, u);
    }
    forall guid | !RunningGuid(log, now, t, guid)
      ensures ChargesFor(BuildComponents(cat, CreateEvents(log, names, now).value).value, guid, t) == []
    {
      NotRunningNotCharged(log, names, cat, now, t, guid);
    }
  }
}
