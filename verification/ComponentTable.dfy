/** The table `billable_event_components` that the joins fill. */
module ComponentTable {
  import opened Base
  import opened Timeline
  import opened Events
  import opened Formulas
  import opened Components

  datatype ComponentRow = ComponentRow(
    subject: Subject, duration: Range,
    planGuid: string, planFrom: int, planName: string,
    nodes: int, memory: int, storage: int,
    component: string, formula: Formula,
    currencyCode: string, currencyRate: real, vatCode: string, vatRate: real,
    cost: real)

  /** The variables a formula sees: the event's own sizes, or else the plan's. */
  function InputsOf(ev: EventRow, terms: PlanTerms): Inputs {
    Inputs(ev.memory.GetOr(terms.memory), ev.storage.GetOr(terms.storage), ev.nodes.GetOr(terms.nodes))
  }

  /** `eval_formula(...) * vcr.rate` */
  function CostOf(ev: EventRow, s: Slice): Option<real> {
    match Eval(s.tag.component.formula, InputsOf(ev, s.tag.plan.data), Seconds(s.range))
    case None => None
    case Some(price) => Some(Product(price, s.tag.currency.data))
  }

  /** The select list. */
  function RowOf(ev: EventRow, s: Slice, cost: real): ComponentRow {
    var tag := s.tag;
    var inputs := InputsOf(ev, tag.plan.data);
    ComponentRow(ev.subject, s.range, ev.planGuid, tag.plan.from, tag.plan.data.name,
                 inputs.nodes, inputs.memory, inputs.storage,
                 tag.component.name, tag.component.formula,
                 tag.component.currency, tag.currency.data, tag.component.vat, tag.vat.data, cost)
  }

  /** The rows of one event; `None` if a column is NULL or a formula divides by zero. */
  function Priced(ev: EventRow, rows: Rows): Option<seq<ComponentRow>> {
    if rows == [] then Some([])
    else if rows[0].None? then None
    else
      match (CostOf(ev, rows[0].value), Priced(ev, rows[1..]))
      case (Some(cost), Some(rest)) => Some([RowOf(ev, rows[0].value, cost)] + rest)
      case _ => None
  }

  function AllPriced(cat: Catalogue, events: seq<EventRow>): Option<seq<ComponentRow>> {
    if events == [] then Some([])
    else
      match (Priced(events[0], EventRows(cat, events[0])), AllPriced(cat, events[1..]))
      case (Some(head), Some(rest)) => Some(head + rest)
      case _ => None
  }

  /** `PRIMARY KEY (event_guid, plan_guid, duration, component_name)` */
  predicate SameKey(a: ComponentRow, b: ComponentRow) {
    a.subject.eventGuid == b.subject.eventGuid && a.planGuid == b.planGuid && a.duration == b.duration
    && a.component == b.component
  }

  predicate KeysDistinct(rows: seq<ComponentRow>) {
    forall i, j :: 0 <= i < j < |rows| ==> !SameKey(rows[i], rows[j])
  }

  /** `insert into billable_event_components_temp (select * from generate_billable_event_components())` */
  function BuildComponents(cat: Catalogue, events: seq<EventRow>): (r: Result<seq<ComponentRow>>)
    ensures r.Ok? ==> AllPriced(cat, events) == Some(r.value)
  {
    match AllPriced(cat, events)
    case None => Err("null value")
    case Some(rows) =>
      if exists i :: 0 <= i < |rows| && rows[i].duration.Empty() then Err("check constraint")
      else if !KeysDistinct(rows) then Err("duplicate key")
      else Ok(rows)
  }

  // ----- The insert never breaks a key or the non-empty check -----

  lemma {:induction false} PricedRows(ev: EventRow, rows: Rows)
    ensures Priced(ev, rows).Some? <==>
            forall i :: 0 <= i < |rows| ==> rows[i].Some? && CostOf(ev, rows[i].value).Some?
    ensures Priced(ev, rows).Some? ==>
              var out := Priced(ev, rows).value;
              && |out| == |rows|
              && forall i :: 0 <= i < |rows| ==>
                   out[i] == RowOf(ev, rows[i].value, CostOf(ev, rows[i].value).value)
  {
    if rows != [] {
      PricedRows(ev, rows[1..]);
      if forall i :: 0 <= i < |rows[1..]| ==> rows[1..][i].Some? && CostOf(ev, rows[1..][i].value).Some? {
        assert forall i :: 0 < i < |rows| ==> rows[i] == rows[1..][i - 1];
      } else {
        var i :| 0 <= i < |rows[1..]| && !(rows[1..][i].Some? && CostOf(ev, rows[1..][i].value).Some?);
        assert rows[i + 1] == rows[1..][i];
      }
    }
  }

  lemma {:induction false} TwoTagsAt(rows: Rows, t: int, i: nat, j: nat) returns (a: nat, b: nat)
    requires i < j < |rows| && rows[i].Some? && rows[j].Some?
    requires rows[i].value.range.Contains(t) && rows[j].value.range.Contains(t)
    ensures a < b < |TagsAt(rows, t)|
    ensures TagsAt(rows, t)[a] == rows[i].value.tag && TagsAt(rows, t)[b] == rows[j].value.tag
  {
    if i > 0 {
      a, b := TwoTagsAt(rows[1..], t, i - 1, j - 1);
      if rows[0].Some? && rows[0].value.range.Contains(t) {
        a, b := a + 1, b + 1;
      }
    } else {
      var c := OneTagAt(rows[1..], t, j - 1);
      a, b := 0, c + 1;
    }
  }

  lemma {:induction false} OneTagAt(rows: Rows, t: int, j: nat) returns (b: nat)
    requires j < |rows| && rows[j].Some? && rows[j].value.range.Contains(t)
    ensures b < |TagsAt(rows, t)| && TagsAt(rows, t)[b] == rows[j].value.tag
  {
    if j == 0 {
      b := 0;
    } else {
      b := OneTagAt(rows[1..], t, j - 1);
      if rows[0].Some? && rows[0].value.range.Contains(t) {
        b := b + 1;
      }
    }
  }

  lemma {:induction false} ChargedComponent(cat: Catalogue, p: Version<PlanTerms>, cs: seq<PlanComponent>, t: int,
      a: nat)
    requires a < |ComponentChargesAt(cat, p, cs, t)|
    ensures ComponentChargesAt(cat, p, cs, t)[a].component in cs
  {
    var head := |ChargeAt(cat, p, cs[0], t)|;
    if a >= head {
      ChargedComponent(cat, p, cs[1..], t, a - head);
    }
  }

  lemma {:induction false} ChargesDistinct(cat: Catalogue, p: Version<PlanTerms>, cs: seq<PlanComponent>, t: int,
      a: nat, b: nat)
    requires DistinctNames(cs) && a < b < |ComponentChargesAt(cat, p, cs, t)|
    ensures ComponentChargesAt(cat, p, cs, t)[a].component.name != ComponentChargesAt(cat, p, cs, t)[b].component.name
  {
    var head := |ChargeAt(cat, p, cs[0], t)|;
    if a >= head {
      ChargesDistinct(cat, p, cs[1..], t, a - head, b - head);
    } else {
      ChargedComponent(cat, p, cs[1..], t, b - head);
      var c := ComponentChargesAt(cat, p, cs, t)[b].component;
      var i :| 0 <= i < |cs[1..]| && cs[1..][i] == c;
      assert cs[i + 1] == c;
    }
  }

  /** No component is charged twice at one instant. */
  lemma ChargesAtDistinct(cat: Catalogue, guid: string, t: int)
    requires cat.Valid()
    ensures forall a, b :: 0 <= a < b < |ChargesAt(cat, guid, t)| ==>
              ChargesAt(cat, guid, t)[a].component.name != ChargesAt(cat, guid, t)[b].component.name
  {
    var h := VersionsOf(cat.plans, guid);
    LookupMember(h, t);
    if Lookup(h, t).Some? {
      var p := Lookup(h, t).value;
      var i :| 0 <= i < |h| && h[i] == p;
      var tags := ChargesAt(cat, guid, t);
      forall a, b | 0 <= a < b < |tags| ensures tags[a].component.name != tags[b].component.name {
        ChargesDistinct(cat, p, p.data.components, t, a, b);
      }
    }
  }

  /** Two rows of one event never have the same duration and component. */
  lemma EventKeysDistinct(cat: Catalogue, ev: EventRow, i: nat, j: nat)
    requires cat.Valid() && i < j < |EventRows(cat, ev)|
    requires EventRows(cat, ev)[i].Some? && EventRows(cat, ev)[j].Some?
    ensures var a, b := EventRows(cat, ev)[i].value, EventRows(cat, ev)[j].value;
            !(a.range == b.range && a.tag.component.name == b.tag.component.name)
  {
    var rows := EventRows(cat, ev);
    var a, b := rows[i].value, rows[j].value;
    if a.range == b.range && a.tag.component.name == b.tag.component.name {
      assert Some(a) in rows;
      RowOrigin(cat, ev, a);
      RowsArePointwise(cat, ev, a.range.lo);
      ChargesAtDistinct(cat, ev.planGuid, a.range.lo);
      var x, y := TwoTagsAt(rows, a.range.lo, i, j);
    }
  }

  /** What is known of a table row without looking at the joins again. */
  ghost predicate From(cat: Catalogue, ev: EventRow, s: Slice, row: ComponentRow) {
    && Some(s) in EventRows(cat, ev)
    && CostOf(ev, s).Some?
    && row == RowOf(ev, s, CostOf(ev, s).value)
  }

  lemma PricedOrigin(cat: Catalogue, ev: EventRow, i: nat) returns (s: Slice)
    requires Priced(ev, EventRows(cat, ev)).Some? && i < |Priced(ev, EventRows(cat, ev)).value|
    ensures From(cat, ev, s, Priced(ev, EventRows(cat, ev)).value[i])
  {
    PricedRows(ev, EventRows(cat, ev));
    s := EventRows(cat, ev)[i].value;
    assert EventRows(cat, ev)[i] == Some(s);
  }

  /** Every row of the table comes from one of the events. */
  lemma {:induction false} TableOrigin(cat: Catalogue, events: seq<EventRow>, i: nat) returns (e: nat, s: Slice)
    requires AllPriced(cat, events).Some? && i < |AllPriced(cat, events).value|
    ensures e < |events| && From(cat, events[e], s, AllPriced(cat, events).value[i])
  {
    hide EventRows, CostOf, RowOf;
    var head := Priced(events[0], EventRows(cat, events[0])).value;
    if i < |head| {
      s := PricedOrigin(cat, events[0], i);
      e := 0;
    } else {
      e, s := TableOrigin(cat, events[1..], i - |head|);
      e := e + 1;
    }
  }

  // ----- Every column -----

  /** The plan version, the exchange rate and the VAT rate that a charge names are those in force at `t`. */
  ghost predicate InForce(cat: Catalogue, guid: string, tag: Tag, t: int) {
    && Lookup(VersionsOf(cat.plans, guid), t) == Some(tag.plan)
    && tag.component in tag.plan.data.components
    && Lookup(VersionsOf(cat.currencies, tag.component.currency), t) == Some(tag.currency)
    && Lookup(VersionsOf(cat.vats, tag.component.vat), t) == Some(tag.vat)
  }

  lemma {:induction false} ComponentChargesInForce(cat: Catalogue, p: Version<PlanTerms>, cs: seq<PlanComponent>,
      t: int, tag: Tag)
    ensures tag in ComponentChargesAt(cat, p, cs, t) <==>
            && tag.plan == p && tag.component in cs
            && Lookup(VersionsOf(cat.currencies, tag.component.currency), t) == Some(tag.currency)
            && Lookup(VersionsOf(cat.vats, tag.component.vat), t) == Some(tag.vat)
  {
    hide Lookup;
    if cs != [] {
      ComponentChargesInForce(cat, p, cs[1..], t, tag);
    }
  }

  lemma ChargesAtInForce(cat: Catalogue, guid: string, t: int, tag: Tag)
    ensures tag in ChargesAt(cat, guid, t) <==> InForce(cat, guid, tag, t)
  {
    hide Lookup, ComponentChargesAt;
    match Lookup(VersionsOf(cat.plans, guid), t)
    case None =>
    case Some(p) => ComponentChargesInForce(cat, p, p.data.components, t, tag);
  }

  lemma SliceInForce(cat: Catalogue, ev: EventRow, s: Slice, t: int)
    requires cat.Valid() && Some(s) in EventRows(cat, ev) && s.range.Contains(t)
    ensures InForce(cat, ev.planGuid, s.tag, t)
  {
    hide Lookup, EventRows;
    RowOrigin(cat, ev, s);
    RowsArePointwise(cat, ev, t);
    var rows := EventRows(cat, ev);
    var j :| 0 <= j < |rows| && rows[j] == Some(s);
    var b := OneTagAt(rows, t, j);
    ChargesAtInForce(cat, ev.planGuid, t, s.tag);
  }

  /** Column by column, the row that an event should have for one charge: the event's own sizes where it has
      them and the plan version's where it has none, and the formula's value over the row's seconds at those
      sizes, times the exchange rate. */
  ghost predicate Columns(row: ComponentRow, ev: EventRow, tag: Tag) {
    var terms, c := tag.plan.data, tag.component;
    && row.subject == ev.subject && row.planGuid == ev.planGuid
    && row.planFrom == tag.plan.from && row.planName == terms.name
    && row.memory == (match ev.memory case Some(m) => m case None => terms.memory)
    && row.storage == (match ev.storage case Some(m) => m case None => terms.storage)
    && row.nodes == (match ev.nodes case Some(n) => n case None => terms.nodes)
    && row.component == c.name && row.formula == c.formula
    && row.currencyCode == c.currency && row.currencyRate == tag.currency.data
    && row.vatCode == c.vat && row.vatRate == tag.vat.data
    && var seconds := (row.duration.hi - row.duration.lo) as real / 1000000.0;
       match Eval(c.formula, Inputs(row.memory, row.storage, row.nodes), seconds)
       case Some(price) => row.cost == price * tag.currency.data
       case None => false
  }

  /** Every column of a rebuilt table: a row is for one of the events and one charge, lies within the event, and
      what it names is in force all the time. */
  lemma TableColumns(cat: Catalogue, events: seq<EventRow>, i: nat) returns (e: nat, tag: Tag)
    requires cat.Valid() && BuildComponents(cat, events).Ok? && i < |BuildComponents(cat, events).value|
    ensures e < |events|
    ensures var row := BuildComponents(cat, events).value[i];
            && Columns(row, events[e], tag)
            && !row.duration.Empty() && row.duration.Inside(events[e].duration)
            && forall t :: row.duration.Contains(t) ==> InForce(cat, events[e].planGuid, tag, t)
  {
    hide EventRows, Lookup, InForce;
    var s: Slice;
    e, s := TableOrigin(cat, events, i);
    tag := s.tag;
    RowOrigin(cat, events[e], s);
    forall t | s.range.Contains(t) ensures InForce(cat, events[e].planGuid, tag, t) {
      SliceInForce(cat, events[e], s, t);
    }
  }

  lemma {:induction false} TableKeys(cat: Catalogue, events: seq<EventRow>)
    requires cat.Valid() && DistinctGuids(events) && AllPriced(cat, events).Some?
    ensures KeysDistinct(AllPriced(cat, events).value)
  {
    hide EventRows, CostOf;
    if events != [] {
      var ev := events[0];
      TableKeys(cat, events[1..]);
      var head, rest := Priced(ev, EventRows(cat, ev)).value, AllPriced(cat, events[1..]).value;
      var rows := head + rest;
      PricedRows(ev, EventRows(cat, ev));
      forall i, j | 0 <= i < j < |rows| ensures !SameKey(rows[i], rows[j]) {
        if j < |head| {
          EventKeysDistinct(cat, ev, i, j);
        } else if i < |head| {
          var e, s := TableOrigin(cat, events[1..], j - |head|);
          assert events[1..][e] == events[e + 1];
        } else {
          assert !SameKey(rest[i - |head|], rest[j - |head|]);
        }
      }
    }
  }

  lemma {:induction false} AllPricedIff(cat: Catalogue, events: seq<EventRow>)
    ensures AllPriced(cat, events).Some? <==>
            forall e :: 0 <= e < |events| ==> Priced(events[e], EventRows(cat, events[e])).Some?
  {
    if events != [] {
      AllPricedIff(cat, events[1..]);
      if AllPriced(cat, events[1..]).Some? {
        assert forall e :: 0 < e < |events| ==> events[e] == events[1..][e - 1];
      } else {
        var e :| 0 <= e < |events[1..]| && Priced(events[1..][e], EventRows(cat, events[1..][e])).None?;
        assert events[e + 1] == events[1..][e];
      }
    }
  }

  /** Every formula the event meets can be evaluated. */
  ghost predicate Evaluates(cat: Catalogue, ev: EventRow) {
    forall s :: Some(s) in EventRows(cat, ev) ==> CostOf(ev, s).Some?
  }

  /** The rebuild fails exactly when some event is not billable, meets a component whose rates are not found,
      or meets a formula that divides by zero: it never breaks the primary key or `no_empty_duration`. */
  lemma BuildSucceeds(cat: Catalogue, events: seq<EventRow>)
    requires cat.Valid() && DistinctGuids(events)
    ensures BuildComponents(cat, events).Ok? <==>
            forall e :: 0 <= e < |events| ==>
                Billable(cat, events[e]) && Rated(cat, events[e]) && Evaluates(cat, events[e])
  {
    hide Billable, Rated;
    AllPricedIff(cat, events);
    forall e | 0 <= e < |events|
      ensures Priced(events[e], EventRows(cat, events[e])).Some? <==>
              Billable(cat, events[e]) && Rated(cat, events[e]) && Evaluates(cat, events[e])
    {
      var rows := EventRows(cat, events[e]);
      PricedRows(events[e], rows);
      RowsComplete(cat, events[e]);
      if forall i :: 0 <= i < |rows| ==> rows[i].Some? && CostOf(events[e], rows[i].value).Some? {
      } else {
        var i :| 0 <= i < |rows| && !(rows[i].Some? && CostOf(events[e], rows[i].value).Some?);
        if rows[i].Some? {
          assert rows[i] == Some(rows[i].value);
          assert Some(rows[i].value) in rows;
        }
      }
    }
    if AllPriced(cat, events).Some? {
      TableKeys(cat, events);
      var rows := AllPriced(cat, events).value;
      forall i | 0 <= i < |rows| ensures !rows[i].duration.Empty() {
        var e, s := TableOrigin(cat, events, i);
        RowOrigin(cat, events[e], s);
      }
    }
  }
}
