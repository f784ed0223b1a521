/** `WithBillableEvents`: the components of a query window, clipped to it, priced and grouped. */
module Bills {
  import opened Base
  import opened Calendar
  import opened EventFilters
  import opened Timeline
  import opened Events
  import opened Formulas
  import opened ComponentTable

  /** `'[start, stop)'::tstzrange`, after `filter.Validate()` */
  function Window(f: EventFilter): Result<Range> {
    if !f.Valid() then Err("invalid date")
    else if Before(f.stop.value, f.start.value) then Err("range bounds")
    else Ok(f.Instants())
  }

  /** `duration && filtered_range and org_guid = any (...)`; no organisations means no condition. */
  function Wanted(w: Range, orgs: seq<string>): ComponentRow -> bool {
    (r: ComponentRow) => r.duration.Overlaps(w) && (orgs == [] || r.subject.orgGuid in orgs)
  }

  /** A row of `components_with_price`; the row's duration is already clipped. */
  datatype PricedComponent = PricedComponent(row: ComponentRow, exVat: real) {
    function IncVat(): real {
      Product(exVat, 1.0 + row.vatRate)
    }
  }

  /** Whatever currency a component is priced in, the bill says pounds. */
  function Clipped(r: ComponentRow, w: Range): ComponentRow {
    r.(duration := r.duration.Meet(w), currencyCode := "GBP")
  }

  /** `eval_formula(..., b.duration * filtered_range, b.component_formula) * b.currency_rate` */
  function PriceIn(r: ComponentRow, w: Range): Option<PricedComponent> {
    match Eval(r.formula, Inputs(r.memory, r.storage, r.nodes), Seconds(r.duration.Meet(w)))
    case None => None
    case Some(price) => Some(PricedComponent(Clipped(r, w), Product(price, r.currencyRate)))
  }

  function PriceAll(rows: seq<ComponentRow>, w: Range): Option<seq<PricedComponent>> {
    if rows == [] then Some([])
    else
      match (PriceIn(rows[0], w), PriceAll(rows[1..], w))
      case (Some(p), Some(ps)) => Some([p] + ps)
      case _ => None
  }

  /** What `group by` lists (`quota_definition_guid` is always NULL). */
  datatype GroupKey = GroupKey(subject: Subject, planGuid: string, nodes: int, memory: int, storage: int)

  function KeyOf(p: PricedComponent): GroupKey {
    GroupKey(p.row.subject, p.row.planGuid, p.row.nodes, p.row.memory, p.row.storage)
  }

  function HasKey(k: GroupKey): PricedComponent -> bool {
    (p: PricedComponent) => KeyOf(p) == k
  }

  function LacksKey(k: GroupKey): PricedComponent -> bool {
    (p: PricedComponent) => KeyOf(p) != k
  }

  function ExVats(ps: seq<PricedComponent>): seq<real> {
    Map((p: PricedComponent) => p.exVat, ps)
  }

  function IncVats(ps: seq<PricedComponent>): seq<real> {
    Map((p: PricedComponent) => p.IncVat(), ps)
  }

  function MinLower(ps: seq<PricedComponent>): int
    requires ps != []
  {
    var lo := ps[0].row.duration.lo;
    if |ps| == 1 then lo else var m := MinLower(ps[1..]); if lo < m then lo else m
  }

  function MaxUpper(ps: seq<PricedComponent>): int
    requires ps != []
  {
    var hi := ps[0].row.duration.hi;
    if |ps| == 1 then hi else var m := MaxUpper(ps[1..]); if hi < m then m else hi
  }

  /** A row of `billable_events`; `details` lists what the group was aggregated from. */
  datatype BillRow = BillRow(key: GroupKey, start: int, stop: int, exVat: real, incVat: real,
      details: seq<PricedComponent>)

  function Aggregate(k: GroupKey, ps: seq<PricedComponent>): BillRow
    requires ps != []
  {
    BillRow(k, MinLower(ps), MaxUpper(ps), Sum(ExVats(ps)), Sum(IncVats(ps)), ps)
  }

  lemma HeadInGroup(ps: seq<PricedComponent>)
    requires ps != []
    ensures Filter(HasKey(KeyOf(ps[0])), ps) != [] && |Filter(LacksKey(KeyOf(ps[0])), ps)| < |ps|
  {
  }

  /** One row for each distinct key. */
  function GroupBy(ps: seq<PricedComponent>): seq<BillRow>
    decreases |ps|
  {
    if ps == [] then []
    else
      var k := KeyOf(ps[0]);
      HeadInGroup(ps);
      [Aggregate(k, Filter(HasKey(k), ps))] + GroupBy(Filter(LacksKey(k), ps))
  }

  /** `select * from billable_events` */
  function Bill(table: seq<ComponentRow>, f: EventFilter): (r: Result<seq<BillRow>>)
    ensures r.Ok? ==> Window(f).Ok?
  {
    match Window(f)
    case Err(e) => Err(e)
    case Ok(w) =>
      match PriceAll(Filter(Wanted(w, f.orgs), table), w)
      case None => Err("division by zero")
      case Some(ps) => Ok(GroupBy(ps))
  }

  // ----- Grouping keeps every priced component once -----

  /** The groups have distinct keys, and each holds exactly the components with its key, in order. */
  lemma {:induction false} GroupByMeaning(ps: seq<PricedComponent>)
    ensures forall i :: 0 <= i < |GroupBy(ps)| ==>
              && Filter(HasKey(GroupBy(ps)[i].key), ps) != []
              && GroupBy(ps)[i] == Aggregate(GroupBy(ps)[i].key, Filter(HasKey(GroupBy(ps)[i].key), ps))
    ensures forall i, j :: 0 <= i < j < |GroupBy(ps)| ==> GroupBy(ps)[i].key != GroupBy(ps)[j].key
    decreases |ps|
  {
    if ps != [] {
      var k := KeyOf(ps[0]);
      HeadInGroup(ps);
      var rest := Filter(LacksKey(k), ps);
      GroupByMeaning(rest);
      var tail := GroupBy(rest);
      FilterMembers(LacksKey(k), ps);
      forall i | 0 <= i < |tail|
        ensures tail[i].key != k && Filter(HasKey(tail[i].key), ps) == Filter(HasKey(tail[i].key), rest)
      {
        var group := Filter(HasKey(tail[i].key), rest);
        FilterMembers(HasKey(tail[i].key), rest);
        assert group[0] in group;
        FilterThrough(ps, tail[i].key, k);
      }
    }
  }

  lemma {:induction false} FilterThrough(ps: seq<PricedComponent>, k: GroupKey, other: GroupKey)
    requires k != other
    ensures Filter(HasKey(k), Filter(LacksKey(other), ps)) == Filter(HasKey(k), ps)
  {
    if ps != [] {
      FilterThrough(ps[1..], k, other);
    }
  }

  function RowExVats(rows: seq<BillRow>): seq<real> {
    Map((r: BillRow) => r.exVat, rows)
  }

  function RowIncVats(rows: seq<BillRow>): seq<real> {
    Map((r: BillRow) => r.incVat, rows)
  }

  lemma {:induction false} SumSplit(ps: seq<PricedComponent>, k: GroupKey)
    ensures Sum(ExVats(ps)) == Sum(ExVats(Filter(HasKey(k), ps))) + Sum(ExVats(Filter(LacksKey(k), ps)))
    ensures Sum(IncVats(ps)) == Sum(IncVats(Filter(HasKey(k), ps))) + Sum(IncVats(Filter(LacksKey(k), ps)))
  {
    if ps != [] {
      SumSplit(ps[1..], k);
      SumHead(ps);
      var group, rest := Filter(HasKey(k), ps), Filter(LacksKey(k), ps);
      SumHead(group);
      SumHead(rest);
      if KeyOf(ps[0]) == k {
        assert group[1..] == Filter(HasKey(k), ps[1..]) && rest == Filter(LacksKey(k), ps[1..]);
      } else {
        assert group == Filter(HasKey(k), ps[1..]) && rest[1..] == Filter(LacksKey(k), ps[1..]);
      }
    }
  }

  lemma SumHead(ps: seq<PricedComponent>)
    ensures ps != [] ==> Sum(ExVats(ps)) == ps[0].exVat + Sum(ExVats(ps[1..]))
    ensures ps != [] ==> Sum(IncVats(ps)) == ps[0].IncVat() + Sum(IncVats(ps[1..]))
  {
    if ps != [] {
      assert ExVats(ps)[1..] == ExVats(ps[1..]) && IncVats(ps)[1..] == IncVats(ps[1..]);
    }
  }

  lemma SumRows(row: BillRow, rows: seq<BillRow>)
    ensures Sum(RowExVats([row] + rows)) == row.exVat + Sum(RowExVats(rows))
    ensures Sum(RowIncVats([row] + rows)) == row.incVat + Sum(RowIncVats(rows))
  {
    assert RowExVats([row] + rows) == [row.exVat] + RowExVats(rows);
    assert RowIncVats([row] + rows) == [row.incVat] + RowIncVats(rows);
    SumConcat([row.exVat], RowExVats(rows));
    SumConcat([row.incVat], RowIncVats(rows));
  }

  /** The bill's rows add up to the prices of the components, before and after VAT. */
  lemma {:induction false} BillConserves(ps: seq<PricedComponent>)
    ensures Sum(RowExVats(GroupBy(ps))) == Sum(ExVats(ps))
    ensures Sum(RowIncVats(GroupBy(ps))) == Sum(IncVats(ps))
    decreases |ps|
  {
    if ps != [] {
      var k := KeyOf(ps[0]);
      HeadInGroup(ps);
      var rest := Filter(LacksKey(k), ps);
      BillConserves(rest);
      SumSplit(ps, k);
      SumRows(Aggregate(k, Filter(HasKey(k), ps)), GroupBy(rest));
    }
  }

  /** Which of its two amounts a price, a row or a total stands for. */
  datatype Basis = BeforeVat | AfterVat

  function Prices(ps: seq<PricedComponent>, basis: Basis): seq<real> {
    match basis case BeforeVat => ExVats(ps) case AfterVat => IncVats(ps)
  }

  function RowPrices(rows: seq<BillRow>, basis: Basis): seq<real> {
    match basis case BeforeVat => RowExVats(rows) case AfterVat => RowIncVats(rows)
  }

  // ----- Asking for some organisations selects those organisations' rows -----

  function ForOrgs(orgs: seq<string>): BillRow -> bool {
    (r: BillRow) => orgs == [] || r.key.subject.orgGuid in orgs
  }

  function PricedForOrgs(orgs: seq<string>): PricedComponent -> bool {
    (p: PricedComponent) => orgs == [] || p.row.subject.orgGuid in orgs
  }

  lemma {:induction false} PriceAllForOrgs(rows: seq<ComponentRow>, w: Range, orgs: seq<string>)
    requires PriceAll(Filter(Wanted(w, []), rows), w).Some?
    ensures PriceAll(Filter(Wanted(w, orgs), rows), w)
         == Some(Filter(PricedForOrgs(orgs), PriceAll(Filter(Wanted(w, []), rows), w).value))
  {
    if rows != [] {
      var r, all := rows[0], Filter(Wanted(w, []), rows[1..]);
      if r.duration.Overlaps(w) {
        assert Filter(Wanted(w, []), rows)[1..] == all;
        PriceAllForOrgs(rows[1..], w, orgs);
        FilterCons(PricedForOrgs(orgs), PriceIn(r, w).value, PriceAll(all, w).value);
        assert Wanted(w, orgs)(r) ==> Filter(Wanted(w, orgs), rows)[1..] == Filter(Wanted(w, orgs), rows[1..]);
      } else {
        PriceAllForOrgs(rows[1..], w, orgs);
      }
    }
  }

  lemma {:induction false} GroupByForOrgs(ps: seq<PricedComponent>, orgs: seq<string>)
    ensures GroupBy(Filter(PricedForOrgs(orgs), ps)) == Filter(ForOrgs(orgs), GroupBy(ps))
    decreases |ps|
  {
    var q := PricedForOrgs(orgs);
    if ps == [] {
      NothingGrouped(orgs);
    } else {
      var k := KeyOf(ps[0]);
      var group, rest := Filter(HasKey(k), ps), Filter(LacksKey(k), ps);
      HeadInGroup(ps);
      GroupByStep(ps);
      hide GroupBy, Aggregate;
      GroupByForOrgs(rest, orgs);
      WholeGroup(ps, k, orgs);
      FilterCons(ForOrgs(orgs), Aggregate(k, group), GroupBy(rest));
      assert Aggregate(k, group).key == k by { AggregateKey(k, group); }
      FilterCommutes(q, HasKey(k), ps);
      FilterCommutes(q, LacksKey(k), ps);
      if q(ps[0]) {
        assert Filter(q, ps)[0] == ps[0];
        GroupByStep(Filter(q, ps));
      } else {
        DropGroup(ps, k, orgs);
      }
    }
  }

  lemma NothingGrouped(orgs: seq<string>)
    ensures GroupBy(Filter(PricedForOrgs(orgs), [])) == Filter(ForOrgs(orgs), GroupBy([]))
  {
  }

  /** One unfolding of the grouping. */
  lemma GroupByStep(ps: seq<PricedComponent>)
    requires ps != []
    ensures Filter(HasKey(KeyOf(ps[0])), ps) != []
    ensures GroupBy(ps)
         == [Aggregate(KeyOf(ps[0]), Filter(HasKey(KeyOf(ps[0])), ps))] + GroupBy(Filter(LacksKey(KeyOf(ps[0])), ps))
  {
    HeadInGroup(ps);
  }

  lemma AggregateKey(k: GroupKey, ps: seq<PricedComponent>)
    requires ps != []
    ensures Aggregate(k, ps).key == k
  {
  }

  /** A group is of the organisations asked for as a whole or not at all. */
  lemma WholeGroup(ps: seq<PricedComponent>, k: GroupKey, orgs: seq<string>)
    ensures Filter(PricedForOrgs(orgs), Filter(HasKey(k), ps))
         == if orgs == [] || k.subject.orgGuid in orgs then Filter(HasKey(k), ps) else []
  {
    var q, group := PricedForOrgs(orgs), Filter(HasKey(k), ps);
    FilterMembers(HasKey(k), ps);
    forall i | 0 <= i < |group| ensures q(group[i]) <==> orgs == [] || k.subject.orgGuid in orgs {
      assert group[i] in group;
    }
    if orgs == [] || k.subject.orgGuid in orgs {
      FilterAll(q, group);
    } else {
      FilterNone(q, group);
    }
  }

  lemma {:induction false} DropGroup(ps: seq<PricedComponent>, k: GroupKey, orgs: seq<string>)
    requires Filter(PricedForOrgs(orgs), Filter(HasKey(k), ps)) == []
    ensures Filter(PricedForOrgs(orgs), ps) == Filter(PricedForOrgs(orgs), Filter(LacksKey(k), ps))
  {
    if ps != [] {
      var q := PricedForOrgs(orgs);
      if KeyOf(ps[0]) == k {
        FilterCons(q, ps[0], Filter(HasKey(k), ps[1..]));
      } else {
        FilterCons(q, ps[0], Filter(LacksKey(k), ps[1..]));
      }
      DropGroup(ps[1..], k, orgs);
    }
  }

  /** The bill for some organisations is the part of the full bill that concerns them. */
  lemma BillForOrgs(table: seq<ComponentRow>, f: EventFilter, orgs: seq<string>)
    requires Bill(table, f.(orgs := [])).Ok?
    ensures Bill(table, f.(orgs := orgs)) == Ok(Filter(ForOrgs(orgs), Bill(table, f.(orgs := [])).value))
  {
    var w := Window(f).value;
    PriceAllForOrgs(table, w, orgs);
    GroupByForOrgs(PriceAll(Filter(Wanted(w, []), table), w).value, orgs);
  }
}
