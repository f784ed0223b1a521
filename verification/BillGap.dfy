/** A bill row whose reported range has a gap: three versions of a plan, the outer two alike. */
module BillGap {
  import opened Base
  import opened Calendar
  import opened EventFilters
  import opened Timeline
  import opened Events
  import opened Formulas
  import opened Components
  import opened ComponentTable
  import opened BillCoverage
  import Bills

  const FREE := PlanComponent("free", Const(0.0), "GBP", "Standard")

  function Nodes(nodes: int): PlanTerms {
    PlanTerms("plan", nodes, 0, 0, [FREE])
  }

  /** One node from `a`, two from `b` and one again from `c`. */
  function ThreeVersions(a: int, b: int, c: int): Catalogue {
    Catalogue(map["p" := [Version(a, Nodes(1)), Version(b, Nodes(2)), Version(c, Nodes(1))]],
              map["GBP" := [Version(a, 1.0)]], map["Standard" := [Version(a, 0.2)]])
  }

  const SUBJECT := Subject("event", "resource", "name", "service", "org", "org", "space", "space")

  function LongEvent(a: int, d: int): EventRow {
    EventRow(SUBJECT, Range(a, d), "p", "plan", "service", "service", None, None, None)
  }

  function SliceOf(a: int, from: int, nodes: int, to: int): Slice {
    Slice(Tag(Version(from, Nodes(nodes)), FREE, Version(a, 1.0), Version(a, 0.2)), Range(from, to))
  }

  lemma RateIs(h: History<real>, v: Version<real>, r: Range)
    requires h == [v] && v.from <= r.lo && !r.Empty()
    ensures Cut(h, r) == [Piece(r, v)]
  {
    assert Cut(h, r, 1) == [];
  }

  /** One version's part of the event yields one row. */
  lemma PieceRows(a: int, b: int, c: int, from: int, nodes: int, to: int)
    requires a <= from < to
    ensures PlanRows(ThreeVersions(a, b, c), Piece(Range(from, to), Version(from, Nodes(nodes))))
         == [Some(SliceOf(a, from, nodes, to))]
  {
    hide Cut;
    var cat, p := ThreeVersions(a, b, c), Piece(Range(from, to), Version(from, Nodes(nodes)));
    var gbp, vat := Version(a, 1.0), Version(a, 0.2);
    RateIs([gbp], gbp, p.range);
    RateIs([vat], vat, p.range);
    assert VersionsOf(cat.currencies, FREE.currency) == [gbp] && VersionsOf(cat.vats, FREE.vat) == [vat];
    assert [Piece(p.range, vat)][1..] == [] && [Piece(p.range, gbp)][1..] == [] && [FREE][1..] == [];
    assert VatSlices(p.version, FREE, gbp, []) == [];
    assert VatRows(cat, p.version, FREE, Piece(p.range, gbp)) == [Some(SliceOf(a, from, nodes, to))];
    assert CurrencyRows(cat, p.version, FREE, []) == [];
    assert RateRows(cat, p, FREE) == [Some(SliceOf(a, from, nodes, to))];
    assert ComponentRows(cat, p, []) == [];
  }

  lemma LongEventPieces(a: int, b: int, c: int, d: int)
    requires a < b < c < d
    ensures PlanPieces(ThreeVersions(a, b, c), LongEvent(a, d))
         == [Piece(Range(a, b), Version(a, Nodes(1))), Piece(Range(b, c), Version(b, Nodes(2))),
             Piece(Range(c, d), Version(c, Nodes(1)))]
  {
    var h, r := VersionsOf(ThreeVersions(a, b, c).plans, "p"), Range(a, d);
    assert Cut(h, r, 3) == [];
    assert Cut(h, r, 2) == [Piece(Range(c, d), h[2])];
    assert Cut(h, r, 1) == [Piece(Range(b, c), h[1]), Piece(Range(c, d), h[2])];
  }

  lemma LongEventRows(a: int, b: int, c: int, d: int)
    requires a < b < c < d
    ensures EventRows(ThreeVersions(a, b, c), LongEvent(a, d))
         == [Some(SliceOf(a, a, 1, b)), Some(SliceOf(a, b, 2, c)), Some(SliceOf(a, c, 1, d))]
  {
    hide PlanRows, Cut;
    LongEventPieces(a, b, c, d);
    PieceRows(a, b, c, a, 1, b);
    PieceRows(a, b, c, b, 2, c);
    PieceRows(a, b, c, c, 1, d);
    var cat, pieces := ThreeVersions(a, b, c), PlanPieces(ThreeVersions(a, b, c), LongEvent(a, d));
    assert PlansRows(cat, pieces[3..]) == [];
    assert PlansRows(cat, pieces[2..]) == [Some(SliceOf(a, c, 1, d))] by {
      assert pieces[2..][1..] == pieces[3..];
    }
    assert PlansRows(cat, pieces[1..]) == [Some(SliceOf(a, b, 2, c)), Some(SliceOf(a, c, 1, d))] by {
      assert pieces[1..][1..] == pieces[2..];
    }
  }

  /** The component row of one slice. */
  function RowFor(a: int, from: int, nodes: int, to: int): ComponentRow {
    ComponentRow(SUBJECT, Range(from, to), "p", from, "plan", nodes, 0, 0,
                 "free", Const(0.0), "GBP", 1.0, "Standard", 0.2, 0.0)
  }

  lemma SlicePriced(a: int, d: int, from: int, nodes: int, to: int, rest: Rows)
    requires Priced(LongEvent(a, d), rest).Some?
    ensures Priced(LongEvent(a, d), [Some(SliceOf(a, from, nodes, to))] + rest)
         == Some([RowFor(a, from, nodes, to)] + Priced(LongEvent(a, d), rest).value)
  {
    var rows := [Some(SliceOf(a, from, nodes, to))] + rest;
    assert rows[1..] == rest;
    assert CostOf(LongEvent(a, d), SliceOf(a, from, nodes, to)) == Some(0.0);
  }

  function Table(a: int, b: int, c: int, d: int): seq<ComponentRow> {
    [RowFor(a, a, 1, b), RowFor(a, b, 2, c), RowFor(a, c, 1, d)]
  }

  lemma LongEventTable(a: int, b: int, c: int, d: int)
    requires a < b < c < d
    ensures BuildComponents(ThreeVersions(a, b, c), [LongEvent(a, d)]) == Ok(Table(a, b, c, d))
  {
    hide EventRows, Priced;
    var cat, ev := ThreeVersions(a, b, c), LongEvent(a, d);
    LongEventRows(a, b, c, d);
    NothingPriced(ev);
    var none: Rows := [];
    var last := [Some(SliceOf(a, c, 1, d))] + none;
    var rest := [Some(SliceOf(a, b, 2, c))] + last;
    SlicePriced(a, d, c, 1, d, none);
    SlicePriced(a, d, b, 2, c, last);
    SlicePriced(a, d, a, 1, b, rest);
    assert EventRows(cat, ev) == [Some(SliceOf(a, a, 1, b))] + rest;
    assert Priced(ev, EventRows(cat, ev)).value == Table(a, b, c, d);
    assert [ev][1..] == [] && AllPriced(cat, []) == Some([]);
    assert Table(a, b, c, d) + [] == Table(a, b, c, d);
    assert AllPriced(cat, [ev]) == Some(Table(a, b, c, d));
    assert forall i :: 0 <= i < 3 ==> !Table(a, b, c, d)[i].duration.Empty();
  }

  lemma NothingPriced(ev: EventRow)
    ensures Priced(ev, []) == Some([])
  {
  }

  function PricedFor(a: int, from: int, nodes: int, to: int): Bills.PricedComponent {
    Bills.PricedComponent(RowFor(a, from, nodes, to), 0.0)
  }

  lemma RowPriced(a: int, from: int, nodes: int, to: int, w: Range)
    requires w.lo <= from < to <= w.hi
    ensures Bills.PriceIn(RowFor(a, from, nodes, to), w) == Some(PricedFor(a, from, nodes, to))
    ensures Bills.Wanted(w, [])(RowFor(a, from, nodes, to))
  {
    assert Range(from, to).Meet(w) == Range(from, to);
    assert Eval(Const(0.0), Inputs(0, 0, nodes), Seconds(Range(from, to))) == Some(0.0);
  }

  lemma TablePriced(a: int, b: int, c: int, d: int)
    requires a < b < c < d
    ensures Bills.PriceAll(Filter(Bills.Wanted(Range(a, d), []), Table(a, b, c, d)), Range(a, d))
         == Some([PricedFor(a, a, 1, b), PricedFor(a, b, 2, c), PricedFor(a, c, 1, d)])
  {
    hide Bills.PriceIn, RowFor, PricedFor;
    var w, rows := Range(a, d), Table(a, b, c, d);
    RowPriced(a, a, 1, b, w);
    RowPriced(a, b, 2, c, w);
    RowPriced(a, c, 1, d, w);
    FilterAll(Bills.Wanted(w, []), rows);
    var none: seq<ComponentRow> := [];
    var last := [RowFor(a, c, 1, d)] + none;
    var rest := [RowFor(a, b, 2, c)] + last;
    PriceAllCons(RowFor(a, c, 1, d), none, w);
    PriceAllCons(RowFor(a, b, 2, c), last, w);
    PriceAllCons(RowFor(a, a, 1, b), rest, w);
    assert rows == [RowFor(a, a, 1, b)] + rest;
    assert Bills.PriceAll(rows, w).value == [PricedFor(a, a, 1, b), PricedFor(a, b, 2, c), PricedFor(a, c, 1, d)];
  }

  lemma PriceAllCons(r: ComponentRow, rest: seq<ComponentRow>, w: Range)
    requires Bills.PriceIn(r, w).Some? && (rest == [] || Bills.PriceAll(rest, w).Some?)
    ensures Bills.PriceAll(rest, w).Some?
    ensures Bills.PriceAll([r] + rest, w) == Some([Bills.PriceIn(r, w).value] + Bills.PriceAll(rest, w).value)
    ensures rest == [] ==> Bills.PriceAll(rest, w) == Some([])
  {
    hide Bills.PriceIn;
    assert ([r] + rest)[1..] == rest;
  }

  function FirstGroup(a: int, b: int, c: int, d: int): Bills.BillRow {
    Bills.Aggregate(Bills.GroupKey(SUBJECT, "p", 1, 0, 0), [PricedFor(a, a, 1, b), PricedFor(a, c, 1, d)])
  }

  lemma FirstGroupBilled(a: int, b: int, c: int, d: int)
    requires a < b < c < d
    ensures FirstGroup(a, b, c, d)
         in Bills.GroupBy([PricedFor(a, a, 1, b), PricedFor(a, b, 2, c), PricedFor(a, c, 1, d)])
    ensures FirstGroup(a, b, c, d).start == a && FirstGroup(a, b, c, d).stop == d
    ensures !ChargedAt(FirstGroup(a, b, c, d), b)
  {
    hide Sum, Bills.ExVats, Bills.IncVats;
    var ps := [PricedFor(a, a, 1, b), PricedFor(a, b, 2, c), PricedFor(a, c, 1, d)];
    var k := Bills.GroupKey(SUBJECT, "p", 1, 0, 0);
    var group := [ps[0], ps[2]];
    assert Filter(Bills.HasKey(k), ps) == group by {
      FilterCons(Bills.HasKey(k), ps[2], []);
      FilterCons(Bills.HasKey(k), ps[1], [ps[2]]);
      FilterCons(Bills.HasKey(k), ps[0], [ps[1], ps[2]]);
      assert [ps[1]] + [ps[2]] == [ps[1], ps[2]] && [ps[0]] + [ps[1], ps[2]] == ps && [ps[2]] + [] == [ps[2]];
    }
    assert Bills.GroupBy(ps)[0] == FirstGroup(a, b, c, d);
    assert group[1..] == [ps[2]];
    assert Bills.MinLower(group[1..]) == c && Bills.MaxUpper(group[1..]) == d;
    assert group[0].row.duration == Range(a, b) && group[1].row.duration == Range(c, d);
  }

  lemma RatesSince(cat: Catalogue, from: int, t: int)
    requires cat.currencies == map["GBP" := [Version(from, 1.0)]] && cat.vats == map["Standard" := [Version(from, 0.2)]]
    requires from <= t
    ensures RatesFrom(cat, FREE, t)
  {
    assert VersionsOf(cat.currencies, FREE.currency)[0].from <= t;
    assert VersionsOf(cat.vats, FREE.vat)[0].from <= t;
  }

  lemma ThreeVersionsChecked(a: int, b: int, c: int)
    requires a <= b <= c
    ensures RatesChecked(ThreeVersions(a, b, c))
  {
    hide RatesFrom;
    var cat := ThreeVersions(a, b, c);
    RatesSince(cat, a, a);
    RatesSince(cat, a, b);
    RatesSince(cat, a, c);
  }

  lemma MonthInstantFacts(k: int)
    ensures StartOfMonth(MonthInstant(k)) && MonthInstant(k) % DAY == 0
  {
  }

  lemma ThreeVersionsValid(k: int)
    ensures ThreeVersions(MonthInstant(k), MonthInstant(k + 1), MonthInstant(k + 2)).Valid()
    ensures RatesChecked(ThreeVersions(MonthInstant(k), MonthInstant(k + 1), MonthInstant(k + 2)))
  {
    hide MonthInstant, StartOfMonth, RatesChecked;
    MonthInstantMonotone(k, k + 1);
    MonthInstantMonotone(k + 1, k + 2);
    MonthInstantFacts(k);
    MonthInstantFacts(k + 1);
    MonthInstantFacts(k + 2);
    ThreeVersionsChecked(MonthInstant(k), MonthInstant(k + 1), MonthInstant(k + 2));
  }

  /** An event of three months whose plan had one node, then two, then one again: the bill row for one node
      reports all three months, but charges nothing in the second. */
  lemma GapOverThreeVersions(k: int) returns (cat: Catalogue, ev: EventRow, f: EventFilter, row: Bills.BillRow, t: int)
    ensures Billed(cat, [ev], f, ev, row) && RatesChecked(cat)
    ensures f == EventFilter(Some(FirstOf(k)), Some(FirstOf(k + 3)), [])
    ensures row.start <= t < row.stop && !ChargedAt(row, t)
  {
    hide MonthInstant, BuildComponents, Bills.GroupBy, ChargedAt, FirstGroup;
    var a, b, c, d := MonthInstant(k), MonthInstant(k + 1), MonthInstant(k + 2), MonthInstant(k + 3);
    MonthInstantMonotone(k, k + 1);
    MonthInstantMonotone(k + 1, k + 2);
    MonthInstantMonotone(k + 2, k + 3);
    cat, ev, f := ThreeVersions(a, b, c), LongEvent(a, d), EventFilter(Some(FirstOf(k)), Some(FirstOf(k + 3)), []);
    row, t := FirstGroup(a, b, c, d), b;
    ThreeVersionsValid(k);
    LongEventTable(a, b, c, d);
    assert Bills.Window(f) == Ok(Range(a, d)) by {
      WindowOf(k);
    }
    TablePriced(a, b, c, d);
    FirstGroupBilled(a, b, c, d);
    assert row.key.subject == SUBJECT by {
      FirstGroupKey(a, b, c, d);
    }
  }

  lemma WindowOf(k: int)
    ensures Bills.Window(EventFilter(Some(FirstOf(k)), Some(FirstOf(k + 3)), []))
            == Ok(Range(MonthInstant(k), MonthInstant(k + 3)))
  {
  }

  lemma FirstGroupKey(a: int, b: int, c: int, d: int)
    ensures FirstGroup(a, b, c, d).key.subject == SUBJECT
  {
  }
}
