/** `create_billable_event_components.sql`: every event is cut by the plan, currency and VAT versions it
    overlaps, once for each component of the plan version. */
module Components {
  import opened Base
  import opened Calendar
  import opened Timeline
  import opened Events
  import opened Formulas

  datatype PlanComponent = PlanComponent(name: string, formula: Formula, currency: string, vat: string)

  /** A row of `pricing_plans` with the `pricing_plan_components` that reference it. */
  datatype PlanTerms = PlanTerms(name: string, nodes: int, memory: int, storage: int, components: seq<PlanComponent>)

  type Rates = map<string, History<real>>

  datatype Catalogue = Catalogue(plans: map<string, History<PlanTerms>>, currencies: Rates, vats: Rates) {
    /** The primary keys and check constraints of the four tables. */
    ghost predicate Valid() {
      && (forall g :: g in plans ==>
            Sorted(plans[g]) && forall i :: 0 <= i < |plans[g]| ==>
              StartOfMonth(plans[g][i].from) && DistinctNames(plans[g][i].data.components))
      && (forall c :: c in currencies ==>
            Sorted(currencies[c]) && forall i :: 0 <= i < |currencies[c]| ==>
              currencies[c][i].from % DAY == 0 && currencies[c][i].data > 0.0)
      && (forall c :: c in vats ==>
            Sorted(vats[c]) && forall i :: 0 <= i < |vats[c]| ==>
              StartOfMonth(vats[c][i].from) && vats[c][i].data >= 0.0)
    }
  }

  predicate DistinctNames(cs: seq<PlanComponent>) {
    forall i, j :: 0 <= i < j < |cs| ==> cs[i].name != cs[j].name
  }

  // ----- The joins -----

  /** What a component row charges: one plan component at one exchange and one VAT rate. */
  datatype Tag = Tag(plan: Version<PlanTerms>, component: PlanComponent, currency: Version<real>, vat: Version<real>)

  datatype Slice = Slice(tag: Tag, range: Range)

  /** The left joins' result rows; `None` has a NULL in some column. */
  type Rows = seq<Option<Slice>>

  function VatSlices(p: Version<PlanTerms>, c: PlanComponent, currency: Version<real>, pieces: seq<Piece<real>>): Rows {
    if pieces == [] then []
    else [Some(Slice(Tag(p, c, currency, pieces[0].version), pieces[0].range))] + VatSlices(p, c, currency, pieces[1..])
  }

  /** `left join valid_vat_rates` for one event, plan version, component and currency version */
  function VatRows(cat: Catalogue, p: Version<PlanTerms>, c: PlanComponent, currency: Piece<real>): Rows {
    var pieces := Cut(VersionsOf(cat.vats, c.vat), currency.range);
    if pieces == [] then [None] else VatSlices(p, c, currency.version, pieces)
  }

  function CurrencyRows(cat: Catalogue, p: Version<PlanTerms>, c: PlanComponent, pieces: seq<Piece<real>>): Rows {
    if pieces == [] then [] else VatRows(cat, p, c, pieces[0]) + CurrencyRows(cat, p, c, pieces[1..])
  }

  /** `left join valid_currency_rates` for one event, plan version and component */
  function RateRows(cat: Catalogue, p: Piece<PlanTerms>, c: PlanComponent): Rows {
    var pieces := Cut(VersionsOf(cat.currencies, c.currency), p.range);
    if pieces == [] then [None] else CurrencyRows(cat, p.version, c, pieces)
  }

  function ComponentRows(cat: Catalogue, p: Piece<PlanTerms>, cs: seq<PlanComponent>): Rows {
    if cs == [] then [] else RateRows(cat, p, cs[0]) + ComponentRows(cat, p, cs[1..])
  }

  /** `left join pricing_plan_components` for one event and plan version */
  function PlanRows(cat: Catalogue, p: Piece<PlanTerms>): Rows {
    if p.version.data.components == [] then [None] else ComponentRows(cat, p, p.version.data.components)
  }

  function PlansRows(cat: Catalogue, pieces: seq<Piece<PlanTerms>>): Rows {
    if pieces == [] then [] else PlanRows(cat, pieces[0]) + PlansRows(cat, pieces[1..])
  }

  function PlanPieces(cat: Catalogue, ev: EventRow): seq<Piece<PlanTerms>> {
    Cut(VersionsOf(cat.plans, ev.planGuid), ev.duration)
  }

  /** `left join valid_pricing_plans` for one event */
  function EventRows(cat: Catalogue, ev: EventRow): Rows {
    var pieces := PlanPieces(cat, ev);
    if pieces == [] then [None] else PlansRows(cat, pieces)
  }

  // ----- The pointwise meaning -----

  /** The charges whose rows hold instant `t`, in row order. */
  function TagsAt(rows: Rows, t: int): seq<Tag> {
    if rows == [] then []
    else if rows[0].Some? && rows[0].value.range.Contains(t) then [rows[0].value.tag] + TagsAt(rows[1..], t)
    else TagsAt(rows[1..], t)
  }

  /** What one component costs at `t`, looking each rate up directly. */
  function ChargeAt(cat: Catalogue, p: Version<PlanTerms>, c: PlanComponent, t: int): seq<Tag> {
    match (Lookup(VersionsOf(cat.currencies, c.currency), t), Lookup(VersionsOf(cat.vats, c.vat), t))
    case (Some(currency), Some(vat)) => [Tag(p, c, currency, vat)]
    case _ => []
  }

  function ComponentChargesAt(cat: Catalogue, p: Version<PlanTerms>, cs: seq<PlanComponent>, t: int): seq<Tag> {
    if cs == [] then [] else ChargeAt(cat, p, cs[0], t) + ComponentChargesAt(cat, p, cs[1..], t)
  }

  /** The charges of plan `guid` at `t`: every component of the version then in force, at the rates then
      in force. */
  function ChargesAt(cat: Catalogue, guid: string, t: int): seq<Tag> {
    match Lookup(VersionsOf(cat.plans, guid), t)
    case None => []
    case Some(p) => ComponentChargesAt(cat, p, p.data.components, t)
  }

  lemma {:induction false} TagsAtConcat(a: Rows, b: Rows, t: int)
    ensures TagsAt(a + b, t) == TagsAt(a, t) + TagsAt(b, t)
  {
    if a == [] {
      assert a + b == b;
    } else {
      TagsAtConcat(a[1..], b, t);
      assert (a + b)[1..] == a[1..] + b && (a + b)[0] == a[0];
    }
  }

  /** A join on an instant outside the joined range finds nothing. */
  lemma CutOutside<T>(h: History<T>, r: Range, t: int)
    requires Sorted(h) && !r.Contains(t)
    ensures Filter(CoversAt(t), Cut(h, r)) == []
  {
    CutInside(h, r, 0);
    forall i | 0 <= i < |Cut(h, r)| ensures !CoversAt(t)(Cut(h, r)[i]) {
      assert Cut(h, r)[i] in Cut(h, r);
    }
    FilterNone(CoversAt(t), Cut(h, r));
  }

  lemma {:induction false} VatSlicesAt(p: Version<PlanTerms>, c: PlanComponent, currency: Version<real>,
      pieces: seq<Piece<real>>, t: int)
    ensures TagsAt(VatSlices(p, c, currency, pieces), t)
         == Map((v: Piece<real>) => Tag(p, c, currency, v.version), Filter(CoversAt(t), pieces))
  {
    if pieces != [] {
      VatSlicesAt(p, c, currency, pieces[1..], t);
    }
  }

  lemma VatRowsAt(cat: Catalogue, p: Version<PlanTerms>, c: PlanComponent, currency: Piece<real>, t: int)
    requires cat.Valid()
    ensures TagsAt(VatRows(cat, p, c, currency), t)
         == match Lookup(VersionsOf(cat.vats, c.vat), t)
            case Some(vat) => if currency.range.Contains(t) then [Tag(p, c, currency.version, vat)] else []
            case None => []
  {
    var h := VersionsOf(cat.vats, c.vat);
    VatSlicesAt(p, c, currency.version, Cut(h, currency.range), t);
    if currency.range.Contains(t) {
      CutIsPointwise(h, currency.range, t);
    } else {
      CutOutside(h, currency.range, t);
    }
  }

  lemma {:induction false} CurrencyRowsAt(cat: Catalogue, p: Version<PlanTerms>, c: PlanComponent,
      pieces: seq<Piece<real>>, t: int)
    requires cat.Valid()
    ensures TagsAt(CurrencyRows(cat, p, c, pieces), t)
         == match Lookup(VersionsOf(cat.vats, c.vat), t)
            case Some(vat) => Map((q: Piece<real>) => Tag(p, c, q.version, vat), Filter(CoversAt(t), pieces))
            case None => []
  {
    hide VatRows, Lookup;
    if pieces != [] {
      CurrencyRowsAt(cat, p, c, pieces[1..], t);
      TagsAtConcat(VatRows(cat, p, c, pieces[0]), CurrencyRows(cat, p, c, pieces[1..]), t);
      VatRowsAt(cat, p, c, pieces[0], t);
    }
  }

  lemma RateRowsAt(cat: Catalogue, p: Piece<PlanTerms>, c: PlanComponent, t: int)
    requires cat.Valid()
    ensures TagsAt(RateRows(cat, p, c), t) == if p.range.Contains(t) then ChargeAt(cat, p.version, c, t) else []
  {
    var h := VersionsOf(cat.currencies, c.currency);
    CurrencyRowsAt(cat, p.version, c, Cut(h, p.range), t);
    if p.range.Contains(t) {
      CutIsPointwise(h, p.range, t);
    } else {
      CutOutside(h, p.range, t);
    }
  }

  lemma {:induction false} ComponentRowsAt(cat: Catalogue, p: Piece<PlanTerms>, cs: seq<PlanComponent>, t: int)
    requires cat.Valid()
    ensures TagsAt(ComponentRows(cat, p, cs), t)
         == if p.range.Contains(t) then ComponentChargesAt(cat, p.version, cs, t) else []
  {
    if cs != [] {
      RateRowsAt(cat, p, cs[0], t);
      ComponentRowsAt(cat, p, cs[1..], t);
      TagsAtConcat(RateRows(cat, p, cs[0]), ComponentRows(cat, p, cs[1..]), t);
    }
  }

  lemma {:induction false} PlansRowsAt(cat: Catalogue, pieces: seq<Piece<PlanTerms>>, t: int)
    requires cat.Valid()
    ensures var at := Filter(CoversAt(t), pieces);
            && (at == [] ==> TagsAt(PlansRows(cat, pieces), t) == [])
            && (|at| == 1 ==>
                  TagsAt(PlansRows(cat, pieces), t)
                  == ComponentChargesAt(cat, at[0].version, at[0].version.data.components, t))
  {
    if pieces != [] {
      var p := pieces[0];
      ComponentRowsAt(cat, p, p.version.data.components, t);
      PlansRowsAt(cat, pieces[1..], t);
      TagsAtConcat(PlanRows(cat, p), PlansRows(cat, pieces[1..]), t);
    }
  }

  /** At every instant of an event, the rows generated for it charge exactly the components of the plan
      version in force, once each, at the rates in force: the joins refine the pointwise lookups. */
  lemma RowsArePointwise(cat: Catalogue, ev: EventRow, t: int)
    requires cat.Valid() && ev.duration.Contains(t)
    ensures TagsAt(EventRows(cat, ev), t) == ChargesAt(cat, ev.planGuid, t)
  {
    CutIsPointwise(VersionsOf(cat.plans, ev.planGuid), ev.duration, t);
    PlansRowsAt(cat, PlanPieces(cat, ev), t);
  }

  // ----- Where a row comes from -----

  ghost predicate Tagged(p: Version<PlanTerms>, c: PlanComponent, r: Range, row: Option<Slice>) {
    row.Some? ==>
      && !row.value.range.Empty() && row.value.range.Inside(r)
      && row.value.tag.plan == p && row.value.tag.component == c
  }

  lemma {:induction false} VatSlicesTagged(p: Version<PlanTerms>, c: PlanComponent, currency: Version<real>,
      pieces: seq<Piece<real>>, r: Range)
    requires forall q :: q in pieces ==> !q.range.Empty() && q.range.Inside(r)
    ensures forall row :: row in VatSlices(p, c, currency, pieces) ==> Tagged(p, c, r, row)
  {
    if pieces != [] {
      VatSlicesTagged(p, c, currency, pieces[1..], r);
    }
  }

  lemma {:induction false} CurrencyRowsTagged(cat: Catalogue, p: Version<PlanTerms>, c: PlanComponent,
      pieces: seq<Piece<real>>, r: Range)
    requires cat.Valid()
    requires forall q :: q in pieces ==> q.range.Inside(r)
    ensures forall row :: row in CurrencyRows(cat, p, c, pieces) ==> Tagged(p, c, r, row)
  {
    if pieces != [] {
      CurrencyRowsTagged(cat, p, c, pieces[1..], r);
      var vats := Cut(VersionsOf(cat.vats, c.vat), pieces[0].range);
      CutInside(VersionsOf(cat.vats, c.vat), pieces[0].range, 0);
      VatSlicesTagged(p, c, pieces[0].version, vats, r);
    }
  }

  lemma RateRowsTagged(cat: Catalogue, p: Piece<PlanTerms>, c: PlanComponent)
    requires cat.Valid()
    ensures forall row :: row in RateRows(cat, p, c) ==> Tagged(p.version, c, p.range, row)
  {
    CutInside(VersionsOf(cat.currencies, c.currency), p.range, 0);
    CurrencyRowsTagged(cat, p.version, c, Cut(VersionsOf(cat.currencies, c.currency), p.range), p.range);
  }

  lemma {:induction false} ComponentRowsTagged(cat: Catalogue, p: Piece<PlanTerms>, cs: seq<PlanComponent>)
    requires cat.Valid()
    ensures forall row :: row in ComponentRows(cat, p, cs) && row.Some? ==>
              && !row.value.range.Empty() && row.value.range.Inside(p.range)
              && row.value.tag.plan == p.version && row.value.tag.component in cs
  {
    if cs != [] {
      RateRowsTagged(cat, p, cs[0]);
      ComponentRowsTagged(cat, p, cs[1..]);
    }
  }

  lemma {:induction false} PlansRowsTagged(cat: Catalogue, pieces: seq<Piece<PlanTerms>>)
    requires cat.Valid()
    ensures forall row :: row in PlansRows(cat, pieces) && row.Some? ==>
              exists p :: p in pieces
                && !row.value.range.Empty() && row.value.range.Inside(p.range)
                && row.value.tag.plan == p.version && row.value.tag.component in p.version.data.components
  {
    if pieces != [] {
      ComponentRowsTagged(cat, pieces[0], pieces[0].version.data.components);
      PlansRowsTagged(cat, pieces[1..]);
      assert pieces[0] in pieces && forall p :: p in pieces[1..] ==> p in pieces;
    }
  }

  /** A generated row is a non-empty part of its event during which its plan version was in force. */
  lemma RowOrigin(cat: Catalogue, ev: EventRow, s: Slice)
    requires cat.Valid() && Some(s) in EventRows(cat, ev)
    ensures !s.range.Empty() && s.range.Inside(ev.duration)
    ensures s.tag.plan in VersionsOf(cat.plans, ev.planGuid) && s.tag.component in s.tag.plan.data.components
    ensures forall t :: s.range.Contains(t) ==> Lookup(VersionsOf(cat.plans, ev.planGuid), t) == Some(s.tag.plan)
  {
    CutInside(VersionsOf(cat.plans, ev.planGuid), ev.duration, 0);
    PlansRowsTagged(cat, PlanPieces(cat, ev));
  }

  // ----- Nothing is left uncharged -----

  /** `checkCurrencyRates` and `checkVATRates`: every component finds rates that were already valid when
      its plan version started. */
  predicate RatesChecked(cat: Catalogue) {
    forall g :: g in cat.plans ==> forall i :: 0 <= i < |cat.plans[g]| ==>
      forall c :: c in cat.plans[g][i].data.components ==> RatesFrom(cat, c, cat.plans[g][i].from)
  }

  predicate Started(h: History<real>, t: int) {
    exists i :: 0 <= i < |h| && h[i].from <= t
  }

  predicate RatesFrom(cat: Catalogue, c: PlanComponent, from: int) {
    Started(VersionsOf(cat.currencies, c.currency), from) && Started(VersionsOf(cat.vats, c.vat), from)
  }

  function RowRanges(rows: Rows): seq<Range>
    requires forall i :: 0 <= i < |rows| ==> rows[i].Some?
  {
    seq(|rows|, i requires 0 <= i < |rows| => rows[i].value.range)
  }

  lemma {:induction false} VatSlicesRanges(p: Version<PlanTerms>, c: PlanComponent, currency: Version<real>,
      pieces: seq<Piece<real>>)
    ensures var rows := VatSlices(p, c, currency, pieces);
            && |rows| == |pieces|
            && forall i :: 0 <= i < |rows| ==> rows[i].Some? && rows[i].value.range == pieces[i].range
  {
    if pieces != [] {
      VatSlicesRanges(p, c, currency, pieces[1..]);
    }
  }

  /** No row has a NULL, and the rows cover `whole` in order without gap, overlap or empty row. */
  ghost predicate RowsTile(rows: Rows, whole: Range) {
    (forall i :: 0 <= i < |rows| ==> rows[i].Some?) && Tiles(RowRanges(rows), whole)
  }

  lemma RowsTileConcat(a: Rows, b: Rows, whole: Range, at: int)
    requires RowsTile(a, Range(whole.lo, at)) && RowsTile(b, Range(at, whole.hi))
    ensures RowsTile(a + b, whole)
  {
    TilesConcat(RowRanges(a), RowRanges(b), whole, at);
    assert RowRanges(a + b) == RowRanges(a) + RowRanges(b);
  }

  lemma TilesTail(pieces: seq<Piece<real>>, whole: Range)
    requires Tiles(Ranges(pieces), whole)
    ensures pieces != [] && pieces[0].range.lo == whole.lo && !pieces[0].range.Empty()
    ensures |pieces| == 1 ==> pieces[0].range.hi == whole.hi
    ensures |pieces| > 1 ==> Tiles(Ranges(pieces[1..]), Range(pieces[0].range.hi, whole.hi))
  {
    assert Ranges(pieces)[0] == pieces[0].range;
    assert Ranges(pieces[1..]) == Ranges(pieces)[1..];
  }

  lemma VatRowsTile(cat: Catalogue, p: Version<PlanTerms>, c: PlanComponent, currency: Piece<real>)
    requires cat.Valid() && !currency.range.Empty()
    requires Started(VersionsOf(cat.vats, c.vat), currency.range.lo)
    ensures RowsTile(VatRows(cat, p, c, currency), currency.range)
  {
    var pieces := Cut(VersionsOf(cat.vats, c.vat), currency.range);
    CutTiles(VersionsOf(cat.vats, c.vat), currency.range);
    VatSlicesRanges(p, c, currency.version, pieces);
    assert RowRanges(VatRows(cat, p, c, currency)) == Ranges(pieces);
  }

  lemma {:induction false} CurrencyRowsTile(cat: Catalogue, p: Version<PlanTerms>, c: PlanComponent,
      pieces: seq<Piece<real>>, whole: Range)
    requires cat.Valid() && Tiles(Ranges(pieces), whole)
    requires Started(VersionsOf(cat.vats, c.vat), whole.lo)
    ensures RowsTile(CurrencyRows(cat, p, c, pieces), whole)
  {
    hide VatRows, RowsTile, Ranges, Tiles;
    TilesTail(pieces, whole);
    var first := pieces[0].range;
    VatRowsTile(cat, p, c, pieces[0]);
    var head, tail := VatRows(cat, p, c, pieces[0]), CurrencyRows(cat, p, c, pieces[1..]);
    assert CurrencyRows(cat, p, c, pieces) == head + tail;
    if |pieces| == 1 {
      assert head + tail == head;
    } else {
      CurrencyRowsTile(cat, p, c, pieces[1..], Range(first.hi, whole.hi));
      RowsTileConcat(head, tail, whole, first.hi);
    }
  }

  /** For a plan version's part of an event and a component whose rates were there from the start, the
      rows are complete, non-empty, disjoint and cover that part without a gap. */
  lemma RateRowsTile(cat: Catalogue, p: Piece<PlanTerms>, c: PlanComponent, from: int)
    requires cat.Valid() && RatesFrom(cat, c, from) && from <= p.range.lo && !p.range.Empty()
    ensures RowsTile(RateRows(cat, p, c), p.range)
  {
    var h := VersionsOf(cat.currencies, c.currency);
    CutTiles(h, p.range);
    CurrencyRowsTile(cat, p.version, c, Cut(h, p.range), p.range);
  }

  /** Each instant of that part is in exactly one of them. */
  lemma RateRowsDisjoint(cat: Catalogue, p: Piece<PlanTerms>, c: PlanComponent, from: int, t: int) returns (k: nat)
    requires cat.Valid() && RatesFrom(cat, c, from) && from <= p.range.lo && p.range.Contains(t)
    ensures k < |RateRows(cat, p, c)|
    ensures forall i :: 0 <= i < |RateRows(cat, p, c)| ==>
              RateRows(cat, p, c)[i].Some? && (RateRows(cat, p, c)[i].value.range.Contains(t) <==> i == k)
  {
    hide RateRows;
    RateRowsTile(cat, p, c, from);
    k := TilesPointwise(RowRanges(RateRows(cat, p, c)), p.range, t);
    assert forall i :: 0 <= i < |RateRows(cat, p, c)| ==>
          RowRanges(RateRows(cat, p, c))[i] == RateRows(cat, p, c)[i].value.range;
  }

  // ----- When a rate starts late -----

  /** Where the first of the pieces into which `h` cuts `r` ends. */
  function FirstPieceEnd(h: History<real>, r: Range, i: nat := 0): (end: int)
    requires i < |h| && !r.Empty()
    ensures r.lo < end <= r.hi
    decreases |h| - i
  {
    if i + 1 == |h| || r.hi <= h[i + 1].from then r.hi
    else if h[i + 1].from <= r.lo then FirstPieceEnd(h, r, i + 1)
    else h[i + 1].from
  }

  lemma {:induction false} FirstPieceEnds(h: History<real>, r: Range, i: nat)
    requires Sorted(h) && i < |h| && !r.Empty() && h[i].from < r.hi
    ensures Cut(h, r, i) != [] && Cut(h, r, i)[0].range.hi == FirstPieceEnd(h, r, i)
    ensures forall q :: q in Cut(h, r, i) ==> FirstPieceEnd(h, r, i) <= q.range.hi
    decreases |h| - i
  {
    if i + 1 < |h| {
      if h[i + 1].from < r.hi {
        FirstPieceEnds(h, r, i + 1);
      } else {
        CutBeyond(h, r, i + 1);
      }
    }
  }

  /** A currency rate has started by the end of `r`, and a VAT rate by the end of the first of the pieces
      into which the currency rates cut `r`. */
  predicate RatesFound(cat: Catalogue, c: PlanComponent, r: Range)
    requires !r.Empty()
  {
    var h, g := VersionsOf(cat.currencies, c.currency), VersionsOf(cat.vats, c.vat);
    h != [] && h[0].from < r.hi && g != [] && g[0].from < FirstPieceEnd(h, r)
  }

  predicate NoNull(rows: Rows) {
    forall i :: 0 <= i < |rows| ==> rows[i].Some?
  }

  lemma NoNullConcat(a: Rows, b: Rows)
    ensures NoNull(a + b) <==> NoNull(a) && NoNull(b)
  {
    assert forall i :: 0 <= i < |a| ==> (a + b)[i] == a[i];
    assert forall i :: 0 <= i < |b| ==> (a + b)[|a| + i] == b[i];
  }

  lemma VatRowsNull(cat: Catalogue, p: Version<PlanTerms>, c: PlanComponent, currency: Piece<real>)
    requires cat.Valid() && !currency.range.Empty()
    ensures NoNull(VatRows(cat, p, c, currency)) <==>
            VersionsOf(cat.vats, c.vat) != [] && VersionsOf(cat.vats, c.vat)[0].from < currency.range.hi
  {
    var g := VersionsOf(cat.vats, c.vat);
    CutEmpty(g, currency.range);
    VatSlicesRanges(p, c, currency.version, Cut(g, currency.range));
    if Cut(g, currency.range) == [] {
      assert VatRows(cat, p, c, currency)[0] == None;
    }
  }

  lemma {:induction false} CurrencyRowsNull(cat: Catalogue, p: Version<PlanTerms>, c: PlanComponent,
      pieces: seq<Piece<real>>)
    requires cat.Valid() && forall q :: q in pieces ==> !q.range.Empty()
    ensures NoNull(CurrencyRows(cat, p, c, pieces)) <==>
            forall q :: q in pieces ==>
                VersionsOf(cat.vats, c.vat) != [] && VersionsOf(cat.vats, c.vat)[0].from < q.range.hi
  {
    hide VatRows, NoNull;
    if pieces == [] {
      assert NoNull([]) by { NothingNull(); }
    } else {
      VatRowsNull(cat, p, c, pieces[0]);
      CurrencyRowsNull(cat, p, c, pieces[1..]);
      NoNullConcat(VatRows(cat, p, c, pieces[0]), CurrencyRows(cat, p, c, pieces[1..]));
    }
  }

  lemma NothingNull()
    ensures NoNull([])
  {
  }

  /** The exact condition for a component to yield no NULL over a plan version's part of an event. */
  lemma RateRowsNull(cat: Catalogue, p: Piece<PlanTerms>, c: PlanComponent)
    requires cat.Valid() && !p.range.Empty()
    ensures NoNull(RateRows(cat, p, c)) <==> RatesFound(cat, c, p.range)
  {
    var h, pieces := VersionsOf(cat.currencies, c.currency), Cut(VersionsOf(cat.currencies, c.currency), p.range);
    CutEmpty(h, p.range);
    if pieces == [] {
      assert RateRows(cat, p, c)[0] == None;
    } else {
      FirstPieceEnds(h, p.range, 0);
      CutInside(h, p.range, 0);
      CurrencyRowsNull(cat, p.version, c, pieces);
      assert pieces[0] in pieces;
    }
  }

  lemma {:induction false} ComponentRowsNull(cat: Catalogue, p: Piece<PlanTerms>, cs: seq<PlanComponent>)
    requires cat.Valid() && !p.range.Empty()
    ensures NoNull(ComponentRows(cat, p, cs)) <==> forall c :: c in cs ==> RatesFound(cat, c, p.range)
  {
    hide RateRows, NoNull, RatesFound;
    if cs == [] {
      NothingNull();
    } else {
      RateRowsNull(cat, p, cs[0]);
      ComponentRowsNull(cat, p, cs[1..]);
      NoNullConcat(RateRows(cat, p, cs[0]), ComponentRows(cat, p, cs[1..]));
    }
  }

  /** Some plan version overlaps the event, and each that does has a component. */
  ghost predicate Billable(cat: Catalogue, ev: EventRow) {
    && PlanPieces(cat, ev) != []
    && forall p :: p in PlanPieces(cat, ev) ==> p.version.data.components != []
  }

  /** The rates of every component that the event meets are found. */
  ghost predicate Rated(cat: Catalogue, ev: EventRow) {
    forall p :: p in PlanPieces(cat, ev) ==> PieceRated(cat, p)
  }

  ghost predicate PieceRated(cat: Catalogue, p: Piece<PlanTerms>) {
    !p.range.Empty() && forall c :: c in p.version.data.components ==> RatesFound(cat, c, p.range)
  }

  lemma {:induction false} PlansRowsNull(cat: Catalogue, pieces: seq<Piece<PlanTerms>>)
    requires cat.Valid() && forall p :: p in pieces ==> !p.range.Empty()
    ensures NoNull(PlansRows(cat, pieces)) <==>
            forall p :: p in pieces ==> p.version.data.components != [] && PieceRated(cat, p)
  {
    hide ComponentRows, NoNull, RatesFound;
    if pieces == [] {
      NothingNull();
    } else {
      var p := pieces[0];
      ComponentRowsNull(cat, p, p.version.data.components);
      PlansRowsNull(cat, pieces[1..]);
      NoNullConcat(PlanRows(cat, p), PlansRows(cat, pieces[1..]));
      assert !NoNull([None]) by { OneNull(); }
    }
  }

  lemma OneNull()
    ensures !NoNull([None])
  {
    var rows: Rows := [None];
    assert rows[0].None?;
  }

  /** An event generates a row with a NULL, which then fails on a NOT NULL column, exactly when no plan
      version overlaps it, one that does has no component, or the rates of a component start too late. */
  lemma RowsComplete(cat: Catalogue, ev: EventRow)
    requires cat.Valid()
    ensures NoNull(EventRows(cat, ev)) <==> Billable(cat, ev) && Rated(cat, ev)
  {
    hide NoNull, RatesFound;
    var pieces := PlanPieces(cat, ev);
    CutInside(VersionsOf(cat.plans, ev.planGuid), ev.duration, 0);
    PlansRowsNull(cat, pieces);
    OneNull();
  }

  /** `checkCurrencyRates` and `checkVATRates` rule the last case out ... */
  lemma CheckedIsRated(cat: Catalogue, ev: EventRow)
    requires cat.Valid() && RatesChecked(cat)
    ensures Rated(cat, ev)
  {
    var h := VersionsOf(cat.plans, ev.planGuid);
    CutInside(h, ev.duration, 0);
    forall p, c | p in PlanPieces(cat, ev) && c in p.version.data.components ensures RatesFound(cat, c, p.range) {
      var i :| 0 <= i < |h| && h[i] == p.version;
      assert RatesFrom(cat, c, p.version.from);
    }
  }

  lemma HistoryStarted(h: History<real>, t: int)
    requires Sorted(h)
    ensures Lookup(h, t).Some? <==> Started(h, t)
  {
    LookupMember(h, t);
    if i :| 0 <= i < |h| && h[i].from <= t {
      LookupNewest(h, h[i], t);
    }
  }

  lemma ChargeStarts(cat: Catalogue, p: Version<PlanTerms>, c: PlanComponent, t: int)
    requires cat.Valid()
    ensures ChargeAt(cat, p, c, t) != [] <==> RatesFrom(cat, c, t)
  {
    HistoryStarted(VersionsOf(cat.currencies, c.currency), t);
    HistoryStarted(VersionsOf(cat.vats, c.vat), t);
  }

  /** Some tag charges component `c`. */
  ghost predicate ChargesComponent(tags: seq<Tag>, c: PlanComponent) {
    exists i :: 0 <= i < |tags| && tags[i].component == c
  }

  lemma {:induction false} ComponentCharged(cat: Catalogue, p: Version<PlanTerms>, cs: seq<PlanComponent>,
      c: PlanComponent, t: int)
    ensures ChargesComponent(ComponentChargesAt(cat, p, cs, t), c) <==> c in cs && ChargeAt(cat, p, c, t) != []
  {
    if cs != [] {
      var head, tail := ChargeAt(cat, p, cs[0], t), ComponentChargesAt(cat, p, cs[1..], t);
      ComponentCharged(cat, p, cs[1..], c, t);
      assert forall i :: 0 <= i < |head| ==> head[i].component == cs[0];
      assert forall i :: 0 <= i < |tail| ==> (head + tail)[|head| + i] == tail[i];
      if cs[0] == c && head != [] {
        assert (head + tail)[0].component == c;
      }
    }
  }

  /** ... but a rate that starts late, where it yields no NULL, leaves a silent gap: while a plan version is
      in force, each of its components is charged from the instant on at which both its rates have started,
      and not before. */
  lemma ComponentChargedSince(cat: Catalogue, ev: EventRow, p: Version<PlanTerms>, c: PlanComponent, t: int)
    requires cat.Valid() && ev.duration.Contains(t) && c in p.data.components
    requires Lookup(VersionsOf(cat.plans, ev.planGuid), t) == Some(p)
    ensures ChargesComponent(TagsAt(EventRows(cat, ev), t), c) <==> RatesFrom(cat, c, t)
  {
    hide EventRows, TagsAt, ChargeAt, RatesFrom;
    RowsArePointwise(cat, ev, t);
    ComponentCharged(cat, p, p.data.components, c, t);
    ChargeStarts(cat, p, c, t);
  }
}
