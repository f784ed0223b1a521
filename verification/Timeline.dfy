/** Half-open time ranges, and the versioned tables whose rows carry a `valid_from`. A table keyed
    by `(guid, valid_from)` is, for each guid, a sequence of versions in increasing `valid_from`. */
module Timeline {
  import opened Base

  /** A finite `tstzrange` `[lo, hi)`; every range with `hi <= lo` is PostgreSQL's `empty`. */
  datatype Range = Range(lo: int, hi: int) {
    predicate Empty() {
      hi <= lo
    }

    predicate Contains(t: int) {
      lo <= t < hi
    }

    /** `r * s` */
    function Meet(s: Range): Range {
      Range(if lo < s.lo then s.lo else lo, if hi < s.hi then hi else s.hi)
    }

    /** `r && s` */
    predicate Overlaps(s: Range) {
      !Meet(s).Empty()
    }

    /** `r <@ s` for a non-empty `r` */
    predicate Inside(s: Range) {
      s.lo <= lo && hi <= s.hi
    }
  }

  datatype Limit = At(t: int) | Infinity

  /** A `valid_for` range, which may be unbounded above. */
  datatype Span = Span(lo: int, hi: Limit) {
    predicate Contains(t: int) {
      lo <= t && (hi.At? ==> t < hi.t)
    }

    /** `r * valid_for` */
    function Clip(r: Range): Range {
      Range(if r.lo < lo then lo else r.lo, if hi.At? && hi.t < r.hi then hi.t else r.hi)
    }
  }

  datatype Version<+T> = Version(from: int, data: T)

  type History<T> = seq<Version<T>>

  /** One row per `(guid, valid_from)`, read `order by valid_from`. */
  ghost predicate Sorted<T>(h: History<T>) {
    forall i, j :: 0 <= i < j < |h| ==> h[i].from < h[j].from
  }

  /** `tstzrange(valid_from, lead(valid_from, 1, 'infinity') over (... order by valid_from))` */
  function ValidFor<T>(h: History<T>, i: nat): Span
    requires i < |h|
  {
    Span(h[i].from, if i + 1 < |h| then At(h[i + 1].from) else Infinity)
  }

  /** The version in force at `t`: the last one that starts no later than `t`. */
  function Lookup<T>(h: History<T>, t: int): Option<Version<T>> {
    if h == [] then None
    else if h[|h| - 1].from <= t then Some(h[|h| - 1])
    else Lookup(h[..|h| - 1], t)
  }

  /** The rows of a join `on t <@ valid_for`. */
  function Matches<T>(h: History<T>, t: int, i: nat := 0): seq<Version<T>>
    requires i <= |h|
    decreases |h| - i
  {
    if i == |h| then []
    else if ValidFor(h, i).Contains(t) then [h[i]] + Matches(h, t, i + 1)
    else Matches(h, t, i + 1)
  }

  /** The row whose `valid_for` holds `t` is the version in force. */
  lemma {:induction false} LookupAt<T>(h: History<T>, i: nat, t: int)
    requires Sorted(h) && i < |h| && ValidFor(h, i).Contains(t)
    ensures Lookup(h, t) == Some(h[i])
  {
    if i < |h| - 1 {
      assert ValidFor(h[..|h| - 1], i).Contains(t);
      LookupAt(h[..|h| - 1], i, t);
    }
  }

  /** The version in force is one of the versions, and has started. */
  lemma {:induction false} LookupMember<T>(h: History<T>, t: int)
    ensures Lookup(h, t).Some? ==> Lookup(h, t).value in h && Lookup(h, t).value.from <= t
  {
    if h != [] && t < h[|h| - 1].from {
      LookupMember(h[..|h| - 1], t);
    }
  }

  /** No version that has started is newer than the one in force. */
  lemma {:induction false} LookupNewest<T>(h: History<T>, v: Version<T>, t: int)
    requires Sorted(h) && v in h && v.from <= t
    ensures Lookup(h, t).Some? && v.from <= Lookup(h, t).value.from <= t && Lookup(h, t).value in h
  {
    if h[|h| - 1].from <= t {
      var i :| 0 <= i < |h| && h[i] == v;
    } else {
      LookupNewest(h[..|h| - 1], v, t);
    }
  }

  /** A version is in force at its own `valid_from`. */
  lemma LookupOwn<T>(h: History<T>, v: Version<T>)
    requires Sorted(h) && v in h
    ensures Lookup(h, v.from) == Some(v)
  {
    LookupNewest(h, v, v.from);
  }

  lemma {:induction false} LookupBefore<T>(h: History<T>, t: int)
    requires Sorted(h)
    requires h == [] || t < h[0].from
    ensures Lookup(h, t) == None
  {
    if h != [] {
      LookupBefore(h[..|h| - 1], t);
    }
  }

  /** Once the first version has started, some version is in force. */
  lemma {:induction false} LookupIndex<T>(h: History<T>, t: int) returns (i: nat)
    requires Sorted(h) && h != [] && h[0].from <= t
    ensures i < |h| && ValidFor(h, i).Contains(t) && Lookup(h, t) == Some(h[i])
  {
    if h[|h| - 1].from <= t {
      i := |h| - 1;
    } else {
      i := LookupIndex(h[..|h| - 1], t);
    }
  }

  lemma {:induction false} MatchesNone<T>(h: History<T>, t: int, i: nat)
    requires i <= |h|
    requires forall j :: i <= j < |h| ==> !ValidFor(h, j).Contains(t)
    ensures Matches(h, t, i) == []
    decreases |h| - i
  {
    if i < |h| {
      MatchesNone(h, t, i + 1);
    }
  }

  lemma {:induction false} MatchesOne<T>(h: History<T>, t: int, i: nat, k: nat)
    requires Sorted(h) && i <= k < |h| && ValidFor(h, k).Contains(t)
    ensures Matches(h, t, i) == [h[k]]
    decreases |h| - i
  {
    if i < k {
      assert h[i + 1].from <= h[k].from;
      MatchesOne(h, t, i + 1, k);
    } else {
      MatchesNone(h, t, k + 1);
    }
  }

  /** Validity ranges never overlap, so a join at an instant finds the version in force and nothing
      else. */
  lemma MatchesIsLookup<T>(h: History<T>, t: int)
    requires Sorted(h)
    ensures Matches(h, t) == match Lookup(h, t) case None => [] case Some(v) => [v]
  {
    if h == [] || t < h[0].from {
      LookupBefore(h, t);
      MatchesNone(h, t, 0);
    } else {
      var k := LookupIndex(h, t);
      MatchesOne(h, t, 0, k);
    }
  }

  // ----- Cutting a range by the versions it overlaps -----

  datatype Piece<+T> = Piece(range: Range, version: Version<T>)

  /** The rows of a join `on valid_for && r`, each with `r * valid_for`. */
  function Cut<T>(h: History<T>, r: Range, i: nat := 0): seq<Piece<T>>
    requires i <= |h|
    decreases |h| - i
  {
    if i == |h| then []
    else
      var part := ValidFor(h, i).Clip(r);
      if part.Empty() then Cut(h, r, i + 1) else [Piece(part, h[i])] + Cut(h, r, i + 1)
  }

  function CoversAt<T>(t: int): Piece<T> -> bool {
    (p: Piece<T>) => p.range.Contains(t)
  }

  /** Every piece is a non-empty part of `r` that lies in the validity of its version. */
  lemma {:induction false} CutInside<T>(h: History<T>, r: Range, i: nat)
    requires Sorted(h) && i <= |h|
    ensures forall p :: p in Cut(h, r, i) ==>
              && !p.range.Empty() && p.range.Inside(r) && p.version in h && p.version.from <= p.range.lo
              && (forall t :: p.range.Contains(t) ==> Lookup(h, t) == Some(p.version))
    decreases |h| - i
  {
    if i < |h| {
      CutInside(h, r, i + 1);
      var part := ValidFor(h, i).Clip(r);
      forall t | part.Contains(t) ensures Lookup(h, t) == Some(h[i]) {
        LookupAt(h, i, t);
      }
    }
  }

  lemma {:induction false} CutMisses<T>(h: History<T>, r: Range, t: int, i: nat)
    requires i <= |h|
    requires forall j :: i <= j < |h| ==> !ValidFor(h, j).Contains(t)
    ensures Filter(CoversAt(t), Cut(h, r, i)) == []
    decreases |h| - i
  {
    if i < |h| {
      CutMisses(h, r, t, i + 1);
      FilterCons(CoversAt(t), Piece(ValidFor(h, i).Clip(r), h[i]), Cut(h, r, i + 1));
    }
  }

  lemma {:induction false} CutHits<T>(h: History<T>, r: Range, t: int, i: nat, k: nat)
    requires Sorted(h) && r.Contains(t) && i <= k < |h| && ValidFor(h, k).Contains(t)
    ensures Filter(CoversAt(t), Cut(h, r, i)) == [Piece(ValidFor(h, k).Clip(r), h[k])]
    decreases |h| - i
  {
    if i < k {
      assert h[i + 1].from <= h[k].from;
      CutHits(h, r, t, i + 1, k);
    } else {
      CutMisses(h, r, t, k + 1);
    }
    FilterCons(CoversAt(t), Piece(ValidFor(h, i).Clip(r), h[i]), Cut(h, r, i + 1));
  }

  /** At each instant of `r` exactly one piece is there, that of the version in force, and none where
      no version is in force. */
  lemma CutIsPointwise<T>(h: History<T>, r: Range, t: int)
    requires Sorted(h) && r.Contains(t)
    ensures var at := Filter(CoversAt(t), Cut(h, r));
            match Lookup(h, t)
            case None => at == []
            case Some(v) => |at| == 1 && at[0].version == v && at[0].range.Contains(t)
  {
    if h == [] || t < h[0].from {
      LookupBefore(h, t);
      CutMisses(h, r, t, 0);
    } else {
      var k := LookupIndex(h, t);
      CutHits(h, r, t, 0, k);
    }
  }

  /** `parts` cover `whole` in order, without gap, overlap or empty part. */
  ghost predicate Tiles(parts: seq<Range>, whole: Range) {
    && |parts| > 0
    && parts[0].lo == whole.lo && parts[|parts| - 1].hi == whole.hi
    && (forall i :: 0 <= i < |parts| ==> !parts[i].Empty())
    && (forall i :: 0 < i < |parts| ==> parts[i - 1].hi == parts[i].lo)
  }

  function Ranges<T>(pieces: seq<Piece<T>>): seq<Range> {
    Map((p: Piece<T>) => p.range, pieces)
  }

  lemma {:induction false} CutTilesFrom<T>(h: History<T>, r: Range, i: nat)
    requires Sorted(h) && i < |h|
    requires !Range(if r.lo < h[i].from then h[i].from else r.lo, r.hi).Empty()
    ensures Tiles(Ranges(Cut(h, r, i)), Range(if r.lo < h[i].from then h[i].from else r.lo, r.hi))
    decreases |h| - i
  {
    var part := ValidFor(h, i).Clip(r);
    if i + 1 < |h| {
      if h[i + 1].from < r.hi {
        CutTilesFrom(h, r, i + 1);
        var rest := Ranges(Cut(h, r, i + 1));
        if part.Empty() {
          assert Cut(h, r, i) == Cut(h, r, i + 1);
        } else {
          assert Ranges(Cut(h, r, i)) == [part] + rest;
        }
      } else {
        CutBeyond(h, r, i + 1);
        assert Ranges(Cut(h, r, i)) == [part];
      }
    } else {
      assert Ranges(Cut(h, r, i)) == [part];
    }
  }

  lemma {:induction false} CutBeyond<T>(h: History<T>, r: Range, i: nat)
    requires Sorted(h) && i < |h| && r.hi <= h[i].from
    ensures Cut(h, r, i) == []
    decreases |h| - i
  {
    if i + 1 < |h| {
      CutBeyond(h, r, i + 1);
    }
  }

  /** A range that starts no earlier than the first version is cut without loss. */
  lemma CutTiles<T>(h: History<T>, r: Range)
    requires Sorted(h) && h != [] && h[0].from <= r.lo && !r.Empty()
    ensures Tiles(Ranges(Cut(h, r)), r)
  {
    CutTilesFrom(h, r, 0);
  }

  /** The join `on valid_for && r` finds nothing exactly when the first version starts at or after
      the end of `r`. */
  lemma CutEmpty<T>(h: History<T>, r: Range)
    requires Sorted(h) && !r.Empty()
    ensures Cut(h, r) == [] <==> h == [] || r.hi <= h[0].from
  {
    if h != [] {
      if r.hi <= h[0].from {
        CutBeyond(h, r, 0);
      } else {
        CutTilesFrom(h, r, 0);
      }
    }
  }

  /** Tiling the tiles: cutting every part again still covers the whole. */
  lemma TilesConcat(a: seq<Range>, b: seq<Range>, whole: Range, at: int)
    requires Tiles(a, Range(whole.lo, at)) && Tiles(b, Range(at, whole.hi))
    ensures Tiles(a + b, whole)
  {
  }

  lemma {:induction false} TilesBounds(parts: seq<Range>, whole: Range)
    requires Tiles(parts, whole)
    ensures !whole.Empty()
    ensures forall i :: 0 <= i < |parts| ==> parts[i].Inside(whole)
    decreases |parts|
  {
    if |parts| > 1 {
      var front := parts[..|parts| - 1];
      TilesBounds(front, Range(whole.lo, parts[|parts| - 1].lo));
      assert forall i :: 0 <= i < |front| ==> front[i] == parts[i];
    }
  }

  /** Every instant of a tiled range lies in exactly one tile. */
  lemma {:induction false} TilesPointwise(parts: seq<Range>, whole: Range, t: int) returns (k: nat)
    requires Tiles(parts, whole) && whole.Contains(t)
    ensures k < |parts| && (forall i :: 0 <= i < |parts| ==> (parts[i].Contains(t) <==> i == k))
    decreases |parts|
  {
    if |parts| == 1 || parts[|parts| - 1].lo <= t {
      k := |parts| - 1;
      if |parts| > 1 {
        TilesBounds(parts[..|parts| - 1], Range(whole.lo, parts[|parts| - 1].lo));
        assert forall i :: 0 <= i < |parts| - 1 ==> parts[..|parts| - 1][i] == parts[i];
      }
    } else {
      k := TilesPointwise(parts[..|parts| - 1], Range(whole.lo, parts[|parts| - 1].lo), t);
      assert forall i :: 0 <= i < |parts| - 1 ==> parts[..|parts| - 1][i] == parts[i];
    }
  }

  // ----- Adding a version -----

  /** The table after inserting `(valid_from, data)`; the primary key is `(guid, valid_from)`, so
      `None` is a conflict. */
  function Insert<T>(h: History<T>, v: Version<T>): Option<History<T>> {
    if h == [] || h[|h| - 1].from < v.from then Some(h + [v])
    else if h[|h| - 1].from == v.from then None
    else
      match Insert(h[..|h| - 1], v)
      case None => None
      case Some(g) => Some(g + [h[|h| - 1]])
  }

  /** Inserting fails exactly on a duplicate `valid_from`. */
  lemma {:induction false} InsertConflict<T>(h: History<T>, v: Version<T>)
    requires Sorted(h)
    ensures Insert(h, v).None? <==> exists i :: 0 <= i < |h| && h[i].from == v.from
  {
    if h != [] && v.from < h[|h| - 1].from {
      var front := h[..|h| - 1];
      InsertConflict(front, v);
      if i :| 0 <= i < |h| && h[i].from == v.from {
        assert front[i].from == v.from;
      }
    }
  }

  lemma {:induction false} InsertSplits<T>(h: History<T>, v: Version<T>) returns (k: nat)
    requires Sorted(h) && Insert(h, v).Some?
    ensures k <= |h| && Insert(h, v).value == h[..k] + [v] + h[k..]
    ensures k > 0 ==> h[k - 1].from < v.from
    ensures k < |h| ==> v.from < h[k].from
  {
    if h == [] || h[|h| - 1].from < v.from {
      k := |h|;
    } else {
      var front := h[..|h| - 1];
      InsertStep(h, v);
      FrontSorted(h);
      hide Insert, Sorted;
      k := InsertSplits(front, v);
      SplitsAppend(h, v, k);
    }
  }

  /** One unfolding of an insert before the last row. */
  lemma InsertStep<T>(h: History<T>, v: Version<T>)
    requires h != [] && v.from <= h[|h| - 1].from && Insert(h, v).Some?
    ensures v.from < h[|h| - 1].from && Insert(h[..|h| - 1], v).Some?
    ensures Insert(h, v).value == Insert(h[..|h| - 1], v).value + [h[|h| - 1]]
  {
  }

  lemma FrontSorted<T>(h: History<T>)
    requires Sorted(h) && h != []
    ensures Sorted(h[..|h| - 1])
  {
  }

  lemma SplitsAppend<T>(h: History<T>, v: Version<T>, k: nat)
    requires h != [] && k <= |h| - 1
    ensures h[..|h| - 1][..k] + [v] + h[..|h| - 1][k..] + [h[|h| - 1]] == h[..k] + [v] + h[k..]
  {
    var front, last := h[..|h| - 1], h[|h| - 1];
    assert h[..k] == front[..k] && front[k..] + [last] == h[k..];
    assert front[..k] + [v] + front[k..] + [last] == front[..k] + [v] + (front[k..] + [last]);
  }

  /** Otherwise it puts that one row in its place and leaves the others as they were. */
  lemma InsertPlace<T>(h: History<T>, v: Version<T>) returns (k: nat)
    requires Sorted(h) && Insert(h, v).Some?
    ensures k <= |h| && Insert(h, v).value == h[..k] + [v] + h[k..]
    ensures Sorted(Insert(h, v).value)
  {
    k := InsertSplits(h, v);
    var g := h[..k] + [v] + h[k..];
    forall i, j | 0 <= i < j < |g| ensures g[i].from < g[j].from {
      assert g[i] == if i < k then h[i] else if i == k then v else h[i - 1];
      assert g[j] == if j < k then h[j] else if j == k then v else h[j - 1];
    }
  }

  lemma InsertedMembers<T>(h: History<T>, v: Version<T>)
    requires Sorted(h) && Insert(h, v).Some?
    ensures forall u :: u in Insert(h, v).value <==> u in h || u == v
    ensures Sorted(Insert(h, v).value)
  {
    var k := InsertPlace(h, v);
    assert h == h[..k] + h[k..];
  }

  /** After an insert, exactly the instants from its `valid_from` up to the next version see it. */
  lemma {:induction false} LookupInsert<T>(h: History<T>, v: Version<T>, t: int)
    requires Sorted(h) && Insert(h, v).Some?
    ensures Lookup(Insert(h, v).value, t)
         == match Lookup(h, t)
            case None => if v.from <= t then Some(v) else None
            case Some(w) => if w.from < v.from <= t then Some(v) else Some(w)
  {
    if h != [] && v.from < h[|h| - 1].from {
      var front, last := h[..|h| - 1], h[|h| - 1];
      LookupInsert(front, v, t);
      var g := Insert(front, v).value;
      assert (g + [last])[..|g|] == g;
    } else {
      assert (h + [v])[..|h|] == h;
    }
  }
}
