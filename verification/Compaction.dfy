/** Dropping redundant versions of the service, plan, org and space tables: the `anydistinct`
    aggregate and the `not_redundant` filters of `create_events.sql`. */
module Compaction {
  import opened Base
  import opened Timeline

  type Column = Option<string>

  /** `anydistinct_stype`; `prior` is NULL before the first value. */
  datatype Distinctness = Distinctness(prior: Option<bool>, prev: Column)

  /** `anydistinct_sfunc` */
  function AnyDistinctStep(state: Distinctness, newval: Column): Distinctness {
    Distinctness(Some(state.prior.Some? && (state.prior.value || state.prev != newval)), newval)
  }

  function AnyDistinctFold(state: Distinctness, vs: seq<Column>): Distinctness
    decreases |vs|
  {
    if vs == [] then state else AnyDistinctFold(AnyDistinctStep(state, vs[0]), vs[1..])
  }

  /** The aggregate `anydistinct(v)`; NULL over no rows. */
  function AnyDistinct(vs: seq<Column>): Option<bool> {
    AnyDistinctFold(Distinctness(None, None), vs).prior
  }

  lemma {:induction false} AnyDistinctFoldMeaning(state: Distinctness, vs: seq<Column>)
    requires state.prior.Some?
    ensures var r := AnyDistinctFold(state, vs).prior;
            r.Some? && (!r.value <==> !state.prior.value && forall i :: 0 <= i < |vs| ==> vs[i] == state.prev)
    decreases |vs|
  {
    if vs != [] {
      AnyDistinctFoldMeaning(AnyDistinctStep(state, vs[0]), vs[1..]);
      if forall i :: 0 <= i < |vs[1..]| ==> vs[1..][i] == vs[0] {
        assert forall i :: 0 < i < |vs| ==> vs[i] == vs[1..][i - 1];
      }
    }
  }

  /** NULL over no rows; otherwise, although it compares only neighbours, `anydistinct` is false exactly when
      all its values are equal. */
  lemma AnyDistinctMeaning(vs: seq<Column>)
    ensures vs == [] ==> AnyDistinct(vs) == None
    ensures vs != [] ==> AnyDistinct(vs) == Some(exists i :: 0 <= i < |vs| && vs[i] != vs[0])
  {
    if vs == [] {
      return;
    }
    var state := AnyDistinctStep(Distinctness(None, None), vs[0]);
    AnyDistinctFoldMeaning(state, vs[1..]);
    assert forall i :: 0 < i < |vs| ==> vs[i] == vs[1..][i - 1];
    if forall i :: 0 <= i < |vs| ==> vs[i] == vs[0] {
      assert forall i :: 0 <= i < |vs[1..]| ==> vs[1..][i] == vs[i + 1];
    }
  }

  /** `anydistinct(c1) over prev_neighb or ... or row_number() over prev_neighb = 1` for row `i`,
      where `columns` lists the columns the subquery exposes. */
  predicate NotRedundant<T>(h: History<T>, i: nat, columns: T -> seq<Column>)
    requires i < |h|
  {
    i == 0
    || exists c :: 0 <= c < |columns(h[i - 1].data)| && c < |columns(h[i].data)|
        && AnyDistinct([columns(h[i - 1].data)[c], columns(h[i].data)[c]]) == Some(true)
  }

  /** `... where not_redundant` */
  function Compact<T>(h: History<T>, columns: T -> seq<Column>): History<T>
  {
    if h == [] then []
    else
      var last := |h| - 1;
      Compact(h[..last], columns) + if NotRedundant(h, last, columns) then [h[last]] else []
  }

  /** The exposed columns determine the exposed row, and their number is fixed. */
  ghost predicate Exposes<T(!new)>(columns: T -> seq<Column>) {
    && (forall x, y :: |columns(x)| == |columns(y)|)
    && (forall x, y :: columns(x) == columns(y) ==> x == y)
  }

  /** A guid's first version is kept, and any other exactly when it differs from the one before. */
  lemma NotRedundantMeaning<T(!new)>(h: History<T>, i: nat, columns: T -> seq<Column>)
    requires Exposes(columns) && i < |h|
    ensures NotRedundant(h, i, columns) <==> i == 0 || h[i - 1].data != h[i].data
  {
    if i == 0 {
      return;
    }
    var a, b := columns(h[i - 1].data), columns(h[i].data);
    forall c | 0 <= c < |b| ensures AnyDistinct([a[c], b[c]]) == Some(a[c] != b[c]) {
      var vs := [a[c], b[c]];
      AnyDistinctMeaning(vs);
      assert vs[1] != vs[0] ==> exists i :: 0 <= i < |vs| && vs[i] != vs[0];
    }
  }

  function Data<T>(v: Option<Version<T>>): Option<T> {
    match v case None => None case Some(w) => Some(w.data)
  }

  /** What is left is sorted, has no two neighbouring versions with the same exposed fields, and ends
      with the fields of the newest version. */
  lemma {:induction false} CompactShape<T(!new)>(h: History<T>, columns: T -> seq<Column>)
    requires Exposes(columns) && Sorted(h)
    ensures var g := Compact(h, columns);
            && Sorted(g)
            && (forall i :: 0 < i < |g| ==> g[i - 1].data != g[i].data)
            && (h != [] ==> g != [] && g[|g| - 1].data == h[|h| - 1].data && g[|g| - 1].from <= h[|h| - 1].from)
  {
    if |h| > 1 {
      var last := |h| - 1;
      CompactShape(h[..last], columns);
      NotRedundantMeaning(h, last, columns);
    }
  }

  /** Compaction is invisible to every point-in-time lookup of the exposed fields. */
  lemma {:induction false} CompactPreservesLookup<T(!new)>(h: History<T>, columns: T -> seq<Column>, t: int)
    requires Exposes(columns) && Sorted(h)
    ensures Data(Lookup(Compact(h, columns), t)) == Data(Lookup(h, t))
  {
    if h != [] {
      var last := |h| - 1;
      hide NotRedundant;
      var front := h[..last];
      var f, g := Compact(front, columns), Compact(h, columns);
      CompactPreservesLookup(front, columns, t);
      CompactShape(front, columns);
      if NotRedundant(h, last, columns) {
        assert g[..|f|] == f;
      } else {
        NotRedundantMeaning(h, last, columns);
        assert g == f;
        if h[last].from <= t {
          assert Lookup(f, t) == Some(f[|f| - 1]);
        }
      }
    }
  }

  /** Compacting twice is compacting once. */
  lemma CompactIdempotent<T(!new)>(h: History<T>, columns: T -> seq<Column>)
    requires Exposes(columns) && Sorted(h)
    ensures Compact(Compact(h, columns), columns) == Compact(h, columns)
  {
    CompactShape(h, columns);
    CompactStays(Compact(h, columns), columns);
  }

  lemma {:induction false} CompactStays<T(!new)>(h: History<T>, columns: T -> seq<Column>)
    requires Exposes(columns)
    requires forall i :: 0 < i < |h| ==> h[i - 1].data != h[i].data
    ensures Compact(h, columns) == h
  {
    if h != [] {
      var last := |h| - 1;
      CompactStays(h[..last], columns);
      if last > 0 {
        NotRedundantMeaning(h, last, columns);
      }
      assert h == h[..last] + [h[last]];
    }
  }
}
