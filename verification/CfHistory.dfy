/** The version histories that the historic data collector writes for services, plans, orgs and spaces. */
module CfHistory {
  import opened Base
  import opened Timeline
  import opened Compaction
  import opened Events

  /** An entry of a Cloud Foundry listing. */
  datatype Listed<+T> = Listed(guid: string, createdAt: int, updatedAt: int, data: T) {
    function With<S>(other: S): Listed<S> {
      Listed(guid, createdAt, updatedAt, other)
    }
  }

  /** The `valid_from` of an entry: a guid seen for the first time counts from its creation. */
  function ValidFrom<T>(h: History<T>, e: Listed<T>): int {
    if h == [] then e.createdAt else e.updatedAt
  }

  /** `insert ... on conflict (guid, valid_from) do nothing` */
  function Record<T>(h: History<T>, e: Listed<T>): History<T> {
    match Insert(h, Version(ValidFrom(h, e), e.data)) case Some(g) => g case None => h
  }

  type Table<T> = map<string, History<T>>

  function RecordIn<T>(table: Table<T>, e: Listed<T>): Table<T> {
    table[e.guid := Record(VersionsOf(table, e.guid), e)]
  }

  /** A table after collecting some entries in order. */
  function RecordAll<T>(table: Table<T>, es: seq<Listed<T>>): Table<T> {
    if es == [] then table else RecordIn(RecordAll(table, es[..|es| - 1]), es[|es| - 1])
  }

  /** The history of one guid after observing it several times. */
  function Observed<T>(obs: seq<Listed<T>>): History<T> {
    if obs == [] then [] else Record(Observed(obs[..|obs| - 1]), obs[|obs| - 1])
  }

  function OfGuid<T>(guid: string): Listed<T> -> bool {
    (e: Listed<T>) => e.guid == guid
  }

  /** Each guid's history depends on its own observations only. */
  lemma {:induction false} RecordAllByGuid<T>(es: seq<Listed<T>>, guid: string)
    ensures VersionsOf(RecordAll(map[], es), guid) == Observed(Filter(OfGuid(guid), es))
  {
    if es != [] {
      var front, e := es[..|es| - 1], es[|es| - 1];
      assert es == front + [e];
      RecordAllByGuid(front, guid);
      FilterConcat(OfGuid(guid), front, [e]);
      var mine := Filter(OfGuid(guid), front);
      if e.guid == guid {
        assert Filter(OfGuid(guid), es) == mine + [e];
        assert (mine + [e])[..|mine|] == mine;
      } else {
        assert Filter(OfGuid(guid), es) == mine;
      }
    }
  }

  /** Created once, before it is ever updated; updates are seen in order; an update time determines what
      was seen. */
  ghost predicate Regular<T(!new)>(obs: seq<Listed<T>>) {
    && (forall i :: 0 <= i < |obs| ==> obs[i].createdAt == obs[0].createdAt && obs[0].createdAt <= obs[i].updatedAt)
    && (forall i, j :: 0 <= i < j < |obs| ==>
          obs[i].updatedAt <= obs[j].updatedAt && (obs[i].updatedAt == obs[j].updatedAt ==> obs[i].data == obs[j].data))
  }

  /** What the thing looked like at `t`, as far as it was observed: as of the last update no later than
      `t`, or else as first observed, from its creation on. */
  function Appearance<T>(obs: seq<Listed<T>>, t: int): Option<T> {
    if obs == [] then None
    else
      var last := obs[|obs| - 1];
      if last.updatedAt <= t || (|obs| == 1 && last.createdAt <= t) then Some(last.data)
      else Appearance(obs[..|obs| - 1], t)
  }

  lemma {:induction false} ObservedShape<T(!new)>(obs: seq<Listed<T>>)
    requires Regular(obs) && obs != []
    ensures Sorted(Observed(obs)) && Observed(obs) != []
    ensures forall i :: 0 <= i < |Observed(obs)| ==> Observed(obs)[i].from <= obs[|obs| - 1].updatedAt
    decreases |obs|
  {
    var front, e := obs[..|obs| - 1], obs[|obs| - 1];
    if |obs| == 1 {
      assert Observed(front) == [];
      assert Observed(obs) == [Version(e.createdAt, e.data)];
    } else {
      hide Insert;
      assert front[|front| - 1] == obs[|obs| - 2];
      ObservedShape(front);
      RecordShape(Observed(front), e);
    }
  }

  lemma RecordShape<T>(h: History<T>, e: Listed<T>)
    requires Sorted(h) && h != [] && forall i :: 0 <= i < |h| ==> h[i].from <= e.updatedAt
    ensures Sorted(Record(h, e)) && Record(h, e) != []
    ensures forall i :: 0 <= i < |Record(h, e)| ==> Record(h, e)[i].from <= e.updatedAt
  {
    hide Insert;
    var v := Version(e.updatedAt, e.data);
    if Insert(h, v).Some? {
      var k := InsertPlace(h, v);
    }
  }

  lemma NothingObserved<T>()
    ensures Observed<T>([]) == []
  {
  }

  /** The stored history, which only has the times at which something new was seen, answers every
      point-in-time lookup with the appearance at that time. */
  lemma {:induction false} HistoryAnswers<T(!new)>(obs: seq<Listed<T>>, t: int)
    requires Regular(obs)
    ensures Data(Lookup(Observed(obs), t)) == Appearance(obs, t)
    decreases |obs|
  {
    if |obs| == 1 {
      assert Observed(obs[..0]) == [];
      assert Observed(obs) == [Version(obs[0].createdAt, obs[0].data)];
    } else if |obs| > 1 {
      var front, e := obs[..|obs| - 1], obs[|obs| - 1];
      hide Insert, Lookup, Record, Sorted;
      assert front[|front| - 1] == obs[|obs| - 2];
      HistoryAnswers(front, t);
      ObservedShape(front);
      RecordLookup(Observed(front), e, t);
    }
  }

  /** A newer row is seen from its update on; a row that conflicts repeats a time that was there. */
  lemma RecordLookup<T>(h: History<T>, e: Listed<T>, t: int)
    requires Sorted(h) && h != [] && forall i :: 0 <= i < |h| ==> h[i].from <= e.updatedAt
    ensures (Record(h, e) == h && exists i :: 0 <= i < |h| && h[i].from == e.updatedAt)
            || Lookup(Record(h, e), t) == if e.updatedAt <= t then Some(Version(e.updatedAt, e.data)) else Lookup(h, t)
  {
    hide Insert, Lookup;
    var v := Version(e.updatedAt, e.data);
    InsertConflict(h, v);
    if Insert(h, v).Some? {
      LookupMember(h, t);
      LookupInsert(h, v, t);
    }
  }

  /** ... also through compaction and the join of `create_events.sql`: an org, space or service gets the
      name it appeared under. */
  lemma JoinedNameAppears(es: seq<Listed<string>>, guid: string, t: int)
    requires Regular(Filter(OfGuid(guid), es))
    ensures NameAt(RecordAll(map[], es), guid, t) == [Appearance(Filter(OfGuid(guid), es), t)]
  {
    hide Insert, Observed, RecordAll, Lookup, Compact, Matches, Appearance, Filter;
    var obs := Filter(OfGuid(guid), es);
    RecordAllByGuid(es, guid);
    HistoryAnswers(obs, t);
    var h := Observed(obs);
    if obs != [] {
      ObservedShape(obs);
    } else {
      NothingObserved<string>();
    }
    NameColumnsExpose();
    CompactShape(h, NameColumns());
    MatchesIsLookup(Compact(h, NameColumns()), t);
    CompactPreservesLookup(h, NameColumns(), t);
  }

  lemma RecordKeeps<T>(h: History<T>, e: Listed<T>)
    requires Sorted(h)
    ensures Sorted(Record(h, e)) && Record(h, e) != []
    ensures forall v :: v in h ==> v in Record(h, e)
    ensures forall v :: v in Record(h, e) ==> v in h || v.data == e.data
  {
    var v := Version(ValidFrom(h, e), e.data);
    InsertConflict(h, v);
    if Insert(h, v).Some? {
      var k := InsertPlace(h, v);
      assert h == h[..k] + h[k..];
    }
  }

  lemma {:induction false} ObservedSorted<T>(obs: seq<Listed<T>>)
    ensures Sorted(Observed(obs)) && (obs != [] ==> Observed(obs) != [])
  {
    if obs != [] {
      ObservedSorted(obs[..|obs| - 1]);
      RecordKeeps(Observed(obs[..|obs| - 1]), obs[|obs| - 1]);
    }
  }

  ghost predicate HasUpdate<T>(h: History<T>, e: Listed<T>) {
    exists v :: v in h && v.from == e.updatedAt
  }

  /** Something known then has a version from its update on ... */
  lemma RecordUpdates<T>(h: History<T>, e: Listed<T>)
    requires Sorted(h) && h != []
    ensures HasUpdate(Record(h, e), e)
  {
    var v := Version(e.updatedAt, e.data);
    InsertConflict(h, v);
    if Insert(h, v).Some? {
      var k := InsertPlace(h, v);
      assert Record(h, e)[k] == v;
    }
  }

  /** ... and with that version, recording it again adds nothing. */
  lemma RecordPresent<T>(h: History<T>, e: Listed<T>)
    requires Sorted(h) && HasUpdate(h, e)
    ensures Record(h, e) == h
  {
    InsertConflict(h, Version(e.updatedAt, e.data));
    var v :| v in h && v.from == e.updatedAt;
    var i :| 0 <= i < |h| && h[i] == v;
  }

  /** Observing the same thing again: the second time may add one row, which no lookup can see if the
      observations are regular; the third time adds nothing, whatever was observed. */
  lemma ObservingAgain<T(!new)>(obs: seq<Listed<T>>, e: Listed<T>)
    ensures Observed(obs + [e] + [e] + [e]) == Observed(obs + [e] + [e])
    ensures Regular(obs + [e]) ==>
              forall t :: Data(Lookup(Observed(obs + [e] + [e]), t)) == Data(Lookup(Observed(obs + [e]), t))
  {
    hide Regular, Record, HasUpdate, Appearance;
    var once, twice, thrice := obs + [e], obs + [e] + [e], obs + [e] + [e] + [e];
    assert twice[..|once|] == once && thrice[..|twice|] == twice;
    ObservedSorted(once);
    ObservedSorted(twice);
    RecordUpdates(Observed(once), e);
    RecordPresent(Observed(twice), e);
    if Regular(once) {
      forall t ensures Data(Lookup(Observed(twice), t)) == Data(Lookup(Observed(once), t)) {
        RegularAgain(obs, e);
        HistoryAnswers(once, t);
        HistoryAnswers(twice, t);
        AppearanceAgain(obs, e, t);
      }
    }
  }

  lemma AppearanceAgain<T>(obs: seq<Listed<T>>, e: Listed<T>, t: int)
    ensures Appearance(obs + [e] + [e], t) == Appearance(obs + [e], t)
  {
    var once, twice := obs + [e], obs + [e] + [e];
    assert twice[..|once|] == once && twice[|once|] == e && once[|obs|] == e;
  }

  /** A whole listing that names each thing at most once, collected again, is invisible to every lookup. */
  lemma ListingAgain<T(!new)>(seen: seq<Listed<T>>, listing: seq<Listed<T>>, guid: string, t: int)
    requires Regular(Filter(OfGuid(guid), seen + listing)) && |Filter(OfGuid(guid), listing)| <= 1
    ensures Data(Lookup(VersionsOf(RecordAll(map[], seen + listing + listing), guid), t))
         == Data(Lookup(VersionsOf(RecordAll(map[], seen + listing), guid), t))
  {
    hide Regular, RecordAll, Observed, Lookup;
    RecordAllByGuid(seen + listing, guid);
    RecordAllByGuid(seen + listing + listing, guid);
    FilterConcat(OfGuid(guid), seen, listing);
    FilterConcat(OfGuid(guid), seen + listing, listing);
    var mine, latest := Filter(OfGuid(guid), seen), Filter(OfGuid(guid), listing);
    if latest == [] {
      assert mine + latest + latest == mine + latest;
    } else {
      assert latest == [latest[0]];
      ObservingAgain(mine, latest[0]);
    }
  }

  lemma RegularAgain<T(!new)>(obs: seq<Listed<T>>, e: Listed<T>)
    requires Regular(obs + [e])
    ensures Regular(obs + [e] + [e])
  {
    var once, twice := obs + [e], obs + [e] + [e];
    assert forall i :: 0 <= i < |twice| ==> twice[i] == if i < |once| then once[i] else once[|obs|];
  }
}
