/** The loop from one end to the other: what the bills that it consolidates charge for, in terms of the log. */
module EndToEnd {
  import opened Base
  import opened EventFilters
  import opened EventLog
  import opened Events
  import opened Components
  import opened ComponentTable
  import opened Database
  import opened Pipeline
  import opened Store
  import Bills
  import Consolidation

  /** The table charges at `t`, for the resource and event type `k`, exactly what the replay of the log finds
      running, as is due under these names and this catalogue, and charges no guid that is not running. */
  ghost predicate ChargesReplay(table: seq<ComponentRow>, log: Log, names: Names, cat: Catalogue, now: int, k: Key,
      t: int) {
    && (forall u :: u in Usages(log, now) && KeyOf(u.event) == k ==>
          ChargesFor(table, u.event.guid, t)
              == if u in Running(log, now, k, t) then Due(cat, Named(names, u), t) else [])
    && (forall guid :: !RunningGuid(log, now, t, guid) ==> ChargesFor(table, guid, t) == [])
  }

  /** A successful refresh leaves the events rebuilt from the log and names that its first transaction saw, and
      the components rebuilt from those events and the catalogue that its second transaction left. */
  lemma RefreshedTables(db: Db, ignoreMissing: bool, w: Weather)
    requires Refreshed(db, ignoreMissing, w).1
    ensures var d := Refreshed(db, ignoreMissing, w).0;
            && CreateEvents(w.between1.0, w.between1.1, w.now) == Ok(d.events)
            && BuildComponents(d.cat, d.events) == Ok(d.components)
  {
    hide CreateEvents, BuildComponents, Plans.GenerateMissingPlans, Plans.PlansConsistent;
  }

  /** After a successful refresh the component table charges, at every instant before it, exactly what the replay
      of the log that it read finds running. */
  lemma RefreshCharges(db: Db, ignoreMissing: bool, w: Weather, k: Key, t: int)
    requires Sound(db) && w.Legal() && Ordered(w.between1.0) && t < w.now
    requires Refreshed(db, ignoreMissing, w).1
    ensures var d := Refreshed(db, ignoreMissing, w).0;
            ChargesReplay(d.components, w.between1.0, w.between1.1, d.cat, w.now, k, t)
  {
    hide Sound, Fresh, Refreshed, CreateEvents, BuildComponents, Usages, Running, RunningGuid, Due, Named, ChargesFor;
    RefreshedIsFresh(db, ignoreMissing, w);
    RefreshedTables(db, ignoreMissing, w);
    SoundParts(Refreshed(db, ignoreMissing, w).0);
    LogToCharges(w.between1.0, w.between1.1, Refreshed(db, ignoreMissing, w).0.cat, w.now, k, t);
  }

  /** Every month that the loop ever consolidates reads back, for every choice of organisations, as the bill of
      components that charge, at every instant before the refresh of that turn, exactly what the replay of the
      log of that moment finds running. */
  lemma LoopConsolidatesCharges(db: Db, ignoreMissing: bool, turns: seq<Turn>, m: int, orgs: seq<string>)
    returns (n: nat, current: Db)
    requires Sound(db)
    requires forall turn :: turn in turns ==> turn.weather.Legal() && Ordered(turn.weather.between1.0)
    requires Consolidation.MonthRange(m) !in db.cache.history
    requires Consolidation.MonthRange(m) in AfterTurns(db, ignoreMissing, turns).cache.history
    ensures n < |turns|
    ensures Consolidation.GetConsolidated(AfterTurns(db, ignoreMissing, turns).cache, MonthFilter(m, orgs))
         == Bills.Bill(current.components, MonthFilter(m, orgs))
    ensures forall k, t :: t < turns[n].weather.now ==>
              ChargesReplay(current.components, turns[n].weather.between1.0, turns[n].weather.between1.1,
                            current.cat, turns[n].weather.now, k, t)
  {
    hide Sound, Fresh, Refreshed, AfterTurn, Bills.Bill, ChargesReplay, Ordered;
    hide Consolidation.StoredRows, Consolidation.GetConsolidated;
    n, current := FreshTurn(db, ignoreMissing, turns, m);
    TurnsSound(db, ignoreMissing, turns);
    ReadBack(AfterTurns(db, ignoreMissing, turns), current.components, m, orgs);
    var w := turns[n].weather;
    forall k, t | t < w.now
      ensures ChargesReplay(current.components, w.between1.0, w.between1.1, current.cat, w.now, k, t)
    {
      RefreshCharges(AfterTurns(db, ignoreMissing, turns[..n]), ignoreMissing, w, k, t);
    }
  }
}
