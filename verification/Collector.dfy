/** The collector as it runs: `eventcollector.EventCollector`, the fetcher and client it calls, and the
    store it writes to. */
module Collector {
  import opened Base
  import opened Replication

  /** What one wake-up of the collector meets: the upstream log when the page is read, the time when it is
      cut, and the failures on the way. */
  datatype WakeUp = WakeUp(readable: bool, log: seq<UsageEvent>, reachable: bool, now: int, commit: CommitResult)

  /** One turn of `Run` on values. */
  function Wake(s: Settings, table: seq<RawEvent>, state: State, w: WakeUp): Collected {
    if !w.readable then Collected(table, Scheduled, Err("read failed"))
    else
      match Respond(s, table, w.log, w.reachable)
      case Err(e) => Collected(table, Scheduled, Err(e))
      case Ok(page) => Finish(s, table, state, page, w.now - s.MinAge(), w.commit)
  }

  function BatchSize(c: Collected): nat {
    match c.batch case Ok(batch) => |batch| case Err(_) => 0
  }

  /** Several turns: the final table and state, and how many events were counted. */
  function Wakes(s: Settings, table: seq<RawEvent>, state: State, ws: seq<WakeUp>): (seq<RawEvent>, State, nat) {
    if ws == [] then (table, state, 0)
    else
      var (t, st, n) := Wakes(s, table, state, ws[..|ws| - 1]);
      var c := Wake(s, t, st, ws[|ws| - 1]);
      (c.table, c.state, n + BatchSize(c))
  }

  /** The turn stored a batch, and the batch does not end with the event it started after. */
  predicate StoredNew(s: Settings, table: seq<RawEvent>, w: WakeUp) {
    var batch := Wake(s, table, Syncing, w).batch;
    && batch.Ok? && batch.value != []
    && (table == [] || batch.value[|batch.value| - 1].guid != table[|table| - 1].guid)
  }

  /** That alone decides the next state, whatever the state before. */
  lemma WakeState(s: Settings, table: seq<RawEvent>, state: State, w: WakeUp)
    ensures Wake(s, table, state, w).state == if StoredNew(s, table, w) then Collecting else Scheduled
    ensures Wake(s, table, state, w).batch == Wake(s, table, Syncing, w).batch
    ensures Wake(s, table, state, w).table == Wake(s, table, Syncing, w).table
  {
    hide Respond, MaturePrefix, ToRaws, StoreAll;
  }

  /** A turn that gets a page is a request and, after whatever the world does meanwhile, its delivery. */
  lemma WakeIsRequestThenDeliver(s: Settings, w: World, u: World, reachable: bool, commit: CommitResult)
    requires w.page.None? && Respond(s, w.table, w.log, reachable).Ok?
    requires u.page == Next(s, w, Request(reachable)).page && u.table == w.table && u.state == w.state
    ensures var c := Wake(s, w.table, w.state, WakeUp(true, w.log, reachable, u.now, commit));
            Next(s, u, Deliver(commit)) == u.(table := c.table, state := c.state, page := None)
  {
  }

  // ----- Every run of the collector is a run of the protocol -----

  /** The upstream log and the time. */
  datatype Moment = Moment(log: seq<UsageEvent>, now: int)

  function Idle(m: Moment): World {
    World(m.log, m.now, [], Syncing, None)
  }

  /** Upstream commits an entry, or time passes. */
  ghost predicate ElapsesBy(s: Settings, lag: int, m: Moment, k: Moment, a: Action) {
    (a.Tick? || a.LateCommit?) && Legal(s, lag, Idle(m), a) && Idle(k) == Next(s, Idle(m), a)
  }

  ghost predicate Elapses(s: Settings, lag: int, m: Moment, k: Moment) {
    exists a :: ElapsesBy(s, lag, m, k, a)
  }

  ghost predicate Evolves(s: Settings, lag: int, ms: seq<Moment>) {
    |ms| > 0 && forall i :: 0 < i < |ms| ==> Elapses(s, lag, ms[i - 1], ms[i])
  }

  /** A wake-up, what happened upstream between the turn before and the reading of its page, and what
      happened then until the page was cut. */
  datatype TimedWakeUp = TimedWakeUp(wake: WakeUp, before: seq<Moment>, during: seq<Moment>)

  function EndOf(t: TimedWakeUp): Moment {
    if t.during == [] then Moment(t.wake.log, t.wake.now) else t.during[|t.during| - 1]
  }

  ghost predicate Fits(s: Settings, lag: int, start: Moment, t: TimedWakeUp) {
    && Evolves(s, lag, t.before) && Evolves(s, lag, t.during)
    && t.before[0] == start && t.during[0] == t.before[|t.before| - 1]
    && t.during[0].log == t.wake.log && EndOf(t).now == t.wake.now
    && lag + (t.wake.now - t.during[0].now) <= s.MinAge()
  }

  function MomentAfter(start: Moment, ts: seq<TimedWakeUp>): Moment {
    if ts == [] then start else EndOf(ts[|ts| - 1])
  }

  ghost predicate Timed(s: Settings, lag: int, start: Moment, ts: seq<TimedWakeUp>) {
    forall i :: 0 <= i < |ts| ==> Fits(s, lag, MomentAfter(start, ts[..i]), ts[i])
  }

  function WakeUps(ts: seq<TimedWakeUp>): seq<WakeUp> {
    Map((t: TimedWakeUp) => t.wake, ts)
  }

  function At(w: World, m: Moment): World {
    w.(log := m.log, now := m.now)
  }

  lemma {:induction false} EvolvesKeeps(s: Settings, lag: int, w: World, ms: seq<Moment>, n: nat)
    requires lag <= s.MinAge() && Evolves(s, lag, ms) && n < |ms| && Inv(s, lag, At(w, ms[0]))
    ensures Inv(s, lag, At(w, ms[n]))
  {
    hide Inv;
    if n > 0 {
      EvolvesKeeps(s, lag, w, ms, n - 1);
      var a :| ElapsesBy(s, lag, ms[n - 1], ms[n], a);
      ActionKeeps(s, lag, At(w, ms[n - 1]), a);
    }
  }

  lemma StateDoesNotMatter(s: Settings, lag: int, w: World, state: State)
    requires Inv(s, lag, w)
    ensures Inv(s, lag, w.(state := state))
  {
  }

  lemma TurnKeeps(s: Settings, lag: int, w: World, t: TimedWakeUp)
    requires lag <= s.MinAge() && Inv(s, lag, w) && w.page.None?
    requires Fits(s, lag, Moment(w.log, w.now), t)
    ensures var c := Wake(s, w.table, w.state, t.wake);
            Inv(s, lag, World(EndOf(t).log, EndOf(t).now, c.table, c.state, None))
  {
    hide Inv, Finish, Respond, Evolves;
    Nonempty(s, lag, t);
    var read, cut := t.during[0], EndOf(t);
    assert At(w, t.before[0]) == w;
    EvolvesKeeps(s, lag, w, t.before, |t.before| - 1);
    var atRead := At(w, read);
    var c := Wake(s, w.table, w.state, t.wake);
    if t.wake.readable && Respond(s, w.table, read.log, t.wake.reachable).Ok? {
      RequestKeeps(s, lag, atRead, t.wake.reachable);
      var asked := Next(s, atRead, Request(t.wake.reachable));
      assert At(asked, t.during[0]) == asked;
      EvolvesKeeps(s, lag, asked, t.during, |t.during| - 1);
      var u := At(asked, cut);
      AcceptedPage(s, w.table, read.log, t.wake.reachable);
      ActionKeeps(s, lag, u, Deliver(t.wake.commit));
      WakeIsRequestThenDeliver(s, atRead, u, t.wake.reachable, t.wake.commit);
      assert WakeUp(true, atRead.log, t.wake.reachable, u.now, t.wake.commit) == t.wake;
    } else {
      EvolvesKeeps(s, lag, atRead, t.during, |t.during| - 1);
      StateDoesNotMatter(s, lag, At(atRead, cut), c.state);
    }
  }

  lemma Nonempty(s: Settings, lag: int, t: TimedWakeUp)
    requires Evolves(s, lag, t.before) && Evolves(s, lag, t.during)
    ensures |t.before| > 0 && |t.during| > 0
  {
  }

  lemma AcceptedPage(s: Settings, table: seq<RawEvent>, log: seq<UsageEvent>, reachable: bool)
    ensures Respond(s, table, log, reachable).Ok? ==> s.Accepted()
  {
  }

  /** The stored events are the beginning of a log without repetitions, and none is younger than `lag`. */
  ghost predicate Settled(s: Settings, lag: int, table: seq<RawEvent>, m: Moment) {
    && DistinctEntries(m.log) && Prefix(s, table, m.log)
    && forall i :: 0 <= i < |table| ==> m.log[i].createdAt <= m.now - lag
  }

  lemma EmptyIsSettled(s: Settings, lag: int, m: Moment)
    requires DistinctEntries(m.log)
    ensures Settled(s, lag, [], m)
  {
  }

  lemma SettledIsInv(s: Settings, lag: int, table: seq<RawEvent>, m: Moment, state: State)
    ensures Settled(s, lag, table, m) <==> Inv(s, lag, World(m.log, m.now, table, state, None))
  {
  }

  lemma {:induction false} WakesKeep(s: Settings, lag: int, table: seq<RawEvent>, start: Moment, ts: seq<TimedWakeUp>,
      state: State)
    requires lag <= s.MinAge() && Settled(s, lag, table, start) && Timed(s, lag, start, ts)
    ensures Settled(s, lag, Wakes(s, table, state, WakeUps(ts)).0, MomentAfter(start, ts))
  {
    hide Settled, Inv, Wake, Fits, EndOf;
    if ts != [] {
      var front, t := ts[..|ts| - 1], ts[|ts| - 1];
      assert forall i :: 0 <= i < |front| ==> front[..i] == ts[..i];
      WakesKeep(s, lag, table, start, front, state);
      assert WakeUps(ts)[..|ts| - 1] == WakeUps(front);
      var (stored, st, n) := Wakes(s, table, state, WakeUps(front));
      var m := MomentAfter(start, front);
      SettledIsInv(s, lag, stored, m, st);
      TurnKeeps(s, lag, World(m.log, m.now, stored, st, None), t);
      var c := Wake(s, stored, st, t.wake);
      SettledIsInv(s, lag, c.table, EndOf(t), c.state);
    }
  }

  /** Whatever the wake-ups meet (tables that cannot be read, failed fetches, refused, rolled-back and ambiguous
      stores) and whatever upstream commits within `lag` before and during them, the events stored by any
      number of turns stay a duplicate-free beginning of the upstream log, from one process to the next: a
      table that is settled when the collector starts, as an empty one is, is settled when it stops. */
  lemma CollectorIsSafe(s: Settings, lag: int, table: seq<RawEvent>, start: Moment, ts: seq<TimedWakeUp>, state: State)
    requires lag <= s.MinAge() && Settled(s, lag, table, start) && Timed(s, lag, start, ts)
    ensures Settled(s, lag, Wakes(s, table, state, WakeUps(ts)).0, MomentAfter(start, ts))
    ensures Distinct(Wakes(s, table, state, WakeUps(ts)).0)
    ensures Verbatim(s.kind, Wakes(s, table, state, WakeUps(ts)).0, MomentAfter(start, ts).log)
  {
    WakesKeep(s, lag, table, start, ts, state);
    PrefixIsVerbatim(s, Wakes(s, table, state, WakeUps(ts)).0, MomentAfter(start, ts).log);
  }

  // ----- The code as it runs -----

  /** `usageEventsAPI.Get`, from the decoded response on: the list is cut at the first young record. */
  method Get(response: seq<UsageEvent>, minAge: int, now: int) returns (resources: seq<UsageEvent>)
    ensures resources == MaturePrefix(response, now - minAge)
  {
    resources := response;
    var t := now - minAge;
    var i := 0;
    while i < |response|
      invariant 0 <= i <= |response|
      invariant resources == response
      invariant MaturePrefix(response, t) == response[..i] + MaturePrefix(response[i..], t)
    {
      assert response[i..][1..] == response[i + 1..];
      if response[i].createdAt > t {
        resources := response[..i];
        break;
      }
      i := i + 1;
    }
    assert i == |response| ==> response[..i] == response;
  }

  /** `FetchEvents` */
  method FetchEvents(s: Settings, last: Option<RawEvent>, w: WakeUp) returns (r: Result<seq<RawEvent>>)
    ensures r == match Respond(s, if last.Some? then [last.value] else [], w.log, w.reachable)
                 case Err(e) => Err(e)
                 case Ok(page) => Ok(ToRaws(s.kind, MaturePrefix(page, w.now - s.MinAge())))
    ensures r.Ok? ==>
              var page := MaturePrefix(Respond(s, if last.Some? then [last.value] else [], w.log, w.reachable).value,
                                       w.now - s.MinAge());
              |r.value| == |page| && Verbatim(s.kind, r.value, page)
  {
    hide After, MaturePrefix, Take, ToRaw;
    var guid := GUID_NIL;
    if last.Some? {
      if last.value.guid == "" {
        return Err("invalid GUID");
      }
      guid := last.value.guid;
    }
    var fetchLimit := s.fetchLimit;
    if fetchLimit < 1 {
      fetchLimit := DEFAULT_FETCH_LIMIT;
    }
    if fetchLimit < 1 || fetchLimit > 100 {
      return Err("fetch limit or age");
    }
    var recordMinAge := s.recordMinAge;
    if s.recordMinAge == 0 {
      recordMinAge := DEFAULT_RECORD_MIN_AGE;
    }
    if recordMinAge < DEFAULT_RECORD_MIN_AGE {
      return Err("fetch limit or age");
    }
    if !w.reachable {
      return Err("error fetching");
    }
    var rest := After(w.log, guid);
    if rest.Err? {
      return Err(rest.error);
    }
    var usageEvents := Get(Take(rest.value, fetchLimit), recordMinAge, w.now);
    var events := Convert(s.kind, usageEvents);
    r := Ok(events);
  }

  /** The loop that builds the raw events. */
  method Convert(kind: string, usageEvents: seq<UsageEvent>) returns (events: seq<RawEvent>)
    ensures events == ToRaws(kind, usageEvents)
    ensures |events| == |usageEvents| && Verbatim(kind, events, usageEvents)
  {
    events := [];
    var i := 0;
    while i < |usageEvents|
      invariant 0 <= i <= |usageEvents| && |events| == i && Verbatim(kind, events, usageEvents)
      invariant events == ToRaws(kind, usageEvents[..i])
    {
      events := events + [ToRaw(kind, usageEvents[i])];
      i := i + 1;
    }
    assert usageEvents[..i] == usageEvents;
  }

  /** The event table of one kind. */
  class RawEventStore {
    var table: seq<RawEvent>

    constructor ()
      ensures table == []
    {
      table := [];
    }

    /** `GetEvents` with a limit of one */
    method GetLastEvent() returns (r: Option<RawEvent>)
      ensures r.None? <==> table == []
      ensures r.Some? ==> table == table[..|table| - 1] + [r.value]
    {
      r := if table == [] then None else Some(table[|table| - 1]);
    }

    /** `StoreEvents`: one transaction, all events or none. */
    method StoreEvents(events: seq<RawEvent>, commit: CommitResult) returns (r: Outcome)
      modifies this
      ensures r.Done? <==> StoreAll(old(table), events).Ok? && commit.Committed?
      ensures r.Failed? ==> r.error == match StoreAll(old(table), events) case Err(e) => e case Ok(_) => "commit failed"
      ensures table == if StoreAll(old(table), events).Ok? && !commit.RolledBack?
                       then StoreAll(old(table), events).value else old(table)
    {
      var saved := table;
      var i := 0;
      while i < |events|
        invariant 0 <= i <= |events|
        invariant StoreAll(table, events[i..]) == StoreAll(saved, events)
        invariant saved == old(table)
      {
        assert events[i..][1..] == events[i + 1..];
        if !Storable(events[i]) {
          table := saved;
          return Failed("invalid event");
        }
        table := InsertEvent(table, events[i]);
        i := i + 1;
      }
      if commit.RolledBack? {
        table := saved;
      }
      r := if commit.Committed? then Done else Failed("commit failed");
    }
  }

  class EventCollector {
    var state: State
    var eventsCollected: nat
    const schedule: int
    const minWaitTime: int
    const initialWaitTime: int
    const settings: Settings
    const store: RawEventStore

    /** `New` copies every field of its configuration except the initial wait, which stays zero. */
    constructor (settings: Settings, store: RawEventStore, schedule: int, minWaitTime: int)
      ensures state == Syncing && eventsCollected == 0 && initialWaitTime == 0 && WaitDuration() == 0
      ensures this.settings == settings && this.store == store
      ensures this.schedule == schedule && this.minWaitTime == minWaitTime
    {
      state, eventsCollected := Syncing, 0;
      this.settings, this.store, this.schedule, this.minWaitTime := settings, store, schedule, minWaitTime;
      initialWaitTime := 0;
    }

    function WaitDuration(): int
      reads this
    {
      match state
      case Syncing => initialWaitTime
      case Collecting => minWaitTime
      case Scheduled => schedule
    }

    /** `collect`: on an error the state is left for `Run` to set. */
    method Collect(w: WakeUp) returns (r: Result<seq<RawEvent>>)
      modifies this`state, store
      ensures r == Wake(settings, old(store.table), old(state), w).batch
      ensures store.table == Wake(settings, old(store.table), old(state), w).table
      ensures state == if r.Ok? then Wake(settings, old(store.table), old(state), w).state else old(state)
      ensures r.Ok? ==> WaitDuration() == if StoredNew(settings, old(store.table), w) then minWaitTime else schedule
    {
      hide StoreAll, After, MaturePrefix, Take;
      if !w.readable {
        return Err("read failed");
      }
      var lastEvent := store.GetLastEvent();
      r := FetchEvents(settings, lastEvent, w);
      if r.Err? {
        return;
      }
      var stored := store.StoreEvents(r.value, w.commit);
      if stored.Failed? {
        return Err(stored.error);
      }
      if |r.value| == 0 {
        state := Scheduled;
      } else if |r.value| > 0 && lastEvent.Some? && r.value[|r.value| - 1].guid == lastEvent.value.guid {
        state := Scheduled;
      } else {
        state := Collecting;
      }
    }

    /** `Run`, for as many wake-ups as it is given. */
    method Run(ws: seq<WakeUp>)
      modifies this`state, this`eventsCollected, store
      ensures (store.table, state, eventsCollected - old(eventsCollected))
           == Wakes(settings, old(store.table), old(state), ws)
      ensures ws != [] ==>
                WaitDuration() == if StoredNew(settings,
                    Wakes(settings, old(store.table), old(state), ws[..|ws| - 1]).0, ws[|ws| - 1])
                                  then minWaitTime else schedule
      ensures forall lag: int, start: Moment, ts: seq<TimedWakeUp> ::
                lag <= settings.MinAge() && Settled(settings, lag, old(store.table), start)
                && Timed(settings, lag, start, ts) && WakeUps(ts) == ws ==>
                  && Settled(settings, lag, store.table, MomentAfter(start, ts)) && Distinct(store.table)
                  && Verbatim(settings.kind, store.table, MomentAfter(start, ts).log)
    {
      hide Wake;
      var n := 0;
      assert ws[..0] == [];
      while n < |ws|
        invariant 0 <= n <= |ws|
        invariant (store.table, state, eventsCollected - old(eventsCollected))
               == Wakes(settings, old(store.table), old(state), ws[..n])
      {
        assert ws[..n + 1][..n] == ws[..n];
        var collected := Collect(ws[n]);
        match collected {
          case Err(e) =>
            state := Scheduled;
            FailedWake(settings, Wakes(settings, old(store.table), old(state), ws[..n]).0,
                       Wakes(settings, old(store.table), old(state), ws[..n]).1, ws[n]);
          case Ok(events) =>
            eventsCollected := eventsCollected + |events|;
        }
        n := n + 1;
      }
      assert ws[..n] == ws;
      if ws != [] {
        var before := Wakes(settings, old(store.table), old(state), ws[..|ws| - 1]);
        WakeState(settings, before.0, before.1, ws[|ws| - 1]);
      }
      RunIsSafe(settings, old(store.table), old(state), ws);
    }
  }

  lemma RunIsSafe(s: Settings, table: seq<RawEvent>, state: State, ws: seq<WakeUp>)
    ensures forall lag: int, start: Moment, ts: seq<TimedWakeUp> ::
              lag <= s.MinAge() && Settled(s, lag, table, start) && Timed(s, lag, start, ts) && WakeUps(ts) == ws ==>
                && Settled(s, lag, Wakes(s, table, state, ws).0, MomentAfter(start, ts))
                && Distinct(Wakes(s, table, state, ws).0)
                && Verbatim(s.kind, Wakes(s, table, state, ws).0, MomentAfter(start, ts).log)
  {
    forall lag: int, start: Moment, ts: seq<TimedWakeUp>
      | lag <= s.MinAge() && Settled(s, lag, table, start) && Timed(s, lag, start, ts) && WakeUps(ts) == ws
      ensures Settled(s, lag, Wakes(s, table, state, ws).0, MomentAfter(start, ts))
      ensures Distinct(Wakes(s, table, state, ws).0)
      ensures Verbatim(s.kind, Wakes(s, table, state, ws).0, MomentAfter(start, ts).log)
    {
      CollectorIsSafe(s, lag, table, start, ts, state);
    }
  }

  lemma FailedWake(s: Settings, table: seq<RawEvent>, state: State, w: WakeUp)
    ensures Wake(s, table, state, w).batch.Err? ==> Wake(s, table, state, w).state == Scheduled
  {
  }
}
