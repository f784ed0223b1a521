/** Copying the upstream log of usage events, page by page: what the collector, the fetcher, the API
    client and the store compute, and what every run of them keeps. */
module Replication {
  import opened Base

  /** An entry of the upstream log as the API returns it. */
  datatype UsageEvent = UsageEvent(guid: string, createdAt: int, entity: string)

  datatype RawEvent = RawEvent(guid: string, kind: string, createdAt: int, rawMessage: string)

  /** Asks the API for the log from its beginning. */
  const GUID_NIL := "GUID_NIL"

  const DEFAULT_RECORD_MIN_AGE := 300_000_000
  const DEFAULT_FETCH_LIMIT := 50

  /** Go's zero time, 0001-01-01. */
  const ZERO_TIME := -62_135_596_800_000_000

  datatype Settings = Settings(kind: string, fetchLimit: int, recordMinAge: int) {
    function Limit(): int {
      if fetchLimit < 1 then DEFAULT_FETCH_LIMIT else fetchLimit
    }

    function MinAge(): int {
      if recordMinAge == 0 then DEFAULT_RECORD_MIN_AGE else recordMinAge
    }

    /** `FetchEvents` refuses anything else. */
    predicate Accepted() {
      1 <= Limit() <= 100 && DEFAULT_RECORD_MIN_AGE <= MinAge()
    }
  }

  /** A fetch is refused if it asks for more than 100 entries at once or for any younger than five minutes. */
  lemma AcceptedSettings(s: Settings)
    ensures s.Accepted() <==> s.fetchLimit <= 100 && (s.recordMinAge == 0 || s.recordMinAge >= 5 * 60 * 1_000_000)
    ensures s.Accepted() ==> s.Limit() == (if s.fetchLimit >= 1 then s.fetchLimit else 50)
    ensures s.Accepted() ==> s.MinAge() == (if s.recordMinAge == 0 then 5 * 60 * 1_000_000 else s.recordMinAge)
  {
  }

  // ----- The upstream API -----

  function IndexOf(log: seq<UsageEvent>, guid: string): (r: Option<nat>)
    ensures r.Some? ==> r.value < |log| && log[r.value].guid == guid
  {
    if log == [] then None
    else if log[0].guid == guid then Some(0)
    else match IndexOf(log[1..], guid) case None => None case Some(i) => Some(i + 1)
  }

  /** `after_guid`; the API rejects a guid it does not know. */
  function After(log: seq<UsageEvent>, guid: string): Result<seq<UsageEvent>> {
    if guid == GUID_NIL then Ok(log)
    else match IndexOf(log, guid) case None => Err("unknown guid") case Some(i) => Ok(log[i + 1..])
  }

  function Take<T>(xs: seq<T>, n: nat): seq<T> {
    if |xs| <= n then xs else xs[..n]
  }

  /** The entries before the first one created after `t`. */
  function MaturePrefix(xs: seq<UsageEvent>, t: int): seq<UsageEvent> {
    if xs == [] || t < xs[0].createdAt then [] else [xs[0]] + MaturePrefix(xs[1..], t)
  }

  /** The rows of one event table in `id` order: `order by id desc limit 1` */
  function LastEvent(table: seq<RawEvent>): Option<RawEvent> {
    if table == [] then None else Some(table[|table| - 1])
  }

  /** `FetchEvents` up to the response: settings and cursor are checked, then a page is requested. */
  function Respond(s: Settings, table: seq<RawEvent>, log: seq<UsageEvent>, reachable: bool): Result<seq<UsageEvent>> {
    var last := LastEvent(table);
    if last.Some? && last.value.guid == "" then Err("invalid GUID")
    else if !s.Accepted() then Err("fetch limit or age")
    else if !reachable then Err("error fetching")
    else
      match After(log, if last.Some? then last.value.guid else GUID_NIL)
      case Err(e) => Err(e)
      case Ok(rest) => Ok(Take(rest, s.Limit()))
  }

  function ToRaw(kind: string, u: UsageEvent): RawEvent {
    RawEvent(u.guid, kind, u.createdAt, u.entity)
  }

  function ToRaws(kind: string, us: seq<UsageEvent>): seq<RawEvent> {
    Map((u: UsageEvent) => ToRaw(kind, u), us)
  }

  // ----- The store -----

  /** The store refuses an entry without a guid or a message, one of Go's zero time, one of another kind, and of
      the kind `app` one that is not after the epoch. */
  lemma StorableEntry(kind: string, u: UsageEvent)
    ensures Storable(ToRaw(kind, u)) <==>
            && u.guid != "" && u.entity != "" && u.createdAt != -62_135_596_800 * 1_000_000
            && (kind == "service" || (kind == "app" && u.createdAt > 0))
  {
  }

  /** `event.Validate()`, the switch on the kind, and the check constraint of `app_usage_events`. */
  predicate Storable(e: RawEvent) {
    && e.guid != "" && e.kind != "" && e.createdAt != ZERO_TIME && e.rawMessage != ""
    && (e.kind == "service" || (e.kind == "app" && e.createdAt > 0))
  }

  /** `insert ... on conflict do nothing` */
  function InsertEvent(table: seq<RawEvent>, e: RawEvent): seq<RawEvent> {
    if exists i :: 0 <= i < |table| && table[i].guid == e.guid then table else table + [e]
  }

  /** All of a batch, or an error. */
  function StoreAll(table: seq<RawEvent>, batch: seq<RawEvent>): Result<seq<RawEvent>>
    decreases |batch|
  {
    if batch == [] then Ok(table)
    else if !Storable(batch[0]) then Err("invalid event")
    else StoreAll(InsertEvent(table, batch[0]), batch[1..])
  }

  /** How a commit can end: it may take effect although an error is reported. */
  datatype CommitResult = Committed | RolledBack | CommittedButReportedFailed

  datatype State = Syncing | Scheduled | Collecting

  /** The table, the collector's state, and the batch or error that `collect` returns, once the response
      has been cut at `cut`. */
  datatype Collected = Collected(table: seq<RawEvent>, state: State, batch: Result<seq<RawEvent>>)

  function Finish(s: Settings, table: seq<RawEvent>, state: State, page: seq<UsageEvent>, cut: int,
      commit: CommitResult): Collected {
    var batch := ToRaws(s.kind, MaturePrefix(page, cut));
    match StoreAll(table, batch)
    case Err(e) => Collected(table, Scheduled, Err(e))
    case Ok(stored) =>
      if commit.RolledBack? then Collected(table, Scheduled, Err("commit failed"))
      else if commit.CommittedButReportedFailed? then Collected(stored, Scheduled, Err("commit failed"))
      else
        var last := LastEvent(table);
        Collected(stored,
                  if batch == [] then Scheduled
                  else if last.Some? && batch[|batch| - 1].guid == last.value.guid then Scheduled
                  else Collecting,
                  Ok(batch))
  }

  // ----- The world the collector runs in -----

  /** A page on its way, and when it was read upstream. */
  datatype Page = Page(entries: seq<UsageEvent>, readAt: int)

  datatype World = World(log: seq<UsageEvent>, now: int, table: seq<RawEvent>, state: State, page: Option<Page>)

  datatype Action =
    | Tick(to: int)
    | LateCommit(at: nat, entry: UsageEvent)
    | Request(reachable: bool)
    | Deliver(commit: CommitResult)

  /** Upstream transactions commit within `lag`: a new entry is never placed before one older than that.
      Pages are processed within `minAge - lag` of being read. */
  ghost predicate Legal(s: Settings, lag: int, w: World, a: Action) {
    match a
    case Tick(to) => w.now <= to
    case LateCommit(at, e) =>
      && at <= |w.log|
      && (forall i :: 0 <= i < |w.log| && w.log[i].createdAt <= w.now - lag ==> i < at)
      && e.guid != "" && e.guid != GUID_NIL
      && forall i :: 0 <= i < |w.log| ==> w.log[i].guid != e.guid
    case Request(_) => w.page.None?
    case Deliver(_) => w.page.Some? && s.Accepted() && lag + (w.now - w.page.value.readAt) <= s.MinAge()
  }

  function Next(s: Settings, w: World, a: Action): World {
    match a
    case Tick(to) => w.(now := to)
    case LateCommit(at, e) => w.(log := if at <= |w.log| then w.log[..at] + [e] + w.log[at..] else w.log)
    case Request(reachable) =>
      (match Respond(s, w.table, w.log, reachable)
       case Err(_) => w.(state := Scheduled)
       case Ok(page) => w.(page := Some(Page(page, w.now))))
    case Deliver(commit) =>
      if w.page.None? then w
      else
        var r := Finish(s, w.table, w.state, w.page.value.entries, w.now - s.MinAge(), commit);
        w.(table := r.table, state := r.state, page := None)
  }

  ghost predicate DistinctEntries(log: seq<UsageEvent>) {
    && (forall i, j :: 0 <= i < j < |log| ==> log[i].guid != log[j].guid)
    && (forall i :: 0 <= i < |log| ==> log[i].guid != "" && log[i].guid != GUID_NIL)
  }

  /** The stored table is the beginning of the upstream log. */
  ghost predicate Prefix(s: Settings, table: seq<RawEvent>, log: seq<UsageEvent>) {
    |table| <= |log| && table == ToRaws(s.kind, log[..|table|])
  }

  /** The stored row is the upstream entry, column by column. */
  ghost predicate Copies(kind: string, e: RawEvent, u: UsageEvent) {
    e.guid == u.guid && e.kind == kind && e.createdAt == u.createdAt && e.rawMessage == u.entity
  }

  /** The stored rows are the first entries of the log, one by one and as they are. */
  ghost predicate Verbatim(kind: string, table: seq<RawEvent>, entries: seq<UsageEvent>) {
    |table| <= |entries| && forall i :: 0 <= i < |table| ==> Copies(kind, table[i], entries[i])
  }

  lemma PrefixIsVerbatim(s: Settings, table: seq<RawEvent>, log: seq<UsageEvent>)
    ensures Prefix(s, table, log) <==> Verbatim(s.kind, table, log)
  {
    if Verbatim(s.kind, table, log) {
      assert forall i :: 0 <= i < |table| ==> table[i] == ToRaws(s.kind, log[..|table|])[i];
    } else if |table| <= |log| {
      var i :| 0 <= i < |table| && !Copies(s.kind, table[i], log[i]);
      assert table[i] != ToRaws(s.kind, log[..|table|])[i];
    }
  }

  /** What every run keeps. Of a page on its way, the part that was already settled when it was read is
      still what follows the stored events. */
  ghost predicate Inv(s: Settings, lag: int, w: World) {
    && DistinctEntries(w.log)
    && Prefix(s, w.table, w.log)
    && (forall i :: 0 <= i < |w.table| ==> w.log[i].createdAt <= w.now - lag)
    && (w.page.Some? ==>
          && w.page.value.readAt <= w.now
          && MaturePrefix(w.page.value.entries, w.page.value.readAt - lag) <= w.log[|w.table|..])
  }

  // ----- Lemmas about the pieces -----

  lemma {:induction false} MaturePrefixMeaning(xs: seq<UsageEvent>, t: int)
    ensures MaturePrefix(xs, t) <= xs
    ensures forall i :: 0 <= i < |MaturePrefix(xs, t)| ==> xs[i].createdAt <= t
    ensures |MaturePrefix(xs, t)| < |xs| ==> t < xs[|MaturePrefix(xs, t)|].createdAt
  {
    if xs != [] && xs[0].createdAt <= t {
      MaturePrefixMeaning(xs[1..], t);
    }
  }

  /** Cutting earlier gives a shorter beginning of the same entries. */
  lemma {:induction false} MaturePrefixMonotone(xs: seq<UsageEvent>, t: int, u: int)
    requires t <= u
    ensures MaturePrefix(xs, t) <= MaturePrefix(xs, u)
  {
    if xs != [] && xs[0].createdAt <= t {
      MaturePrefixMonotone(xs[1..], t, u);
    }
  }

  lemma {:induction false} IndexOfDistinct(log: seq<UsageEvent>, n: nat)
    requires DistinctEntries(log) && n < |log|
    ensures IndexOf(log, log[n].guid) == Some(n)
  {
    if n > 0 {
      assert log[0].guid != log[n].guid;
      IndexOfDistinct(log[1..], n - 1);
    }
  }

  /** The cursor finds its place: the page continues right after the stored events. */
  lemma ResponseContinues(s: Settings, lag: int, w: World, reachable: bool)
    requires Inv(s, lag, w) && Respond(s, w.table, w.log, reachable).Ok?
    ensures Respond(s, w.table, w.log, reachable).value == Take(w.log[|w.table|..], s.Limit())
  {
    var n := |w.table|;
    if n > 0 {
      assert w.table[n - 1].guid == w.log[n - 1].guid;
      IndexOfDistinct(w.log, n - 1);
    }
  }

  /** ... and the API never rejects the cursor. */
  lemma RequestSucceeds(s: Settings, lag: int, w: World)
    requires Inv(s, lag, w) && s.Accepted()
    ensures Respond(s, w.table, w.log, true).Ok?
  {
    var n := |w.table|;
    if n > 0 {
      assert w.table[n - 1].guid == w.log[n - 1].guid;
      IndexOfDistinct(w.log, n - 1);
    }
  }

  lemma NewGuid(table: seq<RawEvent>, e: RawEvent, rest: seq<RawEvent>)
    requires forall i, j :: 0 <= i < j < |table + ([e] + rest)| ==>
               (table + ([e] + rest))[i].guid != (table + ([e] + rest))[j].guid
    ensures InsertEvent(table, e) == table + [e]
  {
    var all := table + ([e] + rest);
    assert all[|table|] == e;
    assert forall i :: 0 <= i < |table| ==> all[i] == table[i];
  }

  /** New entries are appended; either all of a batch is stored or it is an error. */
  lemma {:induction false} StoreAllFresh(table: seq<RawEvent>, batch: seq<RawEvent>)
    requires forall i, j :: 0 <= i < j < |table + batch| ==> (table + batch)[i].guid != (table + batch)[j].guid
    ensures StoreAll(table, batch).Ok? <==> forall i :: 0 <= i < |batch| ==> Storable(batch[i])
    ensures StoreAll(table, batch).Ok? ==> StoreAll(table, batch).value == table + batch
    decreases |batch|
  {
    hide InsertEvent, Storable;
    if batch != [] && Storable(batch[0]) {
      assert batch == [batch[0]] + batch[1..];
      NewGuid(table, batch[0], batch[1..]);
      assert (table + [batch[0]]) + batch[1..] == table + batch;
      StoreAllFresh(table + [batch[0]], batch[1..]);
      assert forall i :: 0 < i < |batch| ==> batch[i] == batch[1..][i - 1];
    }
  }

  /** Guids of a table. */
  function Guids(table: seq<RawEvent>): set<string> {
    set e | e in table :: e.guid
  }

  /** The table is as it was, with rows of the batch appended: of the guids that are new one row each. */
  ghost predicate Extends(table: seq<RawEvent>, batch: seq<RawEvent>, stored: seq<RawEvent>) {
    && table <= stored
    && Guids(stored) == Guids(table) + Guids(batch)
    && (forall e :: e in stored[|table|..] ==> e in batch)
    && (Distinct(table) ==> Distinct(stored))
  }

  lemma InsertExtends(table: seq<RawEvent>, e: RawEvent)
    ensures Extends(table, [e], InsertEvent(table, e))
  {
    var stored := InsertEvent(table, e);
    if i :| 0 <= i < |table| && table[i].guid == e.guid {
      assert table[i] in table;
      assert Guids(stored) == Guids(table) + {e.guid};
    } else {
      assert forall x :: x in stored <==> x in table || x == e;
      assert Guids(stored) == Guids(table) + {e.guid};
    }
    assert Guids([e]) == {e.guid};
  }

  lemma ExtendsTwice(table: seq<RawEvent>, e: RawEvent, rest: seq<RawEvent>, one: seq<RawEvent>, all: seq<RawEvent>)
    requires Extends(table, [e], one) && Extends(one, rest, all)
    ensures Extends(table, [e] + rest, all)
  {
    assert Guids([e] + rest) == Guids([e]) + Guids(rest);
    forall x | x in all[|table|..] ensures x in [e] + rest {
      var i :| |table| <= i < |all| && all[i] == x;
      if i < |one| {
        assert one[i] in one[|table|..];
      } else {
        assert x in all[|one|..];
      }
    }
  }

  /** Any batch is stored as a whole or not at all. */
  lemma {:induction false} StoreAllMeaning(table: seq<RawEvent>, batch: seq<RawEvent>)
    ensures StoreAll(table, batch).Ok? <==> forall e :: e in batch ==> Storable(e)
    ensures StoreAll(table, batch).Ok? ==> Extends(table, batch, StoreAll(table, batch).value)
    decreases |batch|
  {
    hide Storable, InsertEvent, Extends;
    if batch == [] {
      assert Extends(table, batch, table) by { ExtendsNothing(table); }
    } else {
      var one := InsertEvent(table, batch[0]);
      assert batch == [batch[0]] + batch[1..];
      StoreAllMeaning(one, batch[1..]);
      if StoreAll(table, batch).Ok? {
        InsertExtends(table, batch[0]);
        ExtendsTwice(table, batch[0], batch[1..], one, StoreAll(table, batch).value);
      }
    }
  }

  lemma ExtendsNothing(table: seq<RawEvent>)
    ensures Extends(table, [], table)
  {
  }

  lemma {:induction false} KnownAlready(table: seq<RawEvent>, batch: seq<RawEvent>)
    requires Guids(batch) <= Guids(table) && forall e :: e in batch ==> Storable(e)
    ensures StoreAll(table, batch) == Ok(table)
    decreases |batch|
  {
    hide Storable;
    if batch != [] {
      assert batch[0] in batch && batch[0].guid in Guids(table);
      var e :| e in table && e.guid == batch[0].guid;
      assert InsertEvent(table, batch[0]) == table;
      KnownAlready(table, batch[1..]);
    }
  }

  /** Storing a batch again, after a commit that was reported to have failed, changes nothing. */
  lemma StoringAgain(table: seq<RawEvent>, batch: seq<RawEvent>)
    requires StoreAll(table, batch).Ok?
    ensures StoreAll(StoreAll(table, batch).value, batch) == StoreAll(table, batch)
  {
    StoreAllMeaning(table, batch);
    KnownAlready(StoreAll(table, batch).value, batch);
  }

  ghost predicate Distinct(table: seq<RawEvent>) {
    forall i, j :: 0 <= i < j < |table| ==> table[i].guid != table[j].guid
  }

  lemma ToRawsConcat(kind: string, a: seq<UsageEvent>, b: seq<UsageEvent>)
    ensures ToRaws(kind, a + b) == ToRaws(kind, a) + ToRaws(kind, b)
  {
  }

  lemma RawsDistinct(kind: string, log: seq<UsageEvent>, n: nat)
    requires DistinctEntries(log) && n <= |log|
    ensures forall i, j :: 0 <= i < j < n ==> ToRaws(kind, log[..n])[i].guid != ToRaws(kind, log[..n])[j].guid
  {
    var raws := ToRaws(kind, log[..n]);
    assert forall i :: 0 <= i < n ==> raws[i].guid == log[i].guid;
  }

  /** Storing what follows the stored events keeps them the beginning of the log. */
  lemma StoreNext(s: Settings, table: seq<RawEvent>, log: seq<UsageEvent>, next: seq<UsageEvent>)
    requires DistinctEntries(log) && Prefix(s, table, log) && next <= log[|table|..]
    ensures StoreAll(table, ToRaws(s.kind, next)).Ok?
            <==> forall i :: 0 <= i < |next| ==> Storable(ToRaw(s.kind, next[i]))
    ensures StoreAll(table, ToRaws(s.kind, next)).Ok? ==>
              && StoreAll(table, ToRaws(s.kind, next)).value == table + ToRaws(s.kind, next)
              && Prefix(s, table + ToRaws(s.kind, next), log)
  {
    hide StoreAll, Storable, DistinctEntries, ToRaws, ToRaw, Prefix;
    PrefixGrows(s, table, log, next);
    StoreAllFresh(table, ToRaws(s.kind, next));
    ToRawsAt(s.kind, next);
  }

  lemma PrefixGrows(s: Settings, table: seq<RawEvent>, log: seq<UsageEvent>, next: seq<UsageEvent>)
    requires DistinctEntries(log) && Prefix(s, table, log) && next <= log[|table|..]
    ensures Prefix(s, table + ToRaws(s.kind, next), log)
    ensures forall i, j :: 0 <= i < j < |table + ToRaws(s.kind, next)| ==>
              (table + ToRaws(s.kind, next))[i].guid != (table + ToRaws(s.kind, next))[j].guid
  {
    hide DistinctEntries, ToRaws;
    var n := |table| + |next|;
    assert log[..n] == log[..|table|] + next;
    ToRawsConcat(s.kind, log[..|table|], next);
    ToRawsAt(s.kind, log[..n]);
    RawsDistinct(s.kind, log, n);
  }

  lemma ToRawsAt(kind: string, es: seq<UsageEvent>)
    ensures |ToRaws(kind, es)| == |es| && forall i :: 0 <= i < |es| ==> ToRaws(kind, es)[i] == ToRaw(kind, es[i])
  {
  }

  // ----- Safety -----

  /** What was settled comes before a late entry's place. */
  lemma LateCommitPlace(s: Settings, lag: int, w: World, at: nat, e: UsageEvent)
    requires Inv(s, lag, w) && Legal(s, lag, w, LateCommit(at, e))
    ensures |w.table| <= at
    ensures w.page.Some? ==>
              |w.table| + |MaturePrefix(w.page.value.entries, w.page.value.readAt - lag)| <= at
  {
    var n := |w.table|;
    if n > 0 {
      assert w.log[n - 1].createdAt <= w.now - lag;
    }
    if w.page.Some? {
      var settled := MaturePrefix(w.page.value.entries, w.page.value.readAt - lag);
      MaturePrefixMeaning(w.page.value.entries, w.page.value.readAt - lag);
      if settled != [] {
        assert w.log[n..][|settled| - 1] == settled[|settled| - 1];
        assert w.log[n + |settled| - 1].createdAt <= w.now - lag;
      }
    }
  }

  lemma InsertedDistinct(log: seq<UsageEvent>, at: nat, e: UsageEvent)
    requires DistinctEntries(log) && at <= |log| && e.guid != "" && e.guid != GUID_NIL
    requires forall i :: 0 <= i < |log| ==> log[i].guid != e.guid
    ensures DistinctEntries(log[..at] + [e] + log[at..])
  {
  }

  lemma BeginningKept(log: seq<UsageEvent>, at: nat, e: UsageEvent, xs: seq<UsageEvent>, n: nat)
    requires n + |xs| <= at <= |log| && xs <= log[n..]
    ensures xs <= (log[..at] + [e] + log[at..])[n..]
    ensures (log[..at] + [e] + log[at..])[..n] == log[..n]
  {
    var grown := log[..at] + [e] + log[at..];
    assert forall i :: 0 <= i < |xs| ==> xs[i] == log[n..][i] == log[n + i] == grown[n + i] == grown[n..][i];
  }

  lemma LateCommitKeeps(s: Settings, lag: int, w: World, at: nat, e: UsageEvent)
    requires Inv(s, lag, w) && Legal(s, lag, w, LateCommit(at, e))
    ensures Inv(s, lag, Next(s, w, LateCommit(at, e)))
  {
    hide MaturePrefix, ToRaws;
    LateCommitPlace(s, lag, w, at, e);
    InsertedDistinct(w.log, at, e);
    BeginningKept(w.log, at, e, [], |w.table|);
    if w.page.Some? {
      BeginningKept(w.log, at, e, MaturePrefix(w.page.value.entries, w.page.value.readAt - lag), |w.table|);
    }
  }

  lemma RequestKeeps(s: Settings, lag: int, w: World, reachable: bool)
    requires Inv(s, lag, w)
    ensures Inv(s, lag, Next(s, w, Request(reachable)))
  {
    hide Respond, MaturePrefix, ToRaws, DistinctEntries;
    if Respond(s, w.table, w.log, reachable).Ok? {
      ResponseContinues(s, lag, w, reachable);
      var entries, rest := Respond(s, w.table, w.log, reachable).value, w.log[|w.table|..];
      var settled := MaturePrefix(entries, w.now - lag);
      MaturePrefixMeaning(entries, w.now - lag);
      assert settled <= entries <= rest;
    }
  }

  lemma RespondKeeps(s: Settings, lag: int, w: World, commit: CommitResult)
    requires lag <= s.MinAge() && Inv(s, lag, w) && Legal(s, lag, w, Deliver(commit))
    ensures Inv(s, lag, Next(s, w, Deliver(commit)))
  {
    hide MaturePrefix, StoreAll;
    var p, cut := w.page.value, w.now - s.MinAge();
    var next := MaturePrefix(p.entries, cut);
    MaturePrefixMonotone(p.entries, cut, p.readAt - lag);
    MaturePrefixMeaning(p.entries, cut);
    assert next <= w.log[|w.table|..];
    StoreNext(s, w.table, w.log, next);
    var v := Next(s, w, Deliver(commit));
    forall i | 0 <= i < |v.table| ensures v.log[i].createdAt <= v.now - lag {
      if i >= |w.table| {
        assert v.log[i] == w.log[|w.table|..][i - |w.table|] == next[i - |w.table|];
      }
    }
  }

  /** Every legal action keeps the invariant. */
  lemma ActionKeeps(s: Settings, lag: int, w: World, a: Action)
    requires lag <= s.MinAge() && Inv(s, lag, w) && Legal(s, lag, w, a)
    ensures Inv(s, lag, Next(s, w, a))
  {
    match a
    case Tick(to) =>
    case LateCommit(at, e) => LateCommitKeeps(s, lag, w, at, e);
    case Request(reachable) => RequestKeeps(s, lag, w, reachable);
    case Deliver(commit) => RespondKeeps(s, lag, w, commit);
  }

  /** A run: each world follows from the one before by a legal action. */
  ghost predicate IsRun(s: Settings, lag: int, ws: seq<World>) {
    && |ws| > 0
    && ws[0].table == [] && ws[0].page == None && DistinctEntries(ws[0].log)
    && forall i :: 0 < i < |ws| ==> Follows(s, lag, ws[i - 1], ws[i])
  }

  ghost predicate Follows(s: Settings, lag: int, w: World, v: World) {
    exists a :: Legal(s, lag, w, a) && v == Next(s, w, a)
  }

  lemma {:induction false} RunKeeps(s: Settings, lag: int, ws: seq<World>, n: nat)
    requires lag <= s.MinAge() && IsRun(s, lag, ws) && n < |ws|
    ensures Inv(s, lag, ws[n])
  {
    if n > 0 {
      RunKeeps(s, lag, ws, n - 1);
      var a :| Legal(s, lag, ws[n - 1], a) && ws[n] == Next(s, ws[n - 1], a);
      ActionKeeps(s, lag, ws[n - 1], a);
    }
  }

  /** Over every interleaving of late commits, requests, fetch failures, rolled-back stores and stores
      whose success was reported as a failure, the stored events are a duplicate-free beginning of the
      upstream log: nothing is skipped, repeated or reordered. */
  lemma ReplicationIsSafe(s: Settings, lag: int, ws: seq<World>, n: nat)
    requires lag <= s.MinAge() && IsRun(s, lag, ws) && n < |ws|
    ensures Prefix(s, ws[n].table, ws[n].log) && Verbatim(s.kind, ws[n].table, ws[n].log)
    ensures forall i, j :: 0 <= i < j < |ws[n].table| ==> ws[n].table[i].guid != ws[n].table[j].guid
  {
    RunKeeps(s, lag, ws, n);
    PrefixIsVerbatim(s, ws[n].table, ws[n].log);
  }

  // ----- The condition is exact -----

  /** `guid` comes before `later` in the upstream log. */
  ghost predicate Precedes(log: seq<UsageEvent>, guid: string, later: string) {
    exists i, j :: PrecedesAt(log, guid, later, i, j)
  }

  ghost predicate PrecedesAt(log: seq<UsageEvent>, guid: string, later: string, i: int, j: int) {
    0 <= i < j < |log| && log[i].guid == guid && log[j].guid == later
  }

  /** The collector has passed `guid` without storing it: the cursor, and any page on its way, are beyond it. */
  ghost predicate Skipped(w: World, guid: string) {
    && DistinctEntries(w.log)
    && (forall r :: r in w.table ==> r.guid != guid)
    && w.table != [] && Precedes(w.log, guid, w.table[|w.table| - 1].guid)
    && (w.page.Some? ==> forall e :: e in w.page.value.entries ==> Precedes(w.log, guid, e.guid))
  }

  /** Anything the world may do, legal or not, as long as upstream entries have guids of their own. */
  ghost predicate Possible(w: World, a: Action) {
    a.LateCommit? ==>
      && a.at <= |w.log| && a.entry.guid != "" && a.entry.guid != GUID_NIL
      && forall i :: 0 <= i < |w.log| ==> w.log[i].guid != a.entry.guid
  }

  ghost predicate MayFollow(s: Settings, w: World, v: World) {
    exists a :: Possible(w, a) && v == Next(s, w, a)
  }

  ghost predicate IsContinuation(s: Settings, w: World, ws: seq<World>) {
    |ws| > 0 && ws[0] == w && forall i :: 0 < i < |ws| ==> MayFollow(s, ws[i - 1], ws[i])
  }

  /** However the world goes on from `w`, `guid` is upstream and is never stored. */
  ghost predicate LostForGood(s: Settings, w: World, guid: string) {
    forall ws: seq<World>, n: nat :: IsContinuation(s, w, ws) && n < |ws| ==> Lost(ws[n], guid)
  }

  ghost predicate Lost(w: World, guid: string) {
    (exists i :: 0 <= i < |w.log| && w.log[i].guid == guid) && forall r :: r in w.table ==> r.guid != guid
  }

  lemma PrecedesDiffers(log: seq<UsageEvent>, guid: string, later: string)
    requires DistinctEntries(log) && Precedes(log, guid, later)
    ensures guid != later
  {
  }

  lemma PrecedesKept(log: seq<UsageEvent>, at: nat, e: UsageEvent, guid: string, later: string)
    requires at <= |log| && Precedes(log, guid, later)
    ensures Precedes(log[..at] + [e] + log[at..], guid, later)
  {
    var i, j :| PrecedesAt(log, guid, later, i, j);
    var grown := log[..at] + [e] + log[at..];
    assert PrecedesAt(grown, guid, later, if i < at then i else i + 1, if j < at then j else j + 1);
  }

  lemma {:induction false} StoreAllSkips(log: seq<UsageEvent>, table: seq<RawEvent>, batch: seq<RawEvent>, guid: string)
    requires DistinctEntries(log) && StoreAll(table, batch).Ok?
    requires (forall r :: r in table ==> r.guid != guid) && table != [] && Precedes(log, guid, table[|table| - 1].guid)
    requires forall r :: r in batch ==> Precedes(log, guid, r.guid)
    ensures var stored := StoreAll(table, batch).value;
            (forall r :: r in stored ==> r.guid != guid) && stored != []
                && Precedes(log, guid, stored[|stored| - 1].guid)
    decreases |batch|
  {
    hide Precedes, DistinctEntries, Storable;
    if batch != [] {
      assert batch[0] in batch && forall r :: r in batch[1..] ==> r in batch;
      PrecedesDiffers(log, guid, batch[0].guid);
      StoreAllSkips(log, InsertEvent(table, batch[0]), batch[1..], guid);
    }
  }

  lemma RequestSkips(s: Settings, w: World, reachable: bool, guid: string)
    requires Skipped(w, guid)
    ensures Skipped(Next(s, w, Request(reachable)), guid)
  {
    if Respond(s, w.table, w.log, reachable).Ok? {
      var last := w.table[|w.table| - 1].guid;
      var i, j :| PrecedesAt(w.log, guid, last, i, j);
      IndexOfDistinct(w.log, j);
      var entries := Respond(s, w.table, w.log, reachable).value;
      forall e | e in entries ensures Precedes(w.log, guid, e.guid) {
        var n :| 0 <= n < |entries| && entries[n] == e;
        assert entries[n] == w.log[j + 1 + n];
        assert PrecedesAt(w.log, guid, e.guid, i, j + 1 + n);
      }
    }
  }

  lemma DeliverSkips(s: Settings, w: World, commit: CommitResult, guid: string)
    requires Skipped(w, guid)
    ensures Skipped(Next(s, w, Deliver(commit)), guid)
  {
    hide Precedes, DistinctEntries, StoreAll;
    if w.page.Some? {
      var cut := w.now - s.MinAge();
      var mature := MaturePrefix(w.page.value.entries, cut);
      MaturePrefixMeaning(w.page.value.entries, cut);
      var batch := ToRaws(s.kind, mature);
      forall r | r in batch ensures Precedes(w.log, guid, r.guid) {
        var n :| 0 <= n < |batch| && batch[n] == r;
        assert mature[n] == w.page.value.entries[n] && r.guid == mature[n].guid;
      }
      if StoreAll(w.table, batch).Ok? {
        StoreAllSkips(w.log, w.table, batch, guid);
      }
    }
  }

  lemma LateCommitSkips(s: Settings, w: World, at: nat, e: UsageEvent, guid: string)
    requires Skipped(w, guid) && Possible(w, LateCommit(at, e))
    ensures Skipped(Next(s, w, LateCommit(at, e)), guid)
  {
    hide Precedes;
    InsertedDistinct(w.log, at, e);
    PrecedesKept(w.log, at, e, guid, w.table[|w.table| - 1].guid);
    if w.page.Some? {
      forall x | x in w.page.value.entries ensures Precedes(w.log[..at] + [e] + w.log[at..], guid, x.guid) {
        PrecedesKept(w.log, at, e, guid, x.guid);
      }
    }
  }

  lemma {:induction false} ContinuationSkips(s: Settings, w: World, ws: seq<World>, n: nat, guid: string)
    requires Skipped(w, guid) && IsContinuation(s, w, ws) && n < |ws|
    ensures Skipped(ws[n], guid)
  {
    hide Skipped;
    if n > 0 {
      ContinuationSkips(s, w, ws, n - 1, guid);
      var a :| Possible(ws[n - 1], a) && ws[n] == Next(s, ws[n - 1], a);
      match a
      case Tick(to) => TickSkips(s, ws[n - 1], to, guid);
      case LateCommit(at, e) => LateCommitSkips(s, ws[n - 1], at, e, guid);
      case Request(reachable) => RequestSkips(s, ws[n - 1], reachable, guid);
      case Deliver(commit) => DeliverSkips(s, ws[n - 1], commit, guid);
    }
  }

  lemma TickSkips(s: Settings, w: World, to: int, guid: string)
    requires Skipped(w, guid)
    ensures Skipped(Next(s, w, Tick(to)), guid)
  {
  }

  /** What was passed is lost: nothing that happens afterwards ever stores it. */
  lemma SkippedIsLost(s: Settings, w: World, guid: string)
    requires Skipped(w, guid)
    ensures LostForGood(s, w, guid)
  {
    forall ws: seq<World>, n: nat | IsContinuation(s, w, ws) && n < |ws| ensures Lost(ws[n], guid) {
      ContinuationSkips(s, w, ws, n, guid);
      var i, j :| PrecedesAt(ws[n].log, guid, ws[n].table[|ws[n].table| - 1].guid, i, j);
    }
  }

  /** The time a page spends on its way counts. Whenever late commits and that time together exceed the
      minimum age, a run of otherwise legal actions, in which every entry commits within `lag` of its
      creation, skips an event for good. */
  lemma SlowPageLosesEvent(s: Settings, lag: int, delay: int)
    returns (w0: World, w1: World, w2: World, w3: World, w4: World)
    requires s.Accepted() && (s.kind == "app" || s.kind == "service")
    requires 0 < lag && 0 <= delay && s.MinAge() < lag + delay
    ensures w0.table == [] && w0.page == None && DistinctEntries(w0.log)
    ensures Legal(s, lag, w0, Request(true)) && w1 == Next(s, w0, Request(true))
    ensures Follows(s, lag, w1, w2) && |w2.log| == 2 && w2.log[1..] == w1.log && w2.page == w1.page
    ensures w2.now - lag < w2.log[0].createdAt <= w2.now
    ensures Legal(s, lag, w2, Tick(w2.now + delay)) && w3 == Next(s, w2, Tick(w2.now + delay))
    ensures w4 == Next(s, w3, Deliver(Committed))
    ensures w4.log == w2.log && w4.table == ToRaws(s.kind, w4.log[1..]) && !Prefix(s, w4.table, w4.log)
    ensures LostForGood(s, w4, w2.log[0].guid)
  {
    hide Respond, Finish, MaturePrefix, ToRaws, Take, StoreAll, LostForGood, Prefix;
    var readAt := s.MinAge() + lag;
    var first, late := UsageEvent("b", s.MinAge() + 1, "{}"), UsageEvent("a", s.MinAge() + 1, "{}");
    w0 := World([first], readAt, [], Syncing, None);
    w1 := Next(s, w0, Request(true));
    assert Respond(s, [], [first], true) == Ok([first]) by {
      FirstPage(s, first);
    }
    assert w1 == w0.(page := Some(Page([first], readAt)));
    w2 := Next(s, w1, LateCommit(0, late));
    assert Legal(s, lag, w1, LateCommit(0, late));
    assert w2.log == [late, first];
    w3 := Next(s, w2, Tick(w2.now + delay));
    w4 := Next(s, w3, Deliver(Committed));
    SlowFinish(s, first, readAt + delay - s.MinAge(), w3.state);
    assert w4.table == ToRaws(s.kind, [first]) && w4.log[1..] == [first];
    OneBehind(s, w4, late, first);
  }

  lemma OneBehind(s: Settings, w: World, late: UsageEvent, first: UsageEvent)
    requires w.log == [late, first] && DistinctEntries(w.log) && w.table == ToRaws(s.kind, [first]) && w.page == None
    ensures !Prefix(s, w.table, w.log) && LostForGood(s, w, late.guid)
  {
    hide ToRaws, LostForGood;
    ToRawsAt(s.kind, [first]);
    ToRawsAt(s.kind, w.log[..1]);
    assert w.log[0].guid != w.log[1].guid && ToRaws(s.kind, w.log[..1])[0].guid == late.guid;
    assert PrecedesAt(w.log, late.guid, first.guid, 0, 1);
    SkippedIsLost(s, w, late.guid);
  }

  lemma FirstPage(s: Settings, e: UsageEvent)
    requires s.Accepted()
    ensures Respond(s, [], [e], true) == Ok([e])
  {
  }

  lemma SlowFinish(s: Settings, e: UsageEvent, cut: int, state: State)
    requires e.createdAt <= cut && Storable(ToRaw(s.kind, e))
    ensures Finish(s, [], state, [e], cut, Committed).table == ToRaws(s.kind, [e])
  {
    assert MaturePrefix([e], cut) == [e];
    var batch := ToRaws(s.kind, [e]);
    StoreAllFresh([], batch);
    assert [] + batch == batch;
  }

  // ----- An entry that the store refuses -----

  /** Position `r` holds an entry that the store refuses, close enough to the stored events to be in the next
      page and old enough not to be cut off; a page on its way has it too. */
  ghost predicate Blocked(s: Settings, w: World, r: nat) {
    && |w.table| <= r < |w.log| && r < |w.table| + s.Limit()
    && !Storable(ToRaw(s.kind, w.log[r]))
    && (forall i :: |w.table| <= i <= r ==> w.log[i].createdAt <= w.now - s.MinAge())
    && (w.page.Some? ==> Reaches(w.page.value.entries, w.log, |w.table|, r))
  }

  /** The entries repeat the log from `n` up to and including `r`. */
  ghost predicate Reaches(entries: seq<UsageEvent>, log: seq<UsageEvent>, n: nat, r: nat)
    requires n <= r < |log|
  {
    r - n < |entries| && forall i :: 0 <= i <= r - n ==> entries[i] == log[n + i]
  }

  lemma {:induction false} StoreAllRefuses(table: seq<RawEvent>, batch: seq<RawEvent>, i: nat)
    requires i < |batch| && !Storable(batch[i])
    ensures StoreAll(table, batch).Err?
    decreases |batch|
  {
    if Storable(batch[0]) {
      StoreAllRefuses(InsertEvent(table, batch[0]), batch[1..], i - 1);
    }
  }

  lemma {:induction false} MatureReaches(xs: seq<UsageEvent>, t: int, n: nat)
    requires n < |xs| && forall i :: 0 <= i <= n ==> xs[i].createdAt <= t
    ensures n < |MaturePrefix(xs, t)| && MaturePrefix(xs, t)[n] == xs[n]
  {
    assert xs[0].createdAt <= t;
    if n > 0 {
      MatureReaches(xs[1..], t, n - 1);
    }
  }

  lemma BlockedDeliver(s: Settings, lag: int, w: World, commit: CommitResult, r: nat)
    requires Blocked(s, w, r) && Legal(s, lag, w, Deliver(commit))
    ensures Next(s, w, Deliver(commit)) == w.(state := Scheduled, page := None)
  {
    hide StoreAll, Storable, MaturePrefix;
    var entries, n, cut := w.page.value.entries, r - |w.table|, w.now - s.MinAge();
    assert forall i :: 0 <= i <= n ==> entries[i] == w.log[|w.table| + i];
    MatureReaches(entries, cut, n);
    ToRawsAt(s.kind, MaturePrefix(entries, cut));
    StoreAllRefuses(w.table, ToRaws(s.kind, MaturePrefix(entries, cut)), n);
  }

  lemma BlockedRequest(s: Settings, lag: int, w: World, reachable: bool, r: nat)
    requires Inv(s, lag, w) && Blocked(s, w, r) && Legal(s, lag, w, Request(reachable))
    ensures Blocked(s, Next(s, w, Request(reachable)), r) && Next(s, w, Request(reachable)).table == w.table
  {
    hide Respond, Storable;
    if Respond(s, w.table, w.log, reachable).Ok? {
      ResponseContinues(s, lag, w, reachable);
    }
  }

  lemma BlockedLateCommit(s: Settings, lag: int, w: World, at: nat, e: UsageEvent, r: nat)
    requires lag <= s.MinAge() && Blocked(s, w, r) && Legal(s, lag, w, LateCommit(at, e))
    ensures Blocked(s, Next(s, w, LateCommit(at, e)), r)
  {
    hide Storable;
    assert r < at;
    var grown := w.log[..at] + [e] + w.log[at..];
    assert forall i :: 0 <= i <= r ==> grown[i] == w.log[i];
  }

  lemma BlockedStays(s: Settings, lag: int, w: World, a: Action, r: nat)
    requires lag <= s.MinAge() && Inv(s, lag, w) && Blocked(s, w, r) && Legal(s, lag, w, a)
    ensures Blocked(s, Next(s, w, a), r) && Next(s, w, a).table == w.table
  {
    match a
    case Tick(to) =>
    case LateCommit(at, e) => BlockedLateCommit(s, lag, w, at, e, r);
    case Request(reachable) => BlockedRequest(s, lag, w, reachable, r);
    case Deliver(commit) => BlockedDeliver(s, lag, w, commit, r);
  }

  /** One such entry stops the collection of its kind for good: over every continuation of the run nothing more
      is stored, not even what comes before it. */
  lemma {:induction false} RefusedEntryBlocks(s: Settings, lag: int, ws: seq<World>, r: nat, n: nat)
    requires lag <= s.MinAge() && n < |ws| && forall i :: 0 < i < |ws| ==> Follows(s, lag, ws[i - 1], ws[i])
    requires Inv(s, lag, ws[0]) && Blocked(s, ws[0], r)
    ensures Inv(s, lag, ws[n]) && Blocked(s, ws[n], r) && ws[n].table == ws[0].table
  {
    hide Inv, Blocked;
    if n > 0 {
      RefusedEntryBlocks(s, lag, ws, r, n - 1);
      var a :| Legal(s, lag, ws[n - 1], a) && ws[n] == Next(s, ws[n - 1], a);
      ActionKeeps(s, lag, ws[n - 1], a);
      BlockedStays(s, lag, ws[n - 1], a, r);
    }
  }

  /** What is stored is at least `lag` old, so it is not from the future. */
  lemma StoredIsPast(s: Settings, lag: int, w: World, i: nat)
    requires 0 <= lag && Inv(s, lag, w) && i < |w.table|
    ensures w.table[i].createdAt <= w.now - lag <= w.now
  {
    assert w.table[i] == ToRaws(s.kind, w.log[..|w.table|])[i];
  }

  // ----- Progress -----

  /** How many settled entries are waiting to be collected. */
  function Waiting(s: Settings, w: World): nat {
    |WaitingEntries(s, w)|
  }

  /** One `collect` that meets no failure and no delay. */
  function CollectOnce(s: Settings, w: World): World {
    Next(s, Next(s, w, Request(true)), Deliver(Committed))
  }

  function CollectTimes(s: Settings, w: World, k: nat): World {
    if k == 0 then w else CollectOnce(s, CollectTimes(s, w, k - 1))
  }

  lemma {:induction false} MaturePrefixTake(xs: seq<UsageEvent>, n: nat, t: int)
    ensures MaturePrefix(Take(xs, n), t) == Take(MaturePrefix(xs, t), n)
  {
    if n > 0 && xs != [] && xs[0].createdAt <= t {
      MaturePrefixTake(xs[1..], n - 1, t);
      assert Take(xs, n) == [xs[0]] + Take(xs[1..], n - 1);
      assert Take(MaturePrefix(xs, t), n) == [xs[0]] + Take(MaturePrefix(xs[1..], t), n - 1);
    }
  }

  lemma {:induction false} MaturePrefixDrop(xs: seq<UsageEvent>, n: nat, t: int)
    requires n <= |MaturePrefix(xs, t)|
    ensures n <= |xs| && MaturePrefix(xs[n..], t) == MaturePrefix(xs, t)[n..]
  {
    if n > 0 {
      MaturePrefixDrop(xs[1..], n - 1, t);
      assert xs[n..] == xs[1..][n - 1..];
    }
  }

  /** The settled entries that are waiting. */
  function WaitingEntries(s: Settings, w: World): seq<UsageEvent> {
    if |w.table| <= |w.log| then MaturePrefix(w.log[|w.table|..], w.now - s.MinAge()) else []
  }

  /** They can all be stored. */
  ghost predicate WaitingStorable(s: Settings, w: World) {
    forall e :: e in WaitingEntries(s, w) ==> Storable(ToRaw(s.kind, e))
  }

  /** A page never ends with the event it started after. */
  lemma NewestIsNew(s: Settings, w: World, next: seq<UsageEvent>)
    requires DistinctEntries(w.log) && Prefix(s, w.table, w.log) && next <= w.log[|w.table|..] && next != []
    ensures w.table != [] ==> ToRaws(s.kind, next)[|next| - 1].guid != LastEvent(w.table).value.guid
  {
    if w.table != [] {
      var n := |w.table|;
      assert next[|next| - 1] == w.log[n + |next| - 1];
      assert w.table[n - 1].guid == w.log[n - 1].guid;
    }
  }

  /** The entries one undisturbed collect stores. */
  function NextBatch(s: Settings, w: World): seq<UsageEvent>
    requires |w.table| <= |w.log|
  {
    Take(MaturePrefix(w.log[|w.table|..], w.now - s.MinAge()), s.Limit())
  }

  lemma NextBatchContinues(s: Settings, w: World)
    requires s.Accepted() && |w.table| <= |w.log|
    ensures NextBatch(s, w) <= w.log[|w.table|..]
    ensures NextBatch(s, w) == MaturePrefix(Take(w.log[|w.table|..], s.Limit()), w.now - s.MinAge())
  {
    var rest, t := w.log[|w.table|..], w.now - s.MinAge();
    MaturePrefixTake(rest, s.Limit(), t);
    MaturePrefixMeaning(rest, t);
  }

  lemma NextBatchWaits(s: Settings, w: World)
    requires |w.table| <= |w.log|
    ensures NextBatch(s, w) <= WaitingEntries(s, w)
  {
  }

  lemma NextBatchStorable(s: Settings, w: World)
    requires |w.table| <= |w.log| && WaitingStorable(s, w)
    ensures forall i :: 0 <= i < |NextBatch(s, w)| ==> Storable(ToRaw(s.kind, NextBatch(s, w)[i]))
  {
    hide NextBatch, WaitingEntries, Storable;
    NextBatchWaits(s, w);
    forall i | 0 <= i < |NextBatch(s, w)| ensures Storable(ToRaw(s.kind, NextBatch(s, w)[i])) {
      assert NextBatch(s, w)[i] == WaitingEntries(s, w)[i];
    }
  }

  lemma CollectShape(s: Settings, lag: int, w: World)
    requires s.Accepted() && Inv(s, lag, w) && w.page.None? && WaitingStorable(s, w)
    ensures CollectOnce(s, w)
         == w.(table := w.table + ToRaws(s.kind, NextBatch(s, w)),
               state := if NextBatch(s, w) == [] then Scheduled else Collecting)
  {
    hide Respond, MaturePrefix, NextBatch, StoreAll, Storable, WaitingStorable, ToRaws;
    ToRawsAt(s.kind, NextBatch(s, w));
    RequestSucceeds(s, lag, w);
    ResponseContinues(s, lag, w, true);
    NextBatchContinues(s, w);
    var next := NextBatch(s, w);
    NextBatchStorable(s, w);
    StoreNext(s, w.table, w.log, next);
    if next != [] {
      NewestIsNew(s, w, next);
    }
  }

  lemma CollectKeeps(s: Settings, lag: int, w: World)
    requires s.Accepted() && 0 <= lag <= s.MinAge() && Inv(s, lag, w) && w.page.None? && WaitingStorable(s, w)
    ensures Inv(s, lag, CollectOnce(s, w))
  {
    hide Inv, Respond, Finish;
    RequestSucceeds(s, lag, w);
    RequestKeeps(s, lag, w, true);
    var u := Next(s, w, Request(true));
    RespondKeeps(s, lag, u, Committed);
  }

  lemma CollectWaiting(s: Settings, w: World, v: World)
    requires s.Accepted() && |w.table| <= |w.log|
    requires v.log == w.log && v.now == w.now && |v.table| == |w.table| + |NextBatch(s, w)|
    ensures |NextBatch(s, w)| == if Waiting(s, w) <= s.Limit() then Waiting(s, w) else s.Limit()
    ensures |v.table| <= |w.log| && Waiting(s, v) == Waiting(s, w) - |NextBatch(s, w)|
    ensures WaitingStorable(s, w) ==> WaitingStorable(s, v)
  {
    var rest, t := w.log[|w.table|..], w.now - s.MinAge();
    MaturePrefixMeaning(rest, t);
    MaturePrefixDrop(rest, |NextBatch(s, w)|, t);
    assert v.log[|v.table|..] == rest[|NextBatch(s, w)|..];
    assert WaitingEntries(s, v) == WaitingEntries(s, w)[|NextBatch(s, w)|..];
  }

  /** One collect stores as many waiting entries as the limit allows, and says whether there were any. */
  lemma CollectProgress(s: Settings, lag: int, w: World)
    requires s.Accepted() && 0 <= lag <= s.MinAge() && Inv(s, lag, w) && w.page.None? && WaitingStorable(s, w)
    ensures var v := CollectOnce(s, w);
            && Inv(s, lag, v) && v.page.None? && WaitingStorable(s, v) && v.log == w.log && v.now == w.now
            && |v.table| == |w.table| + (if Waiting(s, w) <= s.Limit() then Waiting(s, w) else s.Limit())
            && Waiting(s, v) == (if Waiting(s, w) <= s.Limit() then 0 else Waiting(s, w) - s.Limit())
            && v.state == (if Waiting(s, w) == 0 then Scheduled else Collecting)
  {
    hide CollectOnce, NextBatch, Waiting;
    CollectShape(s, lag, w);
    CollectKeeps(s, lag, w);
    var v := CollectOnce(s, w);
    assert |ToRaws(s.kind, NextBatch(s, w))| == |NextBatch(s, w)|;
    CollectWaiting(s, w, v);
  }

  /** With `n` entries waiting and nothing new, `ceil(n / limit)` collects store them all, never leaving
      `Collecting`, and the next one moves to `Scheduled` with nothing more to store. */
  lemma {:induction false} CatchesUp(s: Settings, lag: int, w: World, k: nat)
    requires s.Accepted() && 0 <= lag <= s.MinAge() && Inv(s, lag, w) && w.page.None? && WaitingStorable(s, w)
    ensures var v := CollectTimes(s, w, k);
            && Inv(s, lag, v) && v.page.None? && WaitingStorable(s, v) && v.log == w.log && v.now == w.now
            && Waiting(s, v) == (if Waiting(s, w) <= k * s.Limit() then 0 else Waiting(s, w) - k * s.Limit())
            && |v.table| == |w.table| + Waiting(s, w) - Waiting(s, v)
            && (k > 0 ==> v.state == if Waiting(s, w) <= (k - 1) * s.Limit() then Scheduled else Collecting)
  {
    hide CollectOnce, Waiting, WaitingStorable, Inv;
    if k > 0 {
      CatchesUp(s, lag, w, k - 1);
      CollectProgress(s, lag, CollectTimes(s, w, k - 1));
      assert k * s.Limit() == (k - 1) * s.Limit() + s.Limit();
    }
  }
}
