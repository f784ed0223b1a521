/** From the log of usage events to the half-open ranges in which each resource was in use: the
    windows of `create_events.sql`, against a replay of the log up to an instant. */
module EventLog {
  import opened Base
  import opened Timeline

  datatype EventType = App | Service | Task | Staging

  datatype State = Started | Stopped

  /** A row of `raw_events`. A service event in a state other than CREATED, DELETED or UPDATED has a
      NULL state; only Compose events carry memory and storage for a service. */
  datatype RawEvent = RawEvent(
    sequence: int, guid: string, eventType: EventType, createdAt: int,
    resource: string, name: Option<string>, resourceType: string, org: string, space: string,
    plan: string, planName: string, service: string, serviceName: string,
    nodes: Option<int>, memory: Option<int>, storage: Option<int>, state: Option<State>)

  /** What both windows partition by. */
  type Key = (string, EventType)

  function KeyOf(e: RawEvent): Key {
    (e.resource, e.eventType)
  }

  type Log = seq<RawEvent>

  /** The log is read `order by created_at, event_sequence`; rows that tie may come in any order. */
  ghost predicate Ordered(log: Log) {
    forall i, j :: 0 <= i < j < |log| ==>
      log[i].createdAt < log[j].createdAt
      || (log[i].createdAt == log[j].createdAt && log[i].sequence <= log[j].sequence)
  }

  // ----- Carrying the last known values forward -----

  /** The aggregate `last_agg`, whose step keeps the newest value; NULL over no rows. */
  function LastAgg<V>(vs: seq<V>, state: Option<V> := None): Option<V>
    decreases |vs|
  {
    if vs == [] then state else LastAgg(vs[1..], Some(vs[0]))
  }

  /** `FILTER (WHERE column IS NOT NULL)` */
  function NonNull<V>(column: RawEvent -> Option<V>, rows: Log): seq<V> {
    if rows == [] then []
    else
      match column(rows[0])
      case Some(v) => [v] + NonNull(column, rows[1..])
      case None => NonNull(column, rows[1..])
  }

  function InPartition(k: Key): RawEvent -> bool {
    (e: RawEvent) => KeyOf(e) == k
  }

  /** `last_agg(column) FILTER (...)` over the rows of partition `k` in `rows`. */
  function LastValue<V>(column: RawEvent -> Option<V>, k: Key, rows: Log): Option<V> {
    LastAgg(NonNull(column, Filter(InPartition(k), rows)))
  }

  function NameColumn(): RawEvent -> Option<string> { (e: RawEvent) => e.name }
  function MemoryColumn(): RawEvent -> Option<int> { (e: RawEvent) => e.memory }
  function StorageColumn(): RawEvent -> Option<int> { (e: RawEvent) => e.storage }

  /** Row `i` of `raw_events_with_injected_values`: its frame is the partition's rows up to itself. */
  function Injected(log: Log, i: nat): RawEvent
    requires i < |log|
  {
    var k, frame := KeyOf(log[i]), log[..i + 1];
    log[i].(name := LastValue(NameColumn(), k, frame),
            memory := LastValue(MemoryColumn(), k, frame),
            storage := LastValue(StorageColumn(), k, frame))
  }

  datatype Carried = Carried(name: Option<string>, memory: Option<int>, storage: Option<int>)

  function Newer<V>(v: Option<V>, known: Option<V>): Option<V> {
    if v.Some? then v else known
  }

  /** One pass over the log that remembers, for each resource and event type, the newest values seen. */
  function Carry(log: Log): map<Key, Carried> {
    if log == [] then map[]
    else
      var e := log[|log| - 1];
      var before := Carry(log[..|log| - 1]);
      var known := if KeyOf(e) in before then before[KeyOf(e)] else Carried(None, None, None);
      before[KeyOf(e) := Carried(Newer(e.name, known.name), Newer(e.memory, known.memory),
          Newer(e.storage, known.storage))]
  }

  lemma {:induction false} LastAggAppend<V>(vs: seq<V>, v: V, state: Option<V>)
    ensures LastAgg(vs + [v], state) == Some(v)
    decreases |vs|
  {
    if vs != [] {
      LastAggAppend(vs[1..], v, Some(vs[0]));
      assert (vs + [v])[1..] == vs[1..] + [v];
    }
  }

  lemma {:induction false} NonNullConcat<V>(column: RawEvent -> Option<V>, a: Log, b: Log)
    ensures NonNull(column, a + b) == NonNull(column, a) + NonNull(column, b)
  {
    if a == [] {
      assert a + b == b;
    } else {
      NonNullConcat(column, a[1..], b);
      assert (a + b)[1..] == a[1..] + b && (a + b)[0] == a[0];
    }
  }

  /** One more row changes the window's value only if it is in the partition and not NULL. */
  lemma LastValueStep<V>(column: RawEvent -> Option<V>, k: Key, rows: Log, e: RawEvent)
    ensures LastValue(column, k, rows + [e])
         == if KeyOf(e) == k then Newer(column(e), LastValue(column, k, rows)) else LastValue(column, k, rows)
  {
    FilterConcat(InPartition(k), rows, [e]);
    var part := Filter(InPartition(k), rows);
    NonNullConcat(column, part, Filter(InPartition(k), [e]));
    if KeyOf(e) == k && column(e).Some? {
      assert NonNull(column, [e]) == [column(e).value];
      LastAggAppend(NonNull(column, part), column(e).value, None);
    } else {
      assert NonNull(column, Filter(InPartition(k), [e])) == [];
      assert NonNull(column, part) + [] == NonNull(column, part);
    }
  }

  lemma {:induction false} CarryIsLastValue(log: Log, k: Key)
    ensures k in Carry(log) ==>
              Carry(log)[k] == Carried(LastValue(NameColumn(), k, log), LastValue(MemoryColumn(), k, log),
                                       LastValue(StorageColumn(), k, log))
    ensures k !in Carry(log) ==>
              && LastValue(NameColumn(), k, log) == None
              && LastValue(MemoryColumn(), k, log) == None
              && LastValue(StorageColumn(), k, log) == None
  {
    if log != [] {
      var front, e := log[..|log| - 1], log[|log| - 1];
      assert log == front + [e];
      CarryIsLastValue(front, k);
      LastValueStep(NameColumn(), k, front, e);
      LastValueStep(MemoryColumn(), k, front, e);
      LastValueStep(StorageColumn(), k, front, e);
    }
  }

  /** The single pass computes the windows of every row. */
  lemma InjectedIsCarried(log: Log, i: nat)
    requires i < |log|
    ensures KeyOf(log[i]) in Carry(log[..i + 1])
    ensures var c := Carry(log[..i + 1])[KeyOf(log[i])];
            Injected(log, i) == log[i].(name := c.name, memory := c.memory, storage := c.storage)
  {
    assert log[..i + 1][|log[..i + 1]| - 1] == log[i];
    CarryIsLastValue(log[..i + 1], KeyOf(log[i]));
  }

  /** `v` is what was last said of a column in partition `k` of `rows`, or `None` if nothing ever was. */
  ghost predicate LastKnown<V(!new)>(column: RawEvent -> Option<V>, k: Key, rows: Log, v: Option<V>) {
    && (v.None? ==> forall j :: 0 <= j < |rows| && KeyOf(rows[j]) == k ==> column(rows[j]).None?)
    && (v.Some? ==> exists j :: SaidLast(column, k, rows, j) && column(rows[j]) == v)
  }

  ghost predicate SaidLast<V>(column: RawEvent -> Option<V>, k: Key, rows: Log, j: int) {
    && 0 <= j < |rows| && KeyOf(rows[j]) == k && column(rows[j]).Some?
    && forall i :: j < i < |rows| && KeyOf(rows[i]) == k ==> column(rows[i]).None?
  }

  lemma {:induction false} LastValueMeaning<V(!new)>(column: RawEvent -> Option<V>, k: Key, rows: Log)
    ensures LastKnown(column, k, rows, LastValue(column, k, rows))
  {
    hide LastValue;
    if rows == [] {
      assert LastValue(column, k, rows).None? by { NothingSaid(column, k); }
    } else {
      var front, e := rows[..|rows| - 1], rows[|rows| - 1];
      assert rows == front + [e];
      LastValueMeaning(column, k, front);
      LastValueStep(column, k, front, e);
      if KeyOf(e) == k && column(e).Some? {
        assert SaidLast(column, k, rows, |front|);
      } else if LastValue(column, k, front).Some? {
        var j :| SaidLast(column, k, front, j) && column(front[j]) == LastValue(column, k, front);
        assert SaidLast(column, k, rows, j);
      }
    }
  }

  lemma NothingSaid<V>(column: RawEvent -> Option<V>, k: Key)
    ensures LastValue(column, k, []).None?
  {
  }

  /** The injected columns of a row are the last that its resource and event type were said to have by then; its
      other columns are its own. */
  lemma InjectedMeaning(log: Log, i: nat)
    requires i < |log|
    ensures LastKnown((e: RawEvent) => e.name, KeyOf(log[i]), log[..i + 1], Injected(log, i).name)
    ensures LastKnown((e: RawEvent) => e.memory, KeyOf(log[i]), log[..i + 1], Injected(log, i).memory)
    ensures LastKnown((e: RawEvent) => e.storage, KeyOf(log[i]), log[..i + 1], Injected(log, i).storage)
    ensures Injected(log, i).(name := log[i].name, memory := log[i].memory, storage := log[i].storage) == log[i]
  {
    hide LastValue;
    LastValueMeaning(NameColumn(), KeyOf(log[i]), log[..i + 1]);
    LastValueMeaning(MemoryColumn(), KeyOf(log[i]), log[..i + 1]);
    LastValueMeaning(StorageColumn(), KeyOf(log[i]), log[..i + 1]);
  }

  /** Once a value is known for a resource it stays known. */
  lemma {:induction false} InjectedStaysKnown(log: Log, i: nat, j: nat)
    requires i <= j < |log| && KeyOf(log[i]) == KeyOf(log[j])
    ensures Injected(log, i).name.Some? ==> Injected(log, j).name.Some?
    ensures Injected(log, i).memory.Some? ==> Injected(log, j).memory.Some?
    ensures Injected(log, i).storage.Some? ==> Injected(log, j).storage.Some?
  {
    hide LastValue;
    LastValueStaysKnown(NameColumn(), KeyOf(log[i]), log, i + 1, j + 1);
    LastValueStaysKnown(MemoryColumn(), KeyOf(log[i]), log, i + 1, j + 1);
    LastValueStaysKnown(StorageColumn(), KeyOf(log[i]), log, i + 1, j + 1);
  }

  lemma {:induction false} LastValueStaysKnown<V>(column: RawEvent -> Option<V>, k: Key, log: Log, i: nat, j: nat)
    requires i <= j <= |log|
    ensures LastValue(column, k, log[..i]).Some? ==> LastValue(column, k, log[..j]).Some?
    decreases j
  {
    if i < j {
      LastValueStaysKnown(column, k, log, i, j - 1);
      assert log[..j] == log[..j - 1] + [log[j - 1]];
      LastValueStep(column, k, log[..j - 1], log[j - 1]);
    }
  }

  // ----- Ranges -----

  /** The partition's next row at or after position `j`. */
  function NextFrom(log: Log, k: Key, j: nat): (r: Option<nat>)
    requires j <= |log|
    ensures r.Some? ==> j <= r.value < |log|
    decreases |log| - j
  {
    if j == |log| then None else if KeyOf(log[j]) == k then Some(j) else NextFrom(log, k, j + 1)
  }

  /** `lead(created_at, 1, ...) over (partition by resource_guid, event_type ...)`, as a position. */
  function Lead(log: Log, i: nat): Option<nat>
    requires i < |log|
  {
    NextFrom(log, KeyOf(log[i]), i + 1)
  }

  /** `tstzrange(created_at, lead(created_at, 1, case when staging then created_at else now() end))` */
  function Duration(log: Log, i: nat, now: int): Range
    requires i < |log|
  {
    var e := log[i];
    Range(e.createdAt,
          match Lead(log, i)
          case Some(j) => log[j].createdAt
          case None => if e.eventType.Staging? then e.createdAt else now)
  }

  /** `tstzrange` raises an error when its bounds are the wrong way round. */
  predicate RangesDefined(log: Log, now: int) {
    forall i :: 0 <= i < |log| ==> Duration(log, i, now).lo <= Duration(log, i, now).hi
  }

  lemma {:induction false} NextFromMeaning(log: Log, k: Key, j: nat)
    requires j <= |log|
    ensures match NextFrom(log, k, j)
            case Some(n) => j <= n < |log| && KeyOf(log[n]) == k && forall m :: j <= m < n ==> KeyOf(log[m]) != k
            case None => forall m :: j <= m < |log| ==> KeyOf(log[m]) != k
    decreases |log| - j
  {
    if j < |log| && KeyOf(log[j]) != k {
      NextFromMeaning(log, k, j + 1);
    }
  }

  /** The whole rebuild fails when a resource's newest entry lies in the future, unless it is a staging
      entry; nothing else makes a range undefined. */
  lemma RangesDefinedMeaning(log: Log, now: int)
    requires Ordered(log)
    ensures RangesDefined(log, now) <==>
            forall i :: 0 <= i < |log| && log[i].createdAt > now ==> Lead(log, i).Some? || log[i].eventType.Staging?
  {
    forall i | 0 <= i < |log| ensures Lead(log, i).Some? ==> Duration(log, i, now).lo <= Duration(log, i, now).hi {
      NextFromMeaning(log, KeyOf(log[i]), i + 1);
    }
    if RangesDefined(log, now) {
      forall i | 0 <= i < |log| && log[i].createdAt > now
        ensures Lead(log, i).Some? || log[i].eventType.Staging?
      {
        assert Duration(log, i, now).lo <= Duration(log, i, now).hi;
      }
    }
  }

  /** A log that holds nothing from the future, as the minimum age ensures of what is collected, never makes the
      rebuild fail on its ranges. */
  lemma PastLogIsDefined(log: Log, now: int)
    requires Ordered(log) && forall i :: 0 <= i < |log| ==> log[i].createdAt <= now
    ensures RangesDefined(log, now)
  {
    RangesDefinedMeaning(log, now);
  }

  /** A started, non-empty row of `event_ranges`. */
  datatype Usage = Usage(event: RawEvent, duration: Range)

  function UsageOf(log: Log, i: nat, now: int): Usage
    requires i < |log|
  {
    Usage(Injected(log, i), Duration(log, i, now))
  }

  /** `where state = 'STARTED' and not isempty(duration)`, for one row */
  function Selected(log: Log, i: nat, now: int): seq<Usage>
    requires i < |log|
  {
    if log[i].state == Some(Started) && !Duration(log, i, now).Empty() then [UsageOf(log, i, now)] else []
  }

  function Usages(log: Log, now: int, i: nat := 0): seq<Usage>
    requires i <= |log|
    decreases |log| - i
  {
    if i == |log| then [] else Selected(log, i, now) + Usages(log, now, i + 1)
  }

  /** The entry is a start and was in use for some time. */
  predicate Counted(log: Log, i: nat, now: int)
    requires i < |log|
  {
    log[i].state == Some(Started) && !Duration(log, i, now).Empty()
  }

  /** Its resource had been named, under its event type, by the time of the entry. */
  ghost predicate NamedBy(log: Log, i: nat)
    requires i < |log|
  {
    exists k :: 0 <= k <= i && KeyOf(log[k]) == KeyOf(log[i]) && log[k].name.Some?
  }

  /** The usages are those of the entries that count. */
  lemma {:induction false} UsagesAreCounted(log: Log, now: int, i: nat)
    requires i <= |log|
    ensures forall u :: u in Usages(log, now, i)
                   <==> exists j :: i <= j < |log| && Counted(log, j, now) && u == UsageOf(log, j, now)
    decreases |log| - i
  {
    hide Injected, Duration;
    if i < |log| {
      UsagesAreCounted(log, now, i + 1);
    }
  }

  lemma UsageNames(log: Log, now: int)
    ensures (forall u :: u in Usages(log, now) ==> u.event.name.Some?)
            <==> forall i :: 0 <= i < |log| && Counted(log, i, now) ==> NamedBy(log, i)
  {
    hide Usages, Counted, Injected;
    UsagesAreCounted(log, now, 0);
    forall i | 0 <= i < |log| ensures UsageOf(log, i, now).event.name.Some? <==> NamedBy(log, i) {
      NameKnown(log, i);
    }
    if forall u :: u in Usages(log, now) ==> u.event.name.Some? {
      forall i | 0 <= i < |log| && Counted(log, i, now) ensures NamedBy(log, i) {
        assert UsageOf(log, i, now) in Usages(log, now);
      }
    }
  }

  lemma NameKnown(log: Log, i: nat)
    requires i < |log|
    ensures Injected(log, i).name.Some? <==> NamedBy(log, i)
  {
    InjectedMeaning(log, i);
    var column := (e: RawEvent) => e.name;
    if Injected(log, i).name.Some? {
      var j :| SaidLast(column, KeyOf(log[i]), log[..i + 1], j);
      assert log[..i + 1][j] == log[j];
    }
  }

  ghost predicate UsageGuidsDistinct(us: seq<Usage>) {
    forall i, j :: 0 <= i < j < |us| ==> us[i].event.guid != us[j].event.guid
  }

  lemma OneMoreGuid(u: Usage, us: seq<Usage>)
    ensures UsageGuidsDistinct([u] + us) <==>
            UsageGuidsDistinct(us) && forall v :: v in us ==> v.event.guid != u.event.guid
  {
    var all := [u] + us;
    assert forall i :: 0 <= i < |us| ==> all[i + 1] == us[i];
    if UsageGuidsDistinct(all) {
      forall i, j | 0 <= i < j < |us| ensures us[i].event.guid != us[j].event.guid {
        assert all[i + 1] == us[i] && all[j + 1] == us[j];
      }
      forall v | v in us ensures v.event.guid != u.event.guid {
        var i :| 0 <= i < |us| && us[i] == v;
        assert all[i + 1] == v && all[0] == u;
      }
    }
  }

  lemma UsageGuidIsEntrys(log: Log, now: int, i: nat)
    requires i < |log|
    ensures UsageOf(log, i, now).event.guid == log[i].guid
  {
  }

  lemma {:induction false} UsageGuids(log: Log, now: int, i: nat)
    requires i <= |log|
    ensures UsageGuidsDistinct(Usages(log, now, i))
            <==> forall a, b :: i <= a < b < |log| && Counted(log, a, now) && Counted(log, b, now) ==>
                   log[a].guid != log[b].guid
    decreases |log| - i
  {
    hide UsageOf, Duration, UsageGuidsDistinct;
    if i == |log| {
      assert UsageGuidsDistinct([]) by { NoGuids(); }
    } else {
      UsageGuids(log, now, i + 1);
      UsagesAreCounted(log, now, i + 1);
      forall j | i <= j < |log| ensures UsageOf(log, j, now).event.guid == log[j].guid {
        UsageGuidIsEntrys(log, now, j);
      }
      var rest := Usages(log, now, i + 1);
      if Counted(log, i, now) {
        assert Usages(log, now, i) == [UsageOf(log, i, now)] + rest;
        OneMoreGuid(UsageOf(log, i, now), rest);
        hide Usages, Counted, Selected;
        if UsageGuidsDistinct(Usages(log, now, i)) {
          forall b | i < b < |log| && Counted(log, b, now) ensures log[i].guid != log[b].guid {
            assert UsageOf(log, b, now) in rest;
          }
        }
      } else {
        assert Usages(log, now, i) == rest;
      }
    }
  }

  lemma NoGuids()
    ensures UsageGuidsDistinct([])
  {
  }

  function InUse(k: Key, t: int): Usage -> bool {
    (u: Usage) => KeyOf(u.event) == k && u.duration.Contains(t)
  }

  // ----- The replay -----

  /** Reading the log in order up to instant `t`, the position of each resource's newest entry. */
  function Replay(log: Log, t: int): map<Key, nat> {
    if log == [] then map[]
    else
      var last := |log| - 1;
      var before := Replay(log[..last], t);
      if log[last].createdAt <= t then before[KeyOf(log[last]) := last] else before
  }

  lemma {:induction false} ReplayMeaning(log: Log, t: int, k: Key)
    ensures k in Replay(log, t) ==>
              var i := Replay(log, t)[k];
              && i < |log| && KeyOf(log[i]) == k && log[i].createdAt <= t
              && forall j :: i < j < |log| && KeyOf(log[j]) == k ==> t < log[j].createdAt
    ensures k !in Replay(log, t) ==> forall j :: 0 <= j < |log| && KeyOf(log[j]) == k ==> t < log[j].createdAt
  {
    if log != [] {
      ReplayMeaning(log[..|log| - 1], t, k);
      assert forall j :: 0 <= j < |log| - 1 ==> log[j] == log[..|log| - 1][j];
    }
  }

  /** A row's range holds `t` exactly when the row is what the replay up to `t` finds, unless the row is
      a staging entry that nothing follows. */
  lemma CoversIsReplay(log: Log, i: nat, now: int, t: int)
    requires Ordered(log) && t < now && i < |log|
    ensures var k := KeyOf(log[i]);
            Duration(log, i, now).Contains(t)
            <==> k in Replay(log, t) && Replay(log, t)[k] == i && !(log[i].eventType.Staging? && Lead(log, i).None?)
  {
    var k := KeyOf(log[i]);
    ReplayMeaning(log, t, k);
    NextFromMeaning(log, k, i + 1);
  }

  /** What is in use under `k` at `t`, according to the replay. */
  function Running(log: Log, now: int, k: Key, t: int): seq<Usage> {
    var at := Replay(log, t);
    if k in at && at[k] < |log| && log[at[k]].state == Some(Started)
       && !(log[at[k]].eventType.Staging? && Lead(log, at[k]).None?)
    then [UsageOf(log, at[k], now)] else []
  }

  lemma SelectedInUse(log: Log, now: int, k: Key, t: int, i: nat)
    requires Ordered(log) && t < now && i < |log|
    ensures Filter(InUse(k, t), Selected(log, i, now))
         == if k in Replay(log, t) && Replay(log, t)[k] == i then Running(log, now, k, t) else []
  {
    CoversIsReplay(log, i, now, t);
    ReplayMeaning(log, t, k);
    assert Selected(log, i, now) != [] ==> Filter(InUse(k, t), Selected(log, i, now)[1..]) == [];
  }

  lemma {:induction false} UsagesFrom(log: Log, now: int, k: Key, t: int, i: nat)
    requires Ordered(log) && t < now && i <= |log|
    ensures Filter(InUse(k, t), Usages(log, now, i))
         == if k in Replay(log, t) && Replay(log, t)[k] >= i then Running(log, now, k, t) else []
    decreases |log| - i
  {
    if i < |log| {
      UsagesFrom(log, now, k, t, i + 1);
      FilterConcat(InUse(k, t), Selected(log, i, now), Usages(log, now, i + 1));
      SelectedInUse(log, now, k, t, i);
    } else {
      ReplayMeaning(log, t, k);
    }
  }

  /** For every log, resource, event type and past instant, the usage rows in force are exactly those
      of the replay: one row, the newest entry, when that is a start; none otherwise. */
  lemma UsageIsReplay(log: Log, now: int, k: Key, t: int)
    requires Ordered(log) && t < now
    ensures Filter(InUse(k, t), Usages(log, now)) == Running(log, now, k, t)
  {
    ReplayMeaning(log, t, k);
    UsagesFrom(log, now, k, t, 0);
  }
}
