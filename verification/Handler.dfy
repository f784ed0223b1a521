/** `BillableEventsHandler`: the response written month by month, with each space's tasks summed up. */
module Handler {
  import opened Base

  /** A billable event as it is read from the store; of its other fields only the guid is kept here. */
  datatype Event = Event(guid: string, resourceType: string, orgGuid: string, spaceGuid: string, exVat: real,
      incVat: real)

  /** `rows.Event()`: a decoded row, or an error. */
  datatype RowRead = Row(event: Event) | Broken

  /** The event that stands for all tasks of one space; it takes its other fields from the first of them. */
  datatype TaskTotal = TaskTotal(guid: string, orgGuid: string, spaceGuid: string, exVat: real, incVat: real)

  /** What is written to the response. */
  datatype Token = Open | Delim | RowItem(event: Event) | TaskItem(task: TaskTotal) | Close

  predicate IsTask(e: Event) {
    e.resourceType == "task"
  }

  /** `fmt.Sprintf("%s-%s", row.OrgGUID, row.SpaceGUID)` */
  function KeyOf(org: string, space: string): string {
    org + "-" + space
  }

  /** GUIDs all have the same length, so the key tells organisation and space apart. */
  lemma KeyIsPair(org: string, space: string, org': string, space': string)
    requires |org| == |org'| && KeyOf(org, space) == KeyOf(org', space')
    ensures org == org' && space == space'
  {
    assert KeyOf(org, space)[..|org|] == org && KeyOf(org', space')[..|org'|] == org';
    assert KeyOf(org, space)[|org| + 1..] == space && KeyOf(org', space')[|org'| + 1..] == space';
  }

  function TaskKey(e: Event): string {
    KeyOf(e.orgGuid, e.spaceGuid)
  }

  function TotalKey(t: TaskTotal): string {
    KeyOf(t.orgGuid, t.spaceGuid)
  }

  // ----- What one month's rows amount to -----

  function NonTasks(es: seq<Event>): seq<Event> {
    Filter((e: Event) => !IsTask(e), es)
  }

  function Tasks(es: seq<Event>): seq<Event> {
    Filter((e: Event) => IsTask(e), es)
  }

  function WithKey(key: string): Event -> bool {
    (e: Event) => TaskKey(e) == key
  }

  function WithoutKey(key: string): Event -> bool {
    (e: Event) => TaskKey(e) != key
  }

  function ExVats(es: seq<Event>): seq<real> {
    Map((e: Event) => e.exVat, es)
  }

  function IncVats(es: seq<Event>): seq<real> {
    Map((e: Event) => e.incVat, es)
  }

  /** The loop's step on `taskEvents`. */
  function AddTask(m: map<string, TaskTotal>, e: Event): map<string, TaskTotal> {
    var key := TaskKey(e);
    if key in m then m[key := m[key].(incVat := m[key].incVat + e.incVat, exVat := m[key].exVat + e.exVat)]
    else m[key := TaskTotal(e.guid, e.orgGuid, e.spaceGuid, e.exVat, e.incVat)]
  }

  function TaskTotals(tasks: seq<Event>): map<string, TaskTotal> {
    if tasks == [] then map[] else AddTask(TaskTotals(tasks[..|tasks| - 1]), tasks[|tasks| - 1])
  }

  lemma SumAppend(es: seq<Event>, e: Event)
    ensures Sum(ExVats(es + [e])) == Sum(ExVats(es)) + e.exVat
    ensures Sum(IncVats(es + [e])) == Sum(IncVats(es)) + e.incVat
  {
    assert ExVats(es + [e]) == ExVats(es) + [e.exVat] && IncVats(es + [e]) == IncVats(es) + [e.incVat];
    SumConcat(ExVats(es), [e.exVat]);
    SumConcat(IncVats(es), [e.incVat]);
  }

  /** One total for each organisation and space that has tasks, holding the sum of their prices. */
  lemma {:induction false} TaskTotalsMeaning(tasks: seq<Event>, key: string)
    ensures key in TaskTotals(tasks) <==> Filter(WithKey(key), tasks) != []
    ensures key in TaskTotals(tasks) ==>
              && TaskTotals(tasks)[key].exVat == Sum(ExVats(Filter(WithKey(key), tasks)))
              && TaskTotals(tasks)[key].incVat == Sum(IncVats(Filter(WithKey(key), tasks)))
              && TotalKey(TaskTotals(tasks)[key]) == key
              && TaskTotals(tasks)[key].guid == Filter(WithKey(key), tasks)[0].guid
  {
    if tasks != [] {
      var front, e := tasks[..|tasks| - 1], tasks[|tasks| - 1];
      assert tasks == front + [e];
      TaskTotalsMeaning(front, key);
      FilterConcat(WithKey(key), front, [e]);
      var mine := Filter(WithKey(key), front);
      if TaskKey(e) == key {
        assert Filter(WithKey(key), tasks) == mine + [e];
        SumAppend(mine, e);
      } else {
        assert Filter(WithKey(key), tasks) == mine;
      }
    }
  }

  function InSpace(org: string, space: string): Event -> bool {
    (e: Event) => e.orgGuid == org && e.spaceGuid == space
  }

  lemma {:induction false} TotalFrom(tasks: seq<Event>, key: string) returns (e: Event)
    requires key in TaskTotals(tasks)
    ensures e in tasks && TaskTotals(tasks)[key].orgGuid == e.orgGuid && TaskTotals(tasks)[key].spaceGuid == e.spaceGuid
  {
    var front := tasks[..|tasks| - 1];
    if key in TaskTotals(front) {
      e := TotalFrom(front, key);
    } else {
      e := tasks[|tasks| - 1];
    }
  }

  /** GUIDs all having the same length, there is one total for each organisation and space that has tasks, and
      it holds the sum of the prices of exactly that space's tasks. */
  lemma TotalOfSpace(tasks: seq<Event>, org: string, space: string)
    requires forall e :: e in tasks ==> |e.orgGuid| == |org|
    ensures KeyOf(org, space) in TaskTotals(tasks)
            <==> exists e :: e in tasks && e.orgGuid == org && e.spaceGuid == space
    ensures KeyOf(org, space) in TaskTotals(tasks) ==>
              var total := TaskTotals(tasks)[KeyOf(org, space)];
              && total.orgGuid == org && total.spaceGuid == space
              && (exists e :: e in tasks && e.orgGuid == org && e.spaceGuid == space && e.guid == total.guid)
              && total.exVat == Sum(ExVats(Filter(InSpace(org, space), tasks)))
              && total.incVat == Sum(IncVats(Filter(InSpace(org, space), tasks)))
  {
    hide KeyOf, TaskTotals;
    var key := KeyOf(org, space);
    TaskTotalsMeaning(tasks, key);
    FilterMembers(WithKey(key), tasks);
    forall e | e in tasks ensures WithKey(key)(e) <==> InSpace(org, space)(e) {
      if TaskKey(e) == key {
        KeyIsPair(e.orgGuid, e.spaceGuid, org, space);
      }
    }
    FilterAgree(WithKey(key), InSpace(org, space), tasks);
    var mine := Filter(WithKey(key), tasks);
    if mine != [] {
      assert mine[0] in mine;
      var e := TotalFrom(tasks, key);
      KeyIsPair(e.orgGuid, e.spaceGuid, org, space);
    }
  }

  // ----- Conservation -----

  /** `sent` lists every entry of the map once, in any order: Go's iteration over `taskEvents`. */
  ghost predicate Enumerates(sent: seq<TaskTotal>, m: map<string, TaskTotal>) {
    && (forall i :: 0 <= i < |sent| ==>
          TotalKey(sent[i]) in m && m[TotalKey(sent[i])] == sent[i])
    && (forall key :: key in m ==> exists i :: 0 <= i < |sent| && TotalKey(sent[i]) == key)
    && (forall i, j :: 0 <= i < j < |sent| ==>
          TotalKey(sent[i]) != TotalKey(sent[j]))
  }

  function TaskExVats(ts: seq<TaskTotal>): seq<real> {
    Map((t: TaskTotal) => t.exVat, ts)
  }

  function TaskIncVats(ts: seq<TaskTotal>): seq<real> {
    Map((t: TaskTotal) => t.incVat, ts)
  }

  lemma {:induction false} SplitByKey(es: seq<Event>, key: string)
    ensures Sum(ExVats(es)) == Sum(ExVats(Filter(WithKey(key), es))) + Sum(ExVats(Filter(WithoutKey(key), es)))
    ensures Sum(IncVats(es)) == Sum(IncVats(Filter(WithKey(key), es))) + Sum(IncVats(Filter(WithoutKey(key), es)))
  {
    if es != [] {
      var front, e := es[..|es| - 1], es[|es| - 1];
      assert es == front + [e];
      SplitByKey(front, key);
      FilterConcat(WithKey(key), front, [e]);
      FilterConcat(WithoutKey(key), front, [e]);
      SumAppend(front, e);
      SumAppend(Filter(WithKey(key), front), e);
      SumAppend(Filter(WithoutKey(key), front), e);
      if TaskKey(e) == key {
        assert Filter(WithKey(key), es) == Filter(WithKey(key), front) + [e];
        assert Filter(WithoutKey(key), es) == Filter(WithoutKey(key), front);
      } else {
        assert Filter(WithKey(key), es) == Filter(WithKey(key), front);
        assert Filter(WithoutKey(key), es) == Filter(WithoutKey(key), front) + [e];
      }
    }
  }

  lemma {:induction false} FilterThrough(es: seq<Event>, key: string, other: string)
    requires key != other
    ensures Filter(WithKey(key), Filter(WithoutKey(other), es)) == Filter(WithKey(key), es)
  {
    if es != [] {
      FilterThrough(es[1..], key, other);
    }
  }

  lemma TotalsHead(sent: seq<TaskTotal>)
    requires sent != []
    ensures Sum(TaskExVats(sent)) == sent[0].exVat + Sum(TaskExVats(sent[1..]))
    ensures Sum(TaskIncVats(sent)) == sent[0].incVat + Sum(TaskIncVats(sent[1..]))
  {
    assert TaskExVats(sent)[1..] == TaskExVats(sent[1..]) && TaskIncVats(sent)[1..] == TaskIncVats(sent[1..]);
  }

  lemma SomeTotal(sent: seq<TaskTotal>, tasks: seq<Event>)
    requires forall e :: e in tasks ==> exists i :: 0 <= i < |sent| && TotalKey(sent[i]) == TaskKey(e)
    requires tasks != []
    ensures sent != []
  {
    assert tasks[0] in tasks;
  }

  lemma NoSums()
    ensures Sum(TaskExVats([])) == Sum(ExVats([])) && Sum(TaskIncVats([])) == Sum(IncVats([]))
  {
  }

  /** Totals with different keys that together account for every task sum to what the tasks sum to. */
  lemma {:induction false} TotalsConserve(sent: seq<TaskTotal>, tasks: seq<Event>)
    requires forall i, j :: 0 <= i < j < |sent| ==>
               TotalKey(sent[i]) != TotalKey(sent[j])
    requires forall i :: 0 <= i < |sent| ==>
               && sent[i].exVat == Sum(ExVats(Filter(WithKey(TotalKey(sent[i])), tasks)))
               && sent[i].incVat == Sum(IncVats(Filter(WithKey(TotalKey(sent[i])), tasks)))
    requires forall e :: e in tasks ==> exists i :: 0 <= i < |sent| && TotalKey(sent[i]) == TaskKey(e)
    ensures Sum(TaskExVats(sent)) == Sum(ExVats(tasks))
    ensures Sum(TaskIncVats(sent)) == Sum(IncVats(tasks))
  {
    hide KeyOf, TotalKey, TaskKey, Sum, ExVats, IncVats, TaskExVats, TaskIncVats;
    if sent == [] {
      if tasks != [] {
        SomeTotal(sent, tasks);
      }
      NoSums();
    } else {
      var key, rest := TotalKey(sent[0]), sent[1..];
      var others := Filter(WithoutKey(key), tasks);
      SplitByKey(tasks, key);
      FilterMembers(WithoutKey(key), tasks);
      forall i | 0 <= i < |rest|
        ensures Filter(WithKey(TotalKey(rest[i])), others)
             == Filter(WithKey(TotalKey(rest[i])), tasks)
      {
        FilterThrough(tasks, TotalKey(rest[i]), key);
      }
      forall e | e in others
        ensures exists i :: 0 <= i < |rest| && TotalKey(rest[i]) == TaskKey(e)
      {
        var i :| 0 <= i < |sent| && TotalKey(sent[i]) == TaskKey(e);
        assert rest[i - 1] == sent[i];
      }
      TotalsConserve(rest, others);
      TotalsHead(sent);
    }
  }

  /** The prices a month emits, rows and totals together, sum to the prices of the rows that were read. */
  lemma MonthConserves(es: seq<Event>, sent: seq<TaskTotal>)
    requires Enumerates(sent, TaskTotals(Tasks(es)))
    ensures Sum(ExVats(NonTasks(es))) + Sum(TaskExVats(sent)) == Sum(ExVats(es))
    ensures Sum(IncVats(NonTasks(es))) + Sum(TaskIncVats(sent)) == Sum(IncVats(es))
  {
    var tasks := Tasks(es);
    forall i | 0 <= i < |sent|
      ensures sent[i].exVat == Sum(ExVats(Filter(WithKey(TotalKey(sent[i])), tasks)))
      ensures sent[i].incVat == Sum(IncVats(Filter(WithKey(TotalKey(sent[i])), tasks)))
    {
      TaskTotalsMeaning(tasks, TotalKey(sent[i]));
    }
    forall e | e in tasks
      ensures exists i :: 0 <= i < |sent| && TotalKey(sent[i]) == TaskKey(e)
    {
      TaskTotalsMeaning(tasks, TaskKey(e));
      FilterMembers(WithKey(TaskKey(e)), tasks);
      assert e in Filter(WithKey(TaskKey(e)), tasks);
      assert TaskKey(e) in TaskTotals(tasks);
    }
    TotalsConserve(sent, tasks);
    TasksAndRows(es);
  }

  lemma {:induction false} TasksAndRows(es: seq<Event>)
    ensures Sum(ExVats(NonTasks(es))) + Sum(ExVats(Tasks(es))) == Sum(ExVats(es))
    ensures Sum(IncVats(NonTasks(es))) + Sum(IncVats(Tasks(es))) == Sum(IncVats(es))
  {
    if es != [] {
      var rest := es[1..];
      TasksAndRows(rest);
      assert ExVats(es)[1..] == ExVats(rest) && IncVats(es)[1..] == IncVats(rest);
      if IsTask(es[0]) {
        assert ExVats(Tasks(es))[1..] == ExVats(Tasks(rest)) && IncVats(Tasks(es))[1..] == IncVats(Tasks(rest));
      } else {
        assert ExVats(NonTasks(es))[1..] == ExVats(NonTasks(rest))
              && IncVats(NonTasks(es))[1..] == IncVats(NonTasks(rest));
      }
    }
  }

  // ----- The response -----

  /** The tokens for rows, before (`!header`) or after the opening bracket was sent. */
  function RowTokens(rows: seq<Event>, header: bool): seq<Token> {
    if rows == [] then []
    else (if header then [Delim] else [Open]) + [RowItem(rows[0])] + RowTokens(rows[1..], true)
  }

  function TotalTokens(sent: seq<TaskTotal>): seq<Token> {
    if sent == [] then [] else [Delim, TaskItem(sent[0])] + TotalTokens(sent[1..])
  }

  /** Everything written for months whose rows could all be read. */
  function Body(months: seq<seq<Event>>, sents: seq<seq<TaskTotal>>, header: bool): seq<Token>
    requires |months| == |sents|
  {
    if months == [] then (if header then [] else [Open]) + [Close]
    else
      var rows := NonTasks(months[0]);
      RowTokens(rows, header) + TotalTokens(sents[0]) + Body(months[1..], sents[1..], header || rows != [])
  }

  /** `(, item)* ]` */
  predicate IsTail(ts: seq<Token>) {
    ts == [Close]
    || (|ts| >= 2 && ts[0] == Delim && (ts[1].RowItem? || ts[1].TaskItem?) && IsTail(ts[2..]))
  }

  /** A well-formed array: `[ ]`, or `[ item (, item)* ]` */
  predicate IsArray(ts: seq<Token>) {
    |ts| >= 2 && ts[0] == Open
    && (ts == [Open, Close] || ((ts[1].RowItem? || ts[1].TaskItem?) && IsTail(ts[2..])))
  }

  lemma {:induction false} TotalsThenTail(sent: seq<TaskTotal>, rest: seq<Token>)
    requires IsTail(rest)
    ensures IsTail(TotalTokens(sent) + rest)
  {
    if sent == [] {
      assert TotalTokens(sent) + rest == rest;
    } else {
      TotalsThenTail(sent[1..], rest);
      assert (TotalTokens(sent) + rest)[2..] == TotalTokens(sent[1..]) + rest;
    }
  }

  lemma {:induction false} RowsThenTail(rows: seq<Event>, rest: seq<Token>)
    requires IsTail(rest)
    ensures IsTail(RowTokens(rows, true) + rest)
  {
    if rows == [] {
      assert RowTokens(rows, true) + rest == rest;
    } else {
      RowsThenTail(rows[1..], rest);
      assert (RowTokens(rows, true) + rest)[2..] == RowTokens(rows[1..], true) + rest;
    }
  }

  lemma {:induction false} BodyIsTail(months: seq<seq<Event>>, sents: seq<seq<TaskTotal>>)
    requires |months| == |sents|
    ensures IsTail(Body(months, sents, true))
  {
    if months == [] {
      assert Body(months, sents, true) == [Close];
    } else {
      hide Body, TotalTokens, NonTasks, RowTokens, IsTail;
      var rest := Body(months[1..], sents[1..], true);
      BodyIsTail(months[1..], sents[1..]);
      TotalsThenTail(sents[0], rest);
      RowsThenTail(NonTasks(months[0]), TotalTokens(sents[0]) + rest);
      BodyParts(months, sents, true);
    }
  }

  lemma BodyParts(months: seq<seq<Event>>, sents: seq<seq<TaskTotal>>, header: bool)
    requires |months| == |sents| && months != []
    ensures Body(months, sents, header)
         == RowTokens(NonTasks(months[0]), header)
            + (TotalTokens(sents[0]) + Body(months[1..], sents[1..], header || NonTasks(months[0]) != []))
  {
    hide TotalTokens, NonTasks, RowTokens;
  }

  /** No month with tasks comes before the first month with anything else. */
  ghost predicate TasksFollowRows(months: seq<seq<Event>>) {
    forall i :: 0 <= i < |months| && Tasks(months[i]) != [] ==> exists j :: 0 <= j <= i && NonTasks(months[j]) != []
  }

  lemma TasksFollowRowsStep(months: seq<seq<Event>>)
    requires months != [] && NonTasks(months[0]) == []
    ensures TasksFollowRows(months) <==> Tasks(months[0]) == [] && TasksFollowRows(months[1..])
  {
    var rest := months[1..];
    if TasksFollowRows(months) {
      forall i | 0 <= i < |rest| && Tasks(rest[i]) != []
        ensures exists j :: 0 <= j <= i && NonTasks(rest[j]) != []
      {
        assert rest[i] == months[i + 1];
        var j :| 0 <= j <= i + 1 && NonTasks(months[j]) != [];
        assert rest[j - 1] == months[j];
      }
    }
    if Tasks(months[0]) == [] && TasksFollowRows(rest) {
      forall i | 0 <= i < |months| && Tasks(months[i]) != []
        ensures exists j :: 0 <= j <= i && NonTasks(months[j]) != []
      {
        assert rest[i - 1] == months[i];
        var j :| 0 <= j <= i - 1 && NonTasks(rest[j]) != [];
        assert months[j + 1] == rest[j];
      }
    }
  }

  lemma EmptyArray(months: seq<seq<Event>>, sents: seq<seq<TaskTotal>>)
    requires months == [] && sents == []
    ensures IsArray(Body(months, sents, false)) && TasksFollowRows(months)
  {
    assert Body(months, sents, false) == [Open, Close];
  }

  lemma StartsWithDelim(ts: seq<Token>)
    requires ts != [] && ts[0] == Delim
    ensures !IsArray(ts)
  {
  }

  lemma ArrayOf(event: Event, tail: seq<Token>)
    requires IsTail(tail)
    ensures IsArray([Open, RowItem(event)] + tail)
  {
    assert ([Open, RowItem(event)] + tail)[2..] == tail;
  }

  lemma FirstRowOpens(rows: seq<Event>, rest: seq<Token>)
    requires rows != []
    ensures RowTokens(rows, false) + rest == [Open, RowItem(rows[0])] + (RowTokens(rows[1..], true) + rest)
  {
  }

  lemma RowsFirst(months: seq<seq<Event>>, sents: seq<seq<TaskTotal>>)
    requires |months| == |sents| && months != [] && NonTasks(months[0]) != []
    ensures IsArray(Body(months, sents, false))
  {
    hide Body, TotalTokens, NonTasks, RowTokens, IsArray, IsTail;
    var rows := NonTasks(months[0]);
    var rest := Body(months[1..], sents[1..], true);
    BodyIsTail(months[1..], sents[1..]);
    TotalsThenTail(sents[0], rest);
    RowsThenTail(rows[1..], TotalTokens(sents[0]) + rest);
    ArrayOf(rows[0], RowTokens(rows[1..], true) + (TotalTokens(sents[0]) + rest));
    FirstRowOpens(rows, TotalTokens(sents[0]) + rest);
    BodyParts(months, sents, false);
  }

  /** For a run without errors, the response is one well-formed array if and only if no total of tasks
      is written before the first other row. */
  lemma {:induction false} BodyIsArray(months: seq<seq<Event>>, sents: seq<seq<TaskTotal>>)
    requires |months| == |sents|
    requires forall i :: 0 <= i < |months| ==> (sents[i] == [] <==> Tasks(months[i]) == [])
    ensures IsArray(Body(months, sents, false)) <==> TasksFollowRows(months)
  {
    hide NonTasks, Tasks, IsArray;
    if months == [] {
      EmptyArray(months, sents);
    } else {
      var rows := NonTasks(months[0]);
      var rest := Body(months[1..], sents[1..], rows != []);
      if rows != [] {
        RowsFirst(months, sents);
        assert TasksFollowRows(months);
      } else {
        TasksFollowRowsStep(months);
        if sents[0] == [] {
          assert Body(months, sents, false) == rest;
          assert forall i :: 0 <= i < |months[1..]| ==>
                months[1..][i] == months[i + 1] && sents[1..][i] == sents[i + 1];
          BodyIsArray(months[1..], sents[1..]);
        } else {
          StartsWithDelim(Body(months, sents, false));
        }
      }
    }
  }

  /** A task and nothing else: the response starts with a comma. */
  lemma TasksAloneAreNotAnArray(e: Event)
    requires e.resourceType == "task"
    ensures !IsArray(Body([[e]], [[TaskTotal(e.guid, e.orgGuid, e.spaceGuid, e.exVat, e.incVat)]], false))
  {
    var sents := [[TaskTotal(e.guid, e.orgGuid, e.spaceGuid, e.exVat, e.incVat)]];
    assert Tasks([e]) == [e] && NonTasks([e]) == [];
    assert TotalTokens(sents[0])[0] == Delim;
  }
}
