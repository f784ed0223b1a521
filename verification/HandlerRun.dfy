/** The billable events handler as it runs: it streams rows, remembers task totals, and writes as it goes. */
module HandlerRun {
  import opened Base
  import opened Handler

  predicate Readable(rows: seq<RowRead>) {
    forall i :: 0 <= i < |rows| ==> rows[i].Row?
  }

  function Decoded(rows: seq<RowRead>): seq<Event>
    requires Readable(rows)
  {
    seq(|rows|, i requires 0 <= i < |rows| && rows[i].Row? => rows[i].event)
  }

  /** The rows before the first one that cannot be decoded. */
  function Leading(rows: seq<RowRead>): (r: seq<RowRead>)
    ensures r <= rows && Readable(r) && (r == rows <==> Readable(rows))
  {
    if rows == [] || rows[0].Broken? then []
    else
      var rest := Leading(rows[1..]);
      assert [rows[0]] + rest <= rows;
      [rows[0]] + rest
  }

  predicate HasRows(months: seq<seq<Event>>) {
    exists i :: 0 <= i < |months| && NonTasks(months[i]) != []
  }

  /** What has been written after some months, without the end of the response. */
  function Written(months: seq<seq<Event>>, sents: seq<seq<TaskTotal>>): seq<Token>
    requires |months| == |sents|
  {
    if months == [] then []
    else
      var last := |months| - 1;
      Written(months[..last], sents[..last])
      + RowTokens(NonTasks(months[last]), HasRows(months[..last]))
      + TotalTokens(sents[last])
  }

  lemma {:induction false} RowTokensAppend(rows: seq<Event>, e: Event, header: bool)
    ensures RowTokens(rows + [e], header)
         == RowTokens(rows, header) + (if header || rows != [] then [Delim] else [Open]) + [RowItem(e)]
  {
    if rows != [] {
      RowTokensAppend(rows[1..], e, true);
      assert (rows + [e])[1..] == rows[1..] + [e];
    }
  }

  lemma {:induction false} TotalTokensAppend(sent: seq<TaskTotal>, t: TaskTotal)
    ensures TotalTokens(sent + [t]) == TotalTokens(sent) + [Delim, TaskItem(t)]
  {
    if sent != [] {
      TotalTokensAppend(sent[1..], t);
      assert (sent + [t])[1..] == sent[1..] + [t];
    }
  }

  lemma HasRowsSplit(a: seq<seq<Event>>, m: seq<Event>)
    ensures HasRows(a + [m]) <==> HasRows(a) || NonTasks(m) != []
  {
    assert forall i :: 0 <= i < |a| ==> (a + [m])[i] == a[i];
    assert (a + [m])[|a|] == m;
  }

  lemma WrittenNext(done: seq<seq<Event>>, sents: seq<seq<TaskTotal>>, month: seq<Event>, sent: seq<TaskTotal>)
    requires |done| == |sents|
    ensures Written([], []) == []
    ensures Written(done + [month], sents + [sent])
         == Written(done, sents) + RowTokens(NonTasks(month), HasRows(done)) + TotalTokens(sent)
  {
    hide RowTokens, TotalTokens, NonTasks, HasRows;
    assert (done + [month])[..|done|] == done && (sents + [sent])[..|done|] == sents;
  }

  lemma BodyNext(m: seq<Event>, s: seq<TaskTotal>, b: seq<seq<Event>>, sb: seq<seq<TaskTotal>>, header: bool)
    requires |b| == |sb|
    ensures Body([m] + b, [s] + sb, header)
         == RowTokens(NonTasks(m), header) + TotalTokens(s) + Body(b, sb, header || NonTasks(m) != [])
  {
    hide RowTokens, TotalTokens, NonTasks;
    assert ([m] + b)[1..] == b && ([s] + sb)[1..] == sb;
  }

  /** The months written so far, followed by the body for the others, is the whole body. */
  lemma {:induction false} WrittenThenBody(a: seq<seq<Event>>, sa: seq<seq<TaskTotal>>, b: seq<seq<Event>>,
      sb: seq<seq<TaskTotal>>)
    requires |a| == |sa| && |b| == |sb|
    ensures Body(a + b, sa + sb, false) == Written(a, sa) + Body(b, sb, HasRows(a))
    decreases |a|
  {
    hide Body, Written, RowTokens, TotalTokens, NonTasks, HasRows;
    if a == [] {
      NoRows();
      WrittenNext([], [], [], []);
      assert a + b == b && sa + sb == sb;
    } else {
      var last := |a| - 1;
      var m, s := a[last], sa[last];
      WrittenThenBody(a[..last], sa[..last], [m] + b, [s] + sb);
      assert a[..last] + ([m] + b) == a + b && sa[..last] + ([s] + sb) == sa + sb;
      BodyNext(m, s, b, sb, HasRows(a[..last]));
      HasRowsSplit(a[..last], m);
      WrittenNext(a[..last], sa[..last], m, s);
      assert a[..last] + [m] == a && sa[..last] + [s] == sa;
    }
  }

  lemma NoRows()
    ensures !HasRows([])
  {
  }

  lemma {:induction false} TaskTotalsAppend(tasks: seq<Event>, e: Event)
    ensures TaskTotals(tasks + [e]) == AddTask(TaskTotals(tasks), e)
  {
    assert (tasks + [e])[..|tasks|] == tasks;
  }

  lemma FilterLast(es: seq<Event>, e: Event)
    ensures Tasks(es + [e]) == if IsTask(e) then Tasks(es) + [e] else Tasks(es)
    ensures NonTasks(es + [e]) == if IsTask(e) then NonTasks(es) else NonTasks(es) + [e]
  {
    TasksConcat(es, [e]);
  }

  lemma {:induction false} TasksConcat(a: seq<Event>, b: seq<Event>)
    ensures Tasks(a + b) == Tasks(a) + Tasks(b) && NonTasks(a + b) == NonTasks(a) + NonTasks(b)
  {
    if a == [] {
      assert a + b == b;
    } else {
      TasksConcat(a[1..], b);
      assert (a + b)[1..] == a[1..] + b;
    }
  }

  /** The cursor of one month's query; it may break after some rows. */
  datatype Cursor = Cursor(rows: seq<RowRead>, breaksAfter: Option<nat>) {
    /** `rows.Next()`, which reports a broken cursor and the end in the same way. The handler never asks
        `rows.Err()` which of the two it was. */
    predicate Next(i: nat) {
      i < |rows| && (breaksAfter.Some? ==> i < breaksAfter.value)
    }

    /** The rows that the cursor yields. */
    function Fetched(): seq<RowRead> {
      if breaksAfter.Some? && breaksAfter.value < |rows| then rows[..breaksAfter.value] else rows
    }

    /** ... and those that are lost. */
    function Unfetched(): seq<RowRead> {
      rows[|Fetched()|..]
    }
  }

  /** The loop over one month's rows; `header` says whether the opening bracket was sent, which is also
      when the delimiter becomes a comma. */
  method StreamRows(cursor: Cursor, header: bool)
    returns (tokens: seq<Token>, sentOKHeader: bool, totals: map<string, TaskTotal>, r: Outcome)
    ensures r.Done? <==> Readable(cursor.Fetched())
    ensures tokens == RowTokens(NonTasks(Decoded(Leading(cursor.Fetched()))), header)
    ensures totals == TaskTotals(Tasks(Decoded(Leading(cursor.Fetched()))))
    ensures sentOKHeader <==> header || NonTasks(Decoded(Leading(cursor.Fetched()))) != []
  {
    hide TaskTotals, RowTokens, NonTasks, Tasks, Leading;
    tokens, sentOKHeader, totals := [], header, map[];
    ghost var rows := cursor.Fetched();
    var i := 0;
    StreamStart(header);
    assert Decoded(rows[..0]) == [];
    while cursor.Next(i)
      invariant 0 <= i <= |rows| && Readable(rows[..i])
      invariant tokens == RowTokens(NonTasks(Decoded(rows[..i])), header)
      invariant totals == TaskTotals(Tasks(Decoded(rows[..i])))
      invariant sentOKHeader <==> header || NonTasks(Decoded(rows[..i])) != []
      decreases |rows| - i
    {
      assert cursor.rows[i] == rows[i];
      if cursor.rows[i].Broken? {
        LeadingStops(rows, i);
        return tokens, sentOKHeader, totals, Failed("row");
      }
      var row := cursor.rows[i].event;
      assert rows[..i + 1] == rows[..i] + [rows[i]];
      assert Decoded(rows[..i + 1]) == Decoded(rows[..i]) + [row];
      FilterLast(Decoded(rows[..i]), row);
      if IsTask(row) {
        TaskTotalsAppend(Tasks(Decoded(rows[..i])), row);
        totals := AddTask(totals, row);
      } else {
        RowTokensAppend(NonTasks(Decoded(rows[..i])), row, header);
        var delim := sentOKHeader;
        if !sentOKHeader {
          tokens := tokens + [Open];
          sentOKHeader := true;
        }
        if delim {
          tokens := tokens + [Delim];
        }
        tokens := tokens + [RowItem(row)];
      }
      i := i + 1;
    }
    assert rows[..i] == rows;
    r := Done;
  }

  lemma {:induction false} LeadingStops(rows: seq<RowRead>, i: nat)
    requires i < |rows| && Readable(rows[..i]) && rows[i].Broken?
    ensures Leading(rows) == rows[..i]
  {
    if i > 0 {
      assert rows[0] == rows[..i][0] && rows[1..][..i - 1] == rows[..i][1..];
      LeadingStops(rows[1..], i - 1);
    }
  }

  lemma StreamStart(header: bool)
    ensures RowTokens(NonTasks([]), header) == [] && TaskTotals(Tasks([])) == map[] && NonTasks([]) == []
  {
  }

  /** Every key in `m` outside `left` has been sent, once. */
  ghost predicate SentSoFar(sent: seq<TaskTotal>, m: map<string, TaskTotal>, left: set<string>) {
    && (forall i :: 0 <= i < |sent| ==>
        TotalKey(sent[i]) in m && TotalKey(sent[i]) !in left && m[TotalKey(sent[i])] == sent[i])
    && (forall key :: key in m && key !in left ==> exists i :: 0 <= i < |sent| && TotalKey(sent[i]) == key)
    && (forall i, j :: 0 <= i < j < |sent| ==> TotalKey(sent[i]) != TotalKey(sent[j]))
  }

  lemma SentOneMore(sent: seq<TaskTotal>, m: map<string, TaskTotal>, left: set<string>, key: string)
    requires SentSoFar(sent, m, left) && key in left && key in m && TotalKey(m[key]) == key
    ensures SentSoFar(sent + [m[key]], m, left - {key})
  {
    hide TotalKey;
    var more := sent + [m[key]];
    forall k | k in m && k !in left - {key} ensures exists i :: 0 <= i < |more| && TotalKey(more[i]) == k {
      if k == key {
        assert more[|sent|] == m[key];
      } else {
        var i :| 0 <= i < |sent| && TotalKey(sent[i]) == k;
        assert more[i] == sent[i];
      }
    }
  }

  /** The loop over `taskEvents`, in whatever order Go's map yields it. */
  method SendTotals(m: map<string, TaskTotal>) returns (tokens: seq<Token>, sent: seq<TaskTotal>)
    requires forall key :: key in m ==> TotalKey(m[key]) == key
    ensures Enumerates(sent, m) && tokens == TotalTokens(sent)
  {
    hide TotalKey, TotalTokens;
    tokens, sent := [], [];
    var left := m.Keys;
    assert TotalTokens([]) == [] by { NoTotals(); }
    while left != {}
      invariant left <= m.Keys
      invariant SentSoFar(sent, m, left)
      invariant tokens == TotalTokens(sent)
      decreases left
    {
      var key :| key in left;
      SentOneMore(sent, m, left, key);
      TotalTokensAppend(sent, m[key]);
      tokens := tokens + [Delim, TaskItem(m[key])];
      sent := sent + [m[key]];
      left := left - {key};
    }
  }

  lemma NoTotals()
    ensures TotalTokens([]) == []
  {
  }

  /** The events that some months' cursors yield. */
  function FetchedEvents(months: seq<Cursor>): seq<seq<Event>>
    requires forall i :: 0 <= i < |months| ==> Readable(months[i].Fetched())
  {
    seq(|months|, i requires 0 <= i < |months| && Readable(months[i].Fetched()) => Decoded(months[i].Fetched()))
  }

  /** A month's query was opened and every row that its cursor yields decodes. */
  predicate Answered(m: Result<Cursor>) {
    m.Ok? && Readable(m.value.Fetched())
  }

  function Cursors(months: seq<Result<Cursor>>): seq<Cursor>
    requires forall i :: 0 <= i < |months| ==> Answered(months[i])
  {
    seq(|months|, i requires 0 <= i < |months| && Answered(months[i]) => months[i].value)
  }

  /** What a month that is not answered still adds to the response. */
  function Partial(m: Result<Cursor>, header: bool): seq<Token> {
    match m
    case Err(_) => []
    case Ok(cursor) => RowTokens(NonTasks(Decoded(Leading(cursor.Fetched()))), header)
  }

  lemma CursorsAnswered(months: seq<Result<Cursor>>)
    requires forall i :: 0 <= i < |months| ==> Answered(months[i])
    ensures forall i :: 0 <= i < |Cursors(months)| ==> Readable(Cursors(months)[i].Fetched())
  {
  }

  /** The events of answered months. */
  function AnsweredEvents(months: seq<Result<Cursor>>): seq<seq<Event>>
    requires forall i :: 0 <= i < |months| ==> Answered(months[i])
  {
    CursorsAnswered(months);
    FetchedEvents(Cursors(months))
  }

  /** The handler, once the query was authorised and split into months. A month is an error if its check in the
      history or its query fails, which may be after earlier months were written. */
  method Handle(months: seq<Result<Cursor>>) returns (body: seq<Token>, sents: seq<seq<TaskTotal>>, r: Outcome)
    ensures r.Done? <==> forall i :: 0 <= i < |months| ==> Answered(months[i])
    ensures |sents| <= |months|
    ensures forall i :: 0 <= i < |sents| ==>
              Answered(months[i]) && Enumerates(sents[i], TaskTotals(Tasks(Decoded(months[i].value.Fetched()))))
    ensures r.Failed? ==>
              && |sents| < |months| && !Answered(months[|sents|])
              && var written := AnsweredEvents(months[..|sents|]);
                 body == Written(written, sents) + Partial(months[|sents|], HasRows(written))
    ensures r.Done? ==> |sents| == |months| && body == Body(AnsweredEvents(months), sents, false)
  {
    hide Body, Written, RowTokens, TotalTokens, NonTasks, Tasks, TaskTotals, Enumerates, HasRows, Leading, Readable,
        Decoded;
    body, sents := [], [];
    var sentOKHeader := false;
    ghost var done: seq<seq<Event>> := [];
    NoRows();
    WrittenNext([], [], [], []);
    var n := 0;
    while n < |months|
      invariant 0 <= n <= |months| && |sents| == |done| == n
      invariant forall i :: 0 <= i < n ==> Answered(months[i]) && done[i] == Decoded(months[i].value.Fetched())
      invariant forall i :: 0 <= i < n ==> Enumerates(sents[i], TaskTotals(Tasks(Decoded(months[i].value.Fetched()))))
      invariant body == Written(done, sents)
      invariant sentOKHeader <==> HasRows(done)
    {
      if months[n].Err? {
        assert done == AnsweredEvents(months[..n]);
        return body, sents, Failed(months[n].error);
      }
      var cursor := months[n].value;
      var tokens, header, totals, outcome := StreamRows(cursor, sentOKHeader);
      body := body + tokens;
      if outcome.Failed? {
        assert done == AnsweredEvents(months[..n]);
        return body, sents, outcome;
      }
      assert Leading(cursor.Fetched()) == cursor.Fetched();
      ghost var month := Decoded(cursor.Fetched());
      TotalsKeyed(Tasks(month));
      var totalTokens, sent := SendTotals(totals);
      body := body + totalTokens;
      HasRowsSplit(done, month);
      WrittenNext(done, sents, month, sent);
      done, sents, sentOKHeader := done + [month], sents + [sent], header;
      n := n + 1;
    }
    assert months[..n] == months;
    WrittenThenBody(done, sents, [], []);
    assert done + [] == done && sents + [] == sents;
    BodyEnd(sentOKHeader);
    if !sentOKHeader {
      body := body + [Open];
    }
    body := body + [Close];
    assert done == AnsweredEvents(months);
    r := Done;
  }

  lemma SentKey(sent: seq<TaskTotal>, m: map<string, TaskTotal>)
    requires Enumerates(sent, m) && sent != []
    ensures m != map[]
  {
    assert TotalKey(sent[0]) in m;
  }

  lemma NothingSent(sent: seq<TaskTotal>, tasks: seq<Event>)
    requires Enumerates(sent, TaskTotals(tasks))
    ensures sent == [] <==> tasks == []
  {
    if tasks != [] {
      TaskTotalsMeaning(tasks, TaskKey(tasks[0]));
      FilterMembers(WithKey(TaskKey(tasks[0])), tasks);
      assert tasks[0] in Filter(WithKey(TaskKey(tasks[0])), tasks);
      assert TaskKey(tasks[0]) in TaskTotals(tasks);
      var i :| 0 <= i < |sent| && TotalKey(sent[i]) == TaskKey(tasks[0]);
    } else if sent != [] {
      SentKey(sent, TaskTotals(tasks));
    }
  }

  /** Whatever order the totals are sent in, the response to an error-free run is a well-formed array
      exactly when no task is read before the month of the first other row. */
  lemma ResponseIsArray(months: seq<seq<Event>>, sents: seq<seq<TaskTotal>>)
    requires |months| == |sents|
    requires forall i :: 0 <= i < |months| ==> Enumerates(sents[i], TaskTotals(Tasks(months[i])))
    ensures IsArray(Body(months, sents, false)) <==> TasksFollowRows(months)
  {
    forall i | 0 <= i < |months| ensures sents[i] == [] <==> Tasks(months[i]) == [] {
      NothingSent(sents[i], Tasks(months[i]));
    }
    BodyIsArray(months, sents);
  }

  lemma BodyEnd(header: bool)
    ensures Body([], [], header) == (if header then [] else [Open]) + [Close]
  {
  }

  lemma TotalsKeyed(tasks: seq<Event>)
    ensures forall key :: key in TaskTotals(tasks) ==> TotalKey(TaskTotals(tasks)[key]) == key
  {
    forall key | key in TaskTotals(tasks) ensures TotalKey(TaskTotals(tasks)[key]) == key {
      TaskTotalsMeaning(tasks, key);
    }
  }
}
