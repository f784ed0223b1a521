/** The money in the handler's response: from the rows of the bills to the tokens that are written. */
module Response {
  import opened Base
  import opened EventFilters
  import Calendar
  import opened Handler
  import opened HandlerRun
  import opened Database
  import Bills
  import MonthSplit
  import Serving

  function Item(basis: Bills.Basis): Token -> real {
    match basis
    case BeforeVat =>
      ((t: Token) => match t
         case RowItem(e) => e.exVat
         case TaskItem(task) => task.exVat
         case _ => 0.0)
    case AfterVat =>
      ((t: Token) => match t
         case RowItem(e) => e.incVat
         case TaskItem(task) => task.incVat
         case _ => 0.0)
  }

  function Vats(es: seq<Event>, basis: Bills.Basis): seq<real> {
    match basis case BeforeVat => ExVats(es) case AfterVat => IncVats(es)
  }

  /** The amounts in a response, summed up. */
  function Amount(ts: seq<Token>, item: Token -> real): real {
    if ts == [] then 0.0 else item(ts[0]) + Amount(ts[1..], item)
  }

  lemma {:induction false} AmountConcat(a: seq<Token>, b: seq<Token>, item: Token -> real)
    ensures Amount(a + b, item) == Amount(a, item) + Amount(b, item)
  {
    if a == [] {
      assert a + b == b;
    } else {
      AmountConcat(a[1..], b, item);
      assert (a + b)[1..] == a[1..] + b;
    }
  }

  lemma {:induction false} RowsAmount(rows: seq<Event>, header: bool, basis: Bills.Basis)
    ensures Amount(RowTokens(rows, header), Item(basis)) == Sum(Vats(rows, basis))
  {
    if rows != [] {
      RowsAmount(rows[1..], true, basis);
      var first, rest := [if header then Delim else Open, RowItem(rows[0])], RowTokens(rows[1..], true);
      assert RowTokens(rows, header) == first + rest;
      PairAmount(first[0], first[1], rest, Item(basis));
      assert Vats(rows, basis)[1..] == Vats(rows[1..], basis);
    }
  }

  lemma PairAmount(a: Token, b: Token, rest: seq<Token>, item: Token -> real)
    ensures Amount([a, b] + rest, item) == item(a) + item(b) + Amount(rest, item)
  {
    assert ([a, b] + rest)[1..] == [b] + rest && ([b] + rest)[1..] == rest;
  }

  function TaskVats(sent: seq<TaskTotal>, basis: Bills.Basis): seq<real> {
    match basis case BeforeVat => TaskExVats(sent) case AfterVat => TaskIncVats(sent)
  }

  lemma {:induction false} TotalsAmount(sent: seq<TaskTotal>, basis: Bills.Basis)
    ensures Amount(TotalTokens(sent), Item(basis)) == Sum(TaskVats(sent, basis))
  {
    if sent != [] {
      TotalsAmount(sent[1..], basis);
      PairAmount(Delim, TaskItem(sent[0]), TotalTokens(sent[1..]), Item(basis));
      TotalsHead(sent);
    }
  }

  function MonthsVat(months: seq<seq<Event>>, basis: Bills.Basis): real {
    if months == [] then 0.0 else Sum(Vats(months[0], basis)) + MonthsVat(months[1..], basis)
  }

  ghost predicate AllSent(months: seq<seq<Event>>, sents: seq<seq<TaskTotal>>) {
    |months| == |sents| && forall i :: 0 <= i < |months| ==> Enumerates(sents[i], TaskTotals(Tasks(months[i])))
  }

  /** What is written for the rows of all months, tasks summed or not, in whatever order the totals are sent,
      adds up to what was read, before and after VAT. */
  lemma {:induction false} BodyConserves(months: seq<seq<Event>>, sents: seq<seq<TaskTotal>>, header: bool,
      basis: Bills.Basis)
    requires AllSent(months, sents)
    ensures Amount(Body(months, sents, header), Item(basis)) == MonthsVat(months, basis)
    decreases |months|
  {
    hide RowTokens, TotalTokens, NonTasks, Tasks, Enumerates, TaskTotals, Item;
    if months == [] {
      EndAmount(header, sents, basis);
    } else {
      var rows := NonTasks(months[0]);
      var a, b := RowTokens(rows, header), TotalTokens(sents[0]);
      var rest := Body(months[1..], sents[1..], header || rows != []);
      assert AllSent(months[1..], sents[1..]) by { RestSent(months, sents); }
      BodyConserves(months[1..], sents[1..], header || rows != [], basis);
      RowsAmount(rows, header, basis);
      TotalsAmount(sents[0], basis);
      MonthConserves(months[0], sents[0]);
      PartsAmount(a, b, rest, Item(basis));
    }
  }

  lemma RestSent(months: seq<seq<Event>>, sents: seq<seq<TaskTotal>>)
    requires AllSent(months, sents) && months != []
    ensures AllSent(months[1..], sents[1..])
  {
  }

  lemma PartsAmount(a: seq<Token>, b: seq<Token>, rest: seq<Token>, item: Token -> real)
    ensures Amount(a + b + rest, item) == Amount(a, item) + Amount(b, item) + Amount(rest, item)
  {
    AmountConcat(a + b, rest, item);
    AmountConcat(a, b, item);
  }

  lemma EndAmount(header: bool, sents: seq<seq<TaskTotal>>, basis: Bills.Basis)
    requires sents == []
    ensures Amount(Body([], sents, header), Item(basis)) == 0.0
  {
    if !header {
      assert Body([], sents, header) == [Open, Close];
      assert [Open, Close][1..] == [Close];
    }
    assert [Close][1..] == [];
  }

  /** The rows in a response, without delimiters and totals. */
  function RowsWritten(ts: seq<Token>): seq<Event> {
    if ts == [] then []
    else if ts[0].RowItem? then [ts[0].event] + RowsWritten(ts[1..])
    else RowsWritten(ts[1..])
  }

  lemma {:induction false} RowsWrittenConcat(a: seq<Token>, b: seq<Token>)
    ensures RowsWritten(a + b) == RowsWritten(a) + RowsWritten(b)
  {
    if a == [] {
      assert a + b == b;
    } else {
      RowsWrittenConcat(a[1..], b);
      assert (a + b)[1..] == a[1..] + b && (a + b)[0] == a[0];
    }
  }

  lemma {:induction false} RowTokensWritten(rows: seq<Event>, header: bool)
    ensures RowsWritten(RowTokens(rows, header)) == rows
  {
    if rows != [] {
      RowTokensWritten(rows[1..], true);
      var first, rest := [if header then Delim else Open, RowItem(rows[0])], RowTokens(rows[1..], true);
      assert RowTokens(rows, header) == first + rest;
      RowsWrittenConcat(first, rest);
      assert first[1..] == [RowItem(rows[0])] && first[1..][1..] == [];
    }
  }

  lemma {:induction false} TotalTokensWritten(sent: seq<TaskTotal>)
    ensures RowsWritten(TotalTokens(sent)) == []
  {
    if sent != [] {
      TotalTokensWritten(sent[1..]);
      var first, rest := [Delim, TaskItem(sent[0])], TotalTokens(sent[1..]);
      RowsWrittenConcat(first, rest);
      assert first[1..] == [TaskItem(sent[0])] && first[1..][1..] == [];
    }
  }

  function AllNonTasks(months: seq<seq<Event>>): seq<Event> {
    if months == [] then []
    else Filter((e: Event) => e.resourceType != "task", months[0]) + AllNonTasks(months[1..])
  }

  /** Every row that is not a task is written once, unchanged and in the order in which it was read. */
  lemma {:induction false} BodyRows(months: seq<seq<Event>>, sents: seq<seq<TaskTotal>>, header: bool)
    requires |months| == |sents|
    ensures RowsWritten(Body(months, sents, header)) == AllNonTasks(months)
    decreases |months|
  {
    hide RowTokens, TotalTokens, NonTasks, RowsWritten;
    if months == [] {
      EndRows(header, sents);
    } else {
      var rows := NonTasks(months[0]);
      NonTasksAre(months[0]);
      var rest := Body(months[1..], sents[1..], header || rows != []);
      BodyRows(months[1..], sents[1..], header || rows != []);
      RowTokensWritten(rows, header);
      TotalTokensWritten(sents[0]);
      RowsWrittenConcat(RowTokens(rows, header) + TotalTokens(sents[0]), rest);
      RowsWrittenConcat(RowTokens(rows, header), TotalTokens(sents[0]));
    }
  }

  lemma NonTasksAre(es: seq<Event>)
    ensures NonTasks(es) == Filter((e: Event) => e.resourceType != "task", es)
  {
    FilterAgree((e: Event) => !IsTask(e), (e: Event) => e.resourceType != "task", es);
  }

  lemma EndRows(header: bool, sents: seq<seq<TaskTotal>>)
    requires sents == []
    ensures RowsWritten(Body([], sents, header)) == []
  {
    if !header {
      assert Body([], sents, header) == [Open, Close];
      assert [Open, Close][1..] == [Close];
    }
    assert [Close][1..] == [];
  }

  // ----- Joined to the bills -----

  /** The row of a bill as the handler reads it. */
  function EventOf(): Bills.BillRow -> Event {
    (row: Bills.BillRow) =>
      var subject := row.key.subject;
      Event(subject.eventGuid, subject.resourceType, subject.orgGuid, subject.spaceGuid, row.exVat, row.incVat)
  }

  function Read(months: seq<seq<Bills.BillRow>>): seq<seq<Event>> {
    Map((rows: seq<Bills.BillRow>) => Map(EventOf(), rows), months)
  }

  lemma {:induction false} ReadTotal(months: seq<seq<Bills.BillRow>>, basis: Bills.Basis)
    ensures MonthsVat(Read(months), basis) == Serving.RowsTotal(months, basis)
  {
    if months != [] {
      ReadTotal(months[1..], basis);
      assert Read(months)[1..] == Read(months[1..]);
      assert Vats(Read(months)[0], basis) == Bills.RowPrices(months[0], basis);
    }
  }

  /** Whatever mixture of cached and live months is served, the amounts in the response add up to the bills
      that were served, before and after VAT ... */
  lemma ResponseConserves(db: Db, f: EventFilter, sents: seq<seq<TaskTotal>>, basis: Bills.Basis)
    requires Serving.Answer(db, f).Ok? && AllSent(Read(Serving.Answer(db, f).value), sents)
    ensures Amount(Body(Read(Serving.Answer(db, f).value), sents, false), Item(basis))
         == Serving.RowsTotal(Serving.Answer(db, f).value, basis)
  {
    BodyConserves(Read(Serving.Answer(db, f).value), sents, false, basis);
    ReadTotal(Serving.Answer(db, f).value, basis);
  }

  /** ... and so to the single bill for the whole window, plus at most one started hour for each component. */
  lemma ResponseTotal(db: Db, f: EventFilter, sents: seq<seq<TaskTotal>>, basis: Bills.Basis)
    requires Sound(db) && Serving.UpToDate(db)
    requires f.Valid() && Calendar.Before(f.start.value, f.stop.value)
    requires MonthSplit.AskedAreMetered(db.components, f, basis)
    requires Serving.Answer(db, f).Ok? ==> AllSent(Read(Serving.Answer(db, f).value), sents)
    ensures Serving.Answer(db, f).Ok?
    ensures 0.0 <= Amount(Body(Read(Serving.Answer(db, f).value), sents, false), Item(basis))
                   - MonthSplit.Total(db.components, f, basis)
                <= MonthSplit.AskedHours(db.components, f, basis)
  {
    hide Sound, Serving.UpToDate, AllSent, Body, Read, MonthSplit.AskedAreMetered, MonthSplit.Total,
        MonthSplit.AskedHours;
    Serving.AnswerTotal(db, f, basis);
    ResponseConserves(db, f, sents, basis);
  }

  // ----- A cursor that breaks -----

  /** The fields that the handler decides by and passes on are those of the bill rows, one by one. */
  lemma ReadColumns(months: seq<seq<Bills.BillRow>>)
    ensures |Read(months)| == |months|
    ensures forall i :: 0 <= i < |months| ==> |Read(months)[i]| == |months[i]|
    ensures forall i, j :: 0 <= i < |months| && 0 <= j < |months[i]| ==>
              var e, row := Read(months)[i][j], months[i][j];
              && e.guid == row.key.subject.eventGuid && e.resourceType == row.key.subject.resourceType
              && e.orgGuid == row.key.subject.orgGuid && e.spaceGuid == row.key.subject.spaceGuid
              && e.exVat == row.exVat && e.incVat == row.incVat
  {
  }

  ghost predicate Decodable(months: seq<Cursor>) {
    forall i :: 0 <= i < |months| ==> Readable(months[i].rows)
  }

  /** The events of all rows of the queries. */
  function Queried(months: seq<Cursor>): seq<seq<Event>>
    requires Decodable(months)
  {
    seq(|months|, i requires 0 <= i < |months| && Readable(months[i].rows) => Decoded(months[i].rows))
  }

  /** The prices of the rows that broken cursors did not yield. */
  function LostVat(months: seq<Cursor>, basis: Bills.Basis): real
    requires Decodable(months)
  {
    if months == [] then 0.0
    else
      assert Readable(months[0].rows);
      Sum(Vats(Decoded(months[0].Unfetched()), basis)) + LostVat(months[1..], basis)
  }

  lemma CursorSplits(c: Cursor, basis: Bills.Basis)
    requires Readable(c.rows)
    ensures Readable(c.Fetched()) && Readable(c.Unfetched())
    ensures Sum(Vats(Decoded(c.rows), basis))
         == Sum(Vats(Decoded(c.Fetched()), basis)) + Sum(Vats(Decoded(c.Unfetched()), basis))
    ensures Decoded(c.Fetched()) == Decoded(c.rows) <==> c.Unfetched() == []
  {
    assert c.rows == c.Fetched() + c.Unfetched();
    hide Cursor.Fetched, Cursor.Unfetched;
    DecodedSplits(c.Fetched(), c.Unfetched());
    VatsSplit(Decoded(c.Fetched()), Decoded(c.Unfetched()), basis);
  }

  lemma DecodedSplits(a: seq<RowRead>, b: seq<RowRead>)
    requires Readable(a + b)
    ensures Readable(a) && Readable(b) && Decoded(a + b) == Decoded(a) + Decoded(b)
    ensures Decoded(a) == Decoded(a + b) <==> b == []
  {
    assert forall i :: 0 <= i < |a| ==> a[i] == (a + b)[i];
    assert forall i :: 0 <= i < |b| ==> b[i] == (a + b)[|a| + i];
    assert Decoded(a + b) == Decoded(a) + Decoded(b);
    assert |Decoded(a)| == |a| && |Decoded(a + b)| == |a| + |b|;
    assert b == [] ==> a + b == a;
  }

  lemma VatsSplit(a: seq<Event>, b: seq<Event>, basis: Bills.Basis)
    ensures Sum(Vats(a + b, basis)) == Sum(Vats(a, basis)) + Sum(Vats(b, basis))
  {
    assert Vats(a + b, basis) == Vats(a, basis) + Vats(b, basis);
    SumConcat(Vats(a, basis), Vats(b, basis));
  }

  lemma {:induction false} FetchedVat(months: seq<Cursor>, basis: Bills.Basis)
    requires Decodable(months)
    ensures forall i :: 0 <= i < |months| ==> Readable(months[i].Fetched())
    ensures MonthsVat(FetchedEvents(months), basis) == MonthsVat(Queried(months), basis) - LostVat(months, basis)
  {
    hide Vats, Decoded;
    if months != [] {
      CursorSplits(months[0], basis);
      FetchedVat(months[1..], basis);
      assert forall i :: 0 < i < |months| ==> months[i] == months[1..][i - 1];
      assert FetchedEvents(months)[1..] == FetchedEvents(months[1..]);
      assert Queried(months)[1..] == Queried(months[1..]);
    }
  }

  lemma AllFetched(months: seq<Cursor>)
    requires Decodable(months) && forall i :: 0 <= i < |months| ==> Readable(months[i].Fetched())
    ensures FetchedEvents(months) == Queried(months) <==> forall i :: 0 <= i < |months| ==> months[i].Unfetched() == []
  {
    hide Decoded;
    forall i | 0 <= i < |months|
      ensures FetchedEvents(months)[i] == Queried(months)[i] <==> months[i].Unfetched() == []
    {
      CursorSplits(months[i], Bills.BeforeVat);
    }
    if forall i :: 0 <= i < |months| ==> months[i].Unfetched() == [] {
      assert FetchedEvents(months) == Queried(months);
    }
  }

  /** When cursors break and every row they yield decodes, the handler reports no error (`HandlerRun.Handle`
      is `Done`): the response is the complete body for the rows that were fetched, which are all rows exactly
      when no cursor lost any, and its amounts are short of exactly the rows that were lost. */
  lemma BrokenCursorsAreSilent(months: seq<Cursor>, sents: seq<seq<TaskTotal>>, basis: Bills.Basis)
    requires Decodable(months) && |sents| == |months|
    requires forall i :: 0 <= i < |months| ==> Readable(months[i].Fetched())
    requires AllSent(FetchedEvents(months), sents)
    ensures RowsWritten(Body(FetchedEvents(months), sents, false)) == AllNonTasks(FetchedEvents(months))
    ensures FetchedEvents(months) == Queried(months) <==> forall i :: 0 <= i < |months| ==> months[i].Unfetched() == []
    ensures Amount(Body(FetchedEvents(months), sents, false), Item(basis))
         == MonthsVat(Queried(months), basis) - LostVat(months, basis)
    ensures IsArray(Body(FetchedEvents(months), sents, false)) <==> TasksFollowRows(FetchedEvents(months))
  {
    BodyRows(FetchedEvents(months), sents, false);
    AllFetched(months);
    BodyConserves(FetchedEvents(months), sents, false, basis);
    FetchedVat(months, basis);
    ResponseIsArray(FetchedEvents(months), sents);
  }

  /** One row, and a cursor that breaks before it: the response is an empty array and its price is gone. */
  lemma OneLostRow(e: Event) returns (months: seq<Cursor>)
    ensures Decodable(months) && Queried(months) == [[e]]
    ensures forall i :: 0 <= i < |months| ==> Readable(months[i].Fetched())
    ensures Body(FetchedEvents(months), [[]], false) == [Open, Close]
    ensures LostVat(months, Bills.AfterVat) == e.incVat
  {
    var cursor := Cursor([Row(e)], Some(0));
    months := [cursor];
    assert cursor.Fetched() == [] && cursor.Unfetched() == [Row(e)];
    assert Decoded([Row(e)]) == [e] && Decoded([]) == [];
    assert FetchedEvents(months) == [[]] && Queried(months) == [[e]];
    assert NonTasks([]) == [];
    assert months[1..] == [] && LostVat(months[1..], Bills.AfterVat) == 0.0;
    assert Sum([e.incVat]) == e.incVat by { assert [e.incVat][1..] == []; }
    assert Vats(Decoded(months[0].Unfetched()), Bills.AfterVat) == [e.incVat];
  }
}
