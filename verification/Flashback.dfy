/**
 Flashback: the binary log printed backwards, so that replaying the output undoes
 the log.

 The row events of a statement are kept until the statement ends, then printed
 from the last to the first; the chunks so made, and the texts of other events,
 are kept until the log ends, then printed from the last to the first. An event's
 text goes through a cache that is emptied, into the output of the event being
 printed, by an event that carries the end-of-statement flag.
 */
module Flashback {
  import opened Basics

  /** A row event: a change, whether it ends its statement, and whether a filter hides its table. */
  datatype Row<E> = Row(change: E, stmtEnd: bool, skipped: bool)

  datatype LogEvent<E> =
    | TableMap(table: nat)
    | Rows(row: Row<E>)
    | Other(text: string)

  /** What is printed for a table map, a row event with its flag, and anything else. */
  datatype Item<E> =
    | Map(table: nat)
    | Change(change: E, stmtEnd: bool)
    | Text(text: string)

  datatype Printer<E> = Printer(
    pending: seq<Row<E>>,
    cache: seq<Item<E>>,
    chunks: seq<seq<Item<E>>>,
    direct: seq<Item<E>>)

  /** The rows of a statement, printed from the last to the first. */
  function PrintBackwards<E>(rows: seq<Row<E>>): seq<Item<E>> {
    if rows == [] then []
    else
      var last := rows[|rows| - 1];
      [Change(last.change, last.stmtEnd)] + PrintBackwards(rows[..|rows| - 1])
  }

  /** A row event joins its statement: the end flag moves from the last row to the first. */
  function Flagged<E>(pending: seq<Row<E>>, row: Row<E>): Row<E> {
    row.(stmtEnd := pending == [])
  }

  function Step<E>(p: Printer<E>, ev: LogEvent<E>): Printer<E> {
    match ev
    case TableMap(table) => p.(cache := p.cache + [Map(table)], pending := [])
    case Other(text) => p.(chunks := p.chunks + [[Text(text)]])
    case Rows(row) =>
      var pending := p.pending + [Flagged(p.pending, row)];
      if !row.stmtEnd then
        p.(pending := pending)
      else if row.skipped then
        p.(pending := pending, direct := p.direct + p.cache, cache := [])
      else
        p.(pending := [], cache := [], chunks := p.chunks + [p.cache + PrintBackwards(pending)])
  }

  function Run<E>(p: Printer<E>, log: seq<LogEvent<E>>): Printer<E> {
    if log == [] then p else Step(Run(p, log[..|log| - 1]), log[|log| - 1])
  }

  function Reverse<T>(s: seq<T>): seq<T> {
    if s == [] then [] else [s[|s| - 1]] + Reverse(s[..|s| - 1])
  }

  /** The output: the chunks from the last to the first. */
  function Output<E>(chunks: seq<seq<Item<E>>>): seq<Item<E>> {
    Concat(Reverse(chunks))
  }

  function Changes<E>(items: seq<Item<E>>): seq<E> {
    if items == [] then []
    else
      var n := |items| - 1;
      Changes(items[..n]) + if items[n].Change? then [items[n].change] else []
  }

  function RowChanges<E>(rows: seq<Row<E>>): seq<E> {
    if rows == [] then [] else RowChanges(rows[..|rows| - 1]) + [rows[|rows| - 1].change]
  }

  function LogChanges<E>(log: seq<LogEvent<E>>): seq<E> {
    if log == [] then []
    else
      var n := |log| - 1;
      LogChanges(log[..n]) + if log[n].Rows? then [log[n].row.change] else []
  }

  lemma {:induction false} ReverseConcat<T>(a: seq<T>, b: seq<T>)
    ensures Reverse(a + b) == Reverse(b) + Reverse(a)
  {
    if b == [] {
      assert a + b == a;
    } else {
      var n := |b| - 1;
      ReverseConcat(a, b[..n]);
      Assoc([b[n]], Reverse(b[..n]), Reverse(a));
      assert (a + b)[..|a + b| - 1] == a + b[..n];
    }
  }

  lemma {:induction false} ReverseAt<T>(s: seq<T>)
    ensures |Reverse(s)| == |s|
    ensures forall i :: 0 <= i < |s| ==> Reverse(s)[i] == s[|s| - 1 - i]
  {
    if s == [] {
    } else {
      ReverseAt(s[..|s| - 1]);
    }
  }

  lemma {:induction false} ChangesConcat<E>(a: seq<Item<E>>, b: seq<Item<E>>)
    ensures Changes(a + b) == Changes(a) + Changes(b)
  {
    if b == [] {
      assert a + b == a;
    } else {
      var n := |b| - 1;
      ChangesConcat(a, b[..n]);
      assert (a + b)[..|a + b| - 1] == a + b[..n];
    }
  }

  /** A new chunk comes first in the output. */
  lemma OutputOn<E>(chunks: seq<seq<Item<E>>>, chunk: seq<Item<E>>)
    ensures Output(chunks + [chunk]) == chunk + Output(chunks)
    ensures Changes(Output(chunks + [chunk])) == Changes(chunk) + Changes(Output(chunks))
  {
    ReverseConcat(chunks, [chunk]);
    assert Reverse([chunk]) == [chunk];
    ConcatSplit([chunk], Reverse(chunks));
    assert Concat([chunk]) == chunk;
    ChangesConcat(chunk, Output(chunks));
  }

  lemma {:induction false} PrintedChanges<E>(rows: seq<Row<E>>)
    ensures Changes(PrintBackwards(rows)) == Reverse(RowChanges(rows))
  {
    if rows == [] {
    } else {
      var n := |rows| - 1;
      PrintedChanges(rows[..n]);
      var head := [Change(rows[n].change, rows[n].stmtEnd)];
      ChangesConcat(head, PrintBackwards(rows[..n]));
      assert Changes(head) == [rows[n].change];
      ReverseConcat(RowChanges(rows[..n]), [rows[n].change]);
      assert Reverse([rows[n].change]) == [rows[n].change];
    }
  }

  /** The last row event of the log, if any, ends its statement. */
  predicate Closed<E>(log: seq<LogEvent<E>>) {
    log == [] ||
    match log[|log| - 1]
    case Rows(row) => row.stmtEnd
    case TableMap(_) => Closed(log[..|log| - 1])
    case Other(_) => Closed(log[..|log| - 1])
  }

  /** No filter hides a table, and table maps stand between statements only. */
  predicate WellFormed<E>(log: seq<LogEvent<E>>) {
    forall k :: 0 <= k < |log| ==>
      && (log[k].Rows? ==> !log[k].row.skipped)
      && (log[k].TableMap? ==> Closed(log[..k]))
  }

  /** A chunk is a text, or a statement: its only end flag is on its last item. */
  predicate ChunkOk<E>(c: seq<Item<E>>) {
    || (|c| == 1 && c[0].Text?)
    || (&& c != [] && c[|c| - 1].Change? && c[|c| - 1].stmtEnd
        && forall i :: 0 <= i < |c| - 1 ==> c[i].Map? || (c[i].Change? && !c[i].stmtEnd))
  }

  /** The rows being collected: the end flag is on the first one only. */
  predicate FlaggedFirst<E>(rows: seq<Row<E>>) {
    forall i :: 0 <= i < |rows| ==> rows[i].stmtEnd == (i == 0)
  }

  lemma {:induction false} BackwardsOk<E>(rows: seq<Row<E>>)
    requires rows != [] && FlaggedFirst(rows)
    ensures ChunkOk(PrintBackwards(rows)) && PrintBackwards(rows)[0].Change?
  {
    if |rows| == 1 {
    } else {
      BackwardsOk(rows[..|rows| - 1]);
    }
  }

  predicate Shape<E>(p: Printer<E>) {
    && FlaggedFirst(p.pending)
    && (forall i :: 0 <= i < |p.cache| ==> p.cache[i].Map?)
    && (forall i :: 0 <= i < |p.chunks| ==> ChunkOk(p.chunks[i]))
  }

  ghost predicate Ordered<E>(changes: seq<E>, p: Printer<E>) {
    Reverse(changes) == Reverse(RowChanges(p.pending)) + Changes(Output(p.chunks))
  }

  ghost predicate Inv<E>(p: Printer<E>, log: seq<LogEvent<E>>) {
    (p.pending == [] <==> Closed(log)) && Shape(p) && Ordered(LogChanges(log), p)
  }

  lemma {:induction false} MapsChangeNothing<E>(items: seq<Item<E>>)
    requires forall i :: 0 <= i < |items| ==> items[i].Map?
    ensures Changes(items) == []
  {
    if items == [] {
    } else {
      MapsChangeNothing(items[..|items| - 1]);
    }
  }

  lemma ReverseOne<T>(s: seq<T>, x: T)
    ensures Reverse(s + [x]) == [x] + Reverse(s)
  {
    assert (s + [x])[..|s|] == s;
  }

  /** A statement's chunk holds its changes backwards. */
  lemma StatementChanges<E>(cache: seq<Item<E>>, rows: seq<Row<E>>)
    requires forall i :: 0 <= i < |cache| ==> cache[i].Map?
    ensures Changes(cache + PrintBackwards(rows)) == Reverse(RowChanges(rows))
  {
    ChangesConcat(cache, PrintBackwards(rows));
    MapsChangeNothing(cache);
    PrintedChanges(rows);
  }

  lemma ChunkShape<E>(cache: seq<Item<E>>, rows: seq<Row<E>>)
    requires rows != [] && FlaggedFirst(rows) && forall i :: 0 <= i < |cache| ==> cache[i].Map?
    ensures ChunkOk(cache + PrintBackwards(rows))
  {
    BackwardsOk(rows);
    var c, b := cache + PrintBackwards(rows), PrintBackwards(rows);
    forall i | 0 <= i < |c| - 1
      ensures c[i].Map? || (c[i].Change? && !c[i].stmtEnd)
    {
      assert i >= |cache| ==> c[i] == b[i - |cache|];
    }
  }

  lemma RowsShape<E>(p: Printer<E>, row: Row<E>)
    requires Shape(p) && !row.skipped
    ensures Shape(Step(p, Rows(row)))
  {
    var pending := p.pending + [Flagged(p.pending, row)];
    assert FlaggedFirst(pending);
    if row.stmtEnd {
      ChunkShape(p.cache, pending);
    }
  }

  /** The row behind those being collected comes before them in the output. */
  lemma PendingChanges<E>(pending: seq<Row<E>>, row: Row<E>)
    ensures RowChanges(pending + [row]) == RowChanges(pending) + [row.change]
    ensures Reverse(RowChanges(pending + [row])) == [row.change] + Reverse(RowChanges(pending))
  {
    assert (pending + [row])[..|pending|] == pending;
    ReverseOne(RowChanges(pending), row.change);
  }

  lemma RowsOrder<E>(p: Printer<E>, changes: seq<E>, row: Row<E>)
    requires Shape(p) && Ordered(changes, p) && !row.skipped
    ensures Ordered(changes + [row.change], Step(p, Rows(row)))
  {
    var pending := p.pending + [Flagged(p.pending, row)];
    ReverseOne(changes, row.change);
    PendingChanges(p.pending, Flagged(p.pending, row));
    Assoc([row.change], Reverse(RowChanges(p.pending)), Changes(Output(p.chunks)));
    if row.stmtEnd {
      StatementOrder(p, pending);
    }
  }

  /** A finished statement: its rows leave the list for the front of the output. */
  lemma StatementOrder<E>(p: Printer<E>, pending: seq<Row<E>>)
    requires Shape(p)
    ensures var none: seq<Row<E>> := [];
            Reverse(RowChanges(none)) + Changes(Output(p.chunks + [p.cache + PrintBackwards(pending)]))
            == Reverse(RowChanges(pending)) + Changes(Output(p.chunks))
  {
    StatementChanges(p.cache, pending);
    OutputOn(p.chunks, p.cache + PrintBackwards(pending));
  }

  lemma LogChangesOn<E>(log: seq<LogEvent<E>>, ev: LogEvent<E>)
    ensures LogChanges(log + [ev]) == if ev.Rows? then LogChanges(log) + [ev.row.change] else LogChanges(log)
  {
    assert (log + [ev])[..|log|] == log;
  }

  lemma RowsStep<E>(p: Printer<E>, log: seq<LogEvent<E>>, row: Row<E>)
    requires Inv(p, log) && !row.skipped
    ensures Inv(Step(p, Rows(row)), log + [Rows(row)])
  {
    RowsShape(p, row);
    RowsOrder(p, LogChanges(log), row);
    LogChangesOn(log, Rows(row));
  }

  lemma OtherShape<E>(p: Printer<E>, ev: LogEvent<E>)
    requires Shape(p) && !ev.Rows?
    ensures Shape(Step(p, ev))
  {
  }

  lemma OtherOrder<E>(p: Printer<E>, changes: seq<E>, ev: LogEvent<E>)
    requires Ordered(changes, p) && !ev.Rows? && (ev.TableMap? ==> p.pending == [])
    ensures Ordered(changes, Step(p, ev))
  {
    if ev.Other? {
      TextChangesNothing(p.chunks, ev.text);
    }
  }

  lemma OtherStep<E>(p: Printer<E>, log: seq<LogEvent<E>>, ev: LogEvent<E>)
    requires Inv(p, log) && !ev.Rows? && (ev.TableMap? ==> Closed(log))
    ensures Inv(Step(p, ev), log + [ev])
  {
    OtherShape(p, ev);
    OtherOrder(p, LogChanges(log), ev);
    LogChangesOn(log, ev);
    assert (log + [ev])[..|log|] == log;
  }

  lemma TextChangesNothing<E>(chunks: seq<seq<Item<E>>>, text: string)
    ensures Changes(Output(chunks + [[Text(text)]])) == Changes(Output(chunks))
  {
    var t: seq<Item<E>> := [Text(text)];
    OutputOn(chunks, t);
    assert t[..0] == [];
    assert Changes(t) == [];
  }

  lemma {:induction false} RunInv<E>(log: seq<LogEvent<E>>)
    requires WellFormed(log)
    ensures Inv(Run(Printer([], [], [], []), log), log)
  {
    if log == [] {
    } else {
      var n := |log| - 1;
      var before, ev := log[..n], log[n];
      assert log == before + [ev];
      forall k | 0 <= k < n
        ensures (before[k].Rows? ==> !before[k].row.skipped) && (before[k].TableMap? ==> Closed(before[..k]))
      {
        assert before[..k] == log[..k];
      }
      RunInv(before);
      var p := Run(Printer([], [], [], []), before);
      if ev.Rows? {
        RowsStep(p, before, ev.row);
      } else {
        OtherStep(p, before, ev);
      }
    }
  }

  /**
   A log that ends with its last statement: the output holds every change of the
   log, in exactly the reverse order, and every printed statement has one end
   flag, on its last item.
   */
  lemma OutputReversesLog<E>(log: seq<LogEvent<E>>)
    requires WellFormed(log) && Closed(log)
    ensures var p := Run(Printer([], [], [], []), log);
            && Changes(Output(p.chunks)) == Reverse(LogChanges(log))
            && forall i :: 0 <= i < |p.chunks| ==> ChunkOk(p.chunks[i])
  {
    RunInv(log);
    var p := Run(Printer([], [], [], []), log);
    assert RowChanges(p.pending) == [] && Reverse(RowChanges(p.pending)) == [];
  }

  // Replaying the output on a server.

  /** What a server has seen: changes of finished statements, and of the one still open. */
  datatype Server<E> = Server(applied: seq<E>, open: seq<E>)

  /** A statement takes effect when its end flag arrives. */
  function Receive<E>(v: Server<E>, items: seq<Item<E>>): Server<E> {
    if items == [] then v
    else
      var w := Receive(v, items[..|items| - 1]);
      match items[|items| - 1]
      case Map(_) => w
      case Text(_) => w
      case Change(e, end) =>
        if end then Server(w.applied + w.open + [e], []) else w.(open := w.open + [e])
  }

  lemma {:induction false} ReceiveConcat<E>(v: Server<E>, a: seq<Item<E>>, b: seq<Item<E>>)
    ensures Receive(v, a + b) == Receive(Receive(v, a), b)
  {
    if b == [] {
      assert a + b == a;
    } else {
      ReceiveConcat(v, a, b[..|b| - 1]);
      assert (a + b)[..|a + b| - 1] == a + b[..|b| - 1];
    }
  }

  lemma {:induction false} ReceiveUnflagged<E>(v: Server<E>, items: seq<Item<E>>)
    requires forall i :: 0 <= i < |items| ==> items[i].Map? || (items[i].Change? && !items[i].stmtEnd)
    ensures Receive(v, items) == v.(open := v.open + Changes(items))
  {
    if items == [] {
      assert v.open + [] == v.open;
    } else {
      ReceiveUnflagged(v, items[..|items| - 1]);
    }
  }

  lemma ReceiveChunk<E>(v: Server<E>, c: seq<Item<E>>)
    requires v.open == [] && ChunkOk(c)
    ensures Receive(v, c) == Server(v.applied + Changes(c), [])
  {
    var n := |c| - 1;
    assert c == c[..n] + [c[n]];
    if c[n].Text? {
      assert c[..n] == [];
      assert v.applied + [] == v.applied;
    } else {
      ReceiveUnflagged(v, c[..n]);
      assert v.open + Changes(c[..n]) == Changes(c[..n]);
      assert v.applied + Changes(c[..n]) + [c[n].change] == v.applied + Changes(c);
    }
  }

  /** The output leaves no statement open: the server applies every change of it, in its order. */
  lemma ReceiveOutput<E>(chunks: seq<seq<Item<E>>>)
    requires forall i :: 0 <= i < |chunks| ==> ChunkOk(chunks[i])
    ensures Receive(Server([], []), Output(chunks)) == Server(Changes(Output(chunks)), [])
  {
    ReverseAt(chunks);
    ReceiveOutputFrom(Server([], []), Reverse(chunks));
  }

  lemma {:induction false} ReceiveOutputFrom<E>(v: Server<E>, chunks: seq<seq<Item<E>>>)
    requires v.open == [] && forall i :: 0 <= i < |chunks| ==> ChunkOk(chunks[i])
    ensures Receive(v, Concat(chunks)) == Server(v.applied + Changes(Concat(chunks)), [])
  {
    if chunks == [] {
      assert v.applied + [] == v.applied;
    } else {
      var n := |chunks| - 1;
      ReceiveOutputFrom(v, chunks[..n]);
      ReceiveAnother(v, Concat(chunks[..n]), chunks[n]);
    }
  }

  lemma ReceiveAnother<E>(v: Server<E>, items: seq<Item<E>>, c: seq<Item<E>>)
    requires ChunkOk(c) && Receive(v, items) == Server(v.applied + Changes(items), [])
    ensures Receive(v, items + c) == Server(v.applied + Changes(items + c), [])
  {
    ReceiveConcat(v, items, c);
    ReceiveChunk(Receive(v, items), c);
    ChangesConcat(items, c);
    Assoc(v.applied, Changes(items), Changes(c));
  }

  /** The effect of changes on a database, in order. */
  function Effect<S, E>(step: (S, E) -> S, s: S, es: seq<E>): S {
    if es == [] then s else step(Effect(step, s, es[..|es| - 1]), es[|es| - 1])
  }

  lemma {:induction false} EffectConcat<S, E>(step: (S, E) -> S, s: S, a: seq<E>, b: seq<E>)
    ensures Effect(step, s, a + b) == Effect(step, Effect(step, s, a), b)
  {
    if b == [] {
      assert a + b == a;
    } else {
      EffectConcat(step, s, a, b[..|b| - 1]);
      assert (a + b)[..|a + b| - 1] == a + b[..|b| - 1];
    }
  }

  /** Undoing a change takes back its effect on the state it was applied to, for every change of a log. */
  ghost predicate Inverts<S(!new), E>(apply: (S, E) -> S, undo: (S, E) -> S, s: S, es: seq<E>) {
    forall k :: 0 <= k < |es| ==> InvertsAt(apply, undo, Effect(apply, s, es[..k]), es[k])
  }

  ghost predicate InvertsAt<S(!new), E>(apply: (S, E) -> S, undo: (S, E) -> S, t: S, e: E) {
    undo(apply(t, e), e) == t
  }

  lemma {:induction false} UndoReverses<S(!new), E>(apply: (S, E) -> S, undo: (S, E) -> S, s: S, es: seq<E>)
    requires Inverts(apply, undo, s, es)
    ensures Effect(undo, Effect(apply, s, es), Reverse(es)) == s
  {
    if es == [] {
    } else {
      var n := |es| - 1;
      var before, t := es[..n], Effect(apply, s, es);
      assert InvertsAt(apply, undo, Effect(apply, s, before), es[n]);
      EffectConcat(undo, t, [es[n]], Reverse(before));
      assert Effect(undo, t, [es[n]]) == undo(t, es[n]) by {
        assert [es[n]][..0] == [];
      }
      forall k | 0 <= k < n ensures InvertsAt(apply, undo, Effect(apply, s, before[..k]), before[k]) {
        assert before[..k] == es[..k];
      }
      UndoReverses(apply, undo, s, before);
    }
  }

  /**
   Flashback undoes the log: if every printed change takes back its original at
   the state the original was applied to, a server that has run the log and then
   receives the output is where it started.
   */
  lemma FlashbackUndoesLog<S(!new), E>(apply: (S, E) -> S, undo: (S, E) -> S, s: S, log: seq<LogEvent<E>>)
    requires WellFormed(log) && Closed(log)
    requires Inverts(apply, undo, s, LogChanges(log))
    ensures var output := Output(Run(Printer([], [], [], []), log).chunks);
            var received := Receive(Server([], []), output);
            received.open == [] && Effect(undo, Effect(apply, s, LogChanges(log)), received.applied) == s
  {
    OutputReversesLog(log);
    ReceiveOutput(Run(Printer([], [], [], []), log).chunks);
    UndoReverses(apply, undo, s, LogChanges(log));
  }

  // Row events: a table is a multiset of rows.

  datatype RowChange<R> = Insert(row: R) | Delete(row: R) | Update(before: R, after: R)

  function ApplyRow<R>(t: multiset<R>, e: RowChange<R>): multiset<R> {
    match e
    case Insert(r) => t + multiset{r}
    case Delete(r) => t - multiset{r}
    case Update(b, a) => t - multiset{b} + multiset{a}
  }

  /** What flashback prints for a row event: the opposite event. */
  function UndoRow<R>(t: multiset<R>, e: RowChange<R>): multiset<R> {
    match e
    case Insert(r) => t - multiset{r}
    case Delete(r) => t + multiset{r}
    case Update(b, a) => t - multiset{a} + multiset{b}
  }

  /** The event finds the row it changes. */
  predicate FindsRow<R>(t: multiset<R>, e: RowChange<R>) {
    match e
    case Insert(_) => true
    case Delete(r) => r in t
    case Update(b, _) => b in t
  }

  /** A row event is inverted exactly where it finds its row. */
  lemma RowInvertsIff<R(!new)>(t: multiset<R>, e: RowChange<R>)
    ensures UndoRow(ApplyRow(t, e), e) == t <==> FindsRow(t, e)
  {
    match e
    case Insert(r) => assert t + multiset{r} - multiset{r} == t;
    case Delete(r) =>
      if r in t {
        assert t - multiset{r} + multiset{r} == t;
      } else {
        assert (t - multiset{r} + multiset{r})[r] == 1;
      }
    case Update(b, a) =>
      assert t - multiset{b} + multiset{a} - multiset{a} == t - multiset{b};
      if b in t {
        assert t - multiset{b} + multiset{b} == t;
      } else {
        assert (t - multiset{b} + multiset{b})[b] == 1;
      }
  }

  /** Every row event of the log finds its row. */
  ghost predicate FindsRows<R(!new)>(t: multiset<R>, es: seq<RowChange<R>>) {
    forall k :: 0 <= k < |es| ==> FindsRow(Effect(ApplyRow<R>, t, es[..k]), es[k])
  }

  lemma RowsInvert<R(!new)>(t: multiset<R>, es: seq<RowChange<R>>)
    requires FindsRows(t, es)
    ensures Inverts(ApplyRow<R>, UndoRow<R>, t, es)
  {
    forall k | 0 <= k < |es| ensures InvertsAt(ApplyRow<R>, UndoRow<R>, Effect(ApplyRow<R>, t, es[..k]), es[k]) {
      RowInvertsIff(Effect(ApplyRow<R>, t, es[..k]), es[k]);
    }
  }

  /** A log of inserts, deletes and updates that all found their rows is taken back row for row. */
  lemma FlashbackRestoresRows<R(!new)>(t: multiset<R>, log: seq<LogEvent<RowChange<R>>>)
    requires WellFormed(log) && Closed(log) && FindsRows(t, LogChanges(log))
    ensures var received := Receive(Server([], []), Output(Run(Printer([], [], [], []), log).chunks));
            && received.open == []
            && Effect(UndoRow<R>, Effect(ApplyRow<R>, t, LogChanges(log)), received.applied) == t
  {
    RowsInvert(t, LogChanges(log));
    FlashbackUndoesLog(ApplyRow<R>, UndoRow<R>, t, log);
  }

  // With a table filter.

  /** The row events of one statement, in log order. */
  predicate Statement<E>(rows: seq<Row<E>>) {
    rows != [] && forall i :: 0 <= i < |rows| ==> rows[i].stmtEnd == (i == |rows| - 1)
  }

  function AsLog<E>(rows: seq<Row<E>>): seq<LogEvent<E>> {
    seq(|rows|, i requires 0 <= i < |rows| => Rows(rows[i]))
  }

  /** The changes that the filter lets through. */
  function Kept<E>(rows: seq<Row<E>>): seq<E> {
    if rows == [] then []
    else
      var n := |rows| - 1;
      Kept(rows[..n]) + if rows[n].skipped then [] else [rows[n].change]
  }

  lemma {:induction false} CollectRows<E>(p: Printer<E>, rows: seq<Row<E>>)
    requires p.pending == [] && forall i :: 0 <= i < |rows| ==> !rows[i].stmtEnd
    ensures var q := Run(p, AsLog(rows));
            q == p.(pending := q.pending) && RowChanges(q.pending) == RowChanges(rows)
  {
    if rows == [] {
    } else {
      var n := |rows| - 1;
      CollectRows(p, rows[..n]);
      assert AsLog(rows)[..n] == AsLog(rows[..n]);
      var q := Run(p, AsLog(rows[..n]));
      var pending := q.pending + [Flagged(q.pending, rows[n])];
      assert pending[..|q.pending|] == q.pending;
    }
  }

  lemma {:induction false} KeptSize<E>(rows: seq<Row<E>>)
    ensures |Kept(rows)| <= |rows| == |RowChanges(rows)|
    ensures |Kept(rows)| == |rows| <==> forall i :: 0 <= i < |rows| ==> !rows[i].skipped
    ensures Kept(rows) == [] <==> forall i :: 0 <= i < |rows| ==> rows[i].skipped
    ensures (forall i :: 0 <= i < |rows| ==> !rows[i].skipped) ==> Kept(rows) == RowChanges(rows)
  {
    if rows == [] {
    } else {
      var n := |rows| - 1;
      var before := rows[..n];
      KeptSize(before);
      assert forall i :: 0 <= i < n ==> before[i] == rows[i];
      assert (forall i :: 0 <= i < |rows| ==> !rows[i].skipped)
             <==> (forall i :: 0 <= i < n ==> !before[i].skipped) && !rows[n].skipped;
      assert (forall i :: 0 <= i < |rows| ==> rows[i].skipped)
             <==> (forall i :: 0 <= i < n ==> before[i].skipped) && rows[n].skipped;
    }
  }

  /** A filtered statement is printed whole, hidden rows included, or not at all, as its last row says. */
  lemma FilteredStatementOutput<E>(p: Printer<E>, rows: seq<Row<E>>)
    requires p.pending == [] && Statement(rows) && forall i :: 0 <= i < |p.cache| ==> p.cache[i].Map?
    ensures var q := Run(p, AsLog(rows));
            Changes(Output(q.chunks)) ==
            (if rows[|rows| - 1].skipped then [] else Reverse(RowChanges(rows))) + Changes(Output(p.chunks))
  {
    var n := |rows| - 1;
    CollectRows(p, rows[..n]);
    assert AsLog(rows)[..n] == AsLog(rows[..n]);
    var q := Run(p, AsLog(rows[..n]));
    var pending := q.pending + [Flagged(q.pending, rows[n])];
    assert pending[..|q.pending|] == q.pending;
    if !rows[n].skipped {
      StatementChanges(p.cache, pending);
      OutputOn(p.chunks, p.cache + PrintBackwards(pending));
    }
  }

  /**
   So a statement prints backwards the rows its filter keeps exactly if the
   filter keeps all of its rows or none: filtering by table is right only for
   statements that touch tables of one kind.
   */
  lemma FilterIsRightIff<E>(p: Printer<E>, rows: seq<Row<E>>)
    requires p.pending == [] && Statement(rows) && forall i :: 0 <= i < |p.cache| ==> p.cache[i].Map?
    ensures Changes(Output(Run(p, AsLog(rows)).chunks)) == Reverse(Kept(rows)) + Changes(Output(p.chunks))
            <==> (forall i :: 0 <= i < |rows| ==> !rows[i].skipped) || (forall i :: 0 <= i < |rows| ==> rows[i].skipped)
  {
    FilteredStatementOutput(p, rows);
    KeptSize(rows);
    ReverseAt(Kept(rows));
    ReverseAt(RowChanges(rows));
    var before := Changes(Output(p.chunks));
    if rows[|rows| - 1].skipped {
      assert |[] + before| == |before|;
    }
  }

  /** A statement whose last row is hidden prints nothing, whatever else it changed. */
  lemma HiddenLastRowLosesStatement()
    ensures var rows := [Row(1, false, false), Row(2, true, true)];
            var p := Printer([], [Map(7), Map(8)], [], []);
            Kept(rows) == [1] && Changes(Output(Run(p, AsLog(rows)).chunks)) == []
  {
    var rows := [Row(1, false, false), Row(2, true, true)];
    var p := Printer([], [Map(7), Map(8)], [], []);
    FilteredStatementOutput(p, rows);
    assert rows[..1] == [rows[0]] && rows[..1][..0] == [];
    assert Kept(rows[..1]) == [1];
  }

  /** The program's own lists, updated event by event. */
  class FlashbackPrinter<E(==)> {
    var pending: seq<Row<E>>
    var cache: seq<Item<E>>
    var chunks: seq<seq<Item<E>>>
    var direct: seq<Item<E>>

    constructor ()
      ensures Value() == Printer([], [], [], []) && FlaggedFirst(pending)
    {
      pending, cache, chunks, direct := [], [], [], [];
    }

    ghost function Value(): Printer<E>
      reads this
    {
      Printer(pending, cache, chunks, direct)
    }

    method ProcessTableMap(table: nat)
      modifies this
      ensures Value() == Step(old(Value()), TableMap(table)) && FlaggedFirst(pending)
      ensures cache == old(cache) + [Map(table)] && pending == []
      ensures chunks == old(chunks) && direct == old(direct)
    {
      cache := cache + [Map(table)];
      pending := [];
    }

    method ProcessOther(text: string)
      modifies this
      ensures Value() == Step(old(Value()), Other(text)) && pending == old(pending)
    {
      chunks := chunks + [[Text(text)]];
    }

    /** Prints one row event into the cache; an end flag empties the cache into the event's output. */
    method PrintRow(row: Row<E>) returns (output: seq<Item<E>>)
      modifies this`cache
      ensures if row.stmtEnd then output == old(cache) + [Change(row.change, true)] && cache == []
              else output == [] && cache == old(cache) + [Change(row.change, false)]
    {
      cache := cache + [Change(row.change, row.stmtEnd)];
      output := [];
      if row.stmtEnd {
        output, cache := cache, [];
      }
    }

    /** The rows of the finished statement from the last to the first; the first one's output has them all. */
    method PrintStatement() returns (output: seq<Item<E>>)
      requires pending != [] && FlaggedFirst(pending)
      modifies this`cache
      ensures output == old(cache) + PrintBackwards(pending) && cache == []
    {
      output := [];
      var i := |pending|;
      assert pending[..i] == pending;
      while i > 0
        invariant 0 <= i <= |pending|
        invariant i > 0 ==> cache + PrintBackwards(pending[..i]) == old(cache) + PrintBackwards(pending)
        invariant i == 0 ==> output == old(cache) + PrintBackwards(pending) && cache == []
      {
        assert pending[..i][..i - 1] == pending[..i - 1];
        ghost var before := cache;
        output := PrintRow(pending[i - 1]);
        i := i - 1;
        assert before + ([Change(pending[i].change, pending[i].stmtEnd)] + PrintBackwards(pending[..i]))
            == before + [Change(pending[i].change, pending[i].stmtEnd)] + PrintBackwards(pending[..i]);
      }
    }

    method ProcessRows(row: Row<E>)
      requires FlaggedFirst(pending)
      modifies this
      ensures Value() == Step(old(Value()), Rows(row)) && FlaggedFirst(pending)
    {
      var e := row;
      if row.stmtEnd {
        e := e.(stmtEnd := false);
      }
      if pending == [] {
        e := e.(stmtEnd := true);
      }
      pending := pending + [e];
      if row.stmtEnd && row.skipped {
        direct, cache := direct + cache, [];
      }
      if !row.skipped && row.stmtEnd {
        var output := PrintStatement();
        pending := [];
        chunks := chunks + [output];
      }
    }

    /** The end of the program: the chunks from the last to the first. */
    method PrintReversed() returns (output: seq<Item<E>>)
      ensures output == Output(chunks)
    {
      output := [];
      var i := |chunks|;
      assert chunks[..i] == chunks;
      while i > 0
        invariant 0 <= i <= |chunks|
        invariant output + Output(chunks[..i]) == Output(chunks)
      {
        assert chunks[..i] == chunks[..i - 1] + [chunks[i - 1]];
        OutputOn(chunks[..i - 1], chunks[i - 1]);
        output := output + chunks[i - 1];
        i := i - 1;
      }
    }
  }
}
