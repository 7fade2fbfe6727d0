/**
 What flashback prints, told of the log alone and for any log, filtered or not.

 Every text is a chunk of its own. Every statement whose last row is not hidden is
 a chunk: the table maps since the statement before it, in log order, then its rows
 backwards, with the end flag on the last one printed. The chunks are printed from
 the last to the first.
 */
module FlashbackOutput {
  import opened Basics
  import opened Flashback

  /** A row event with the end flag: the table maps before it are used up. */
  predicate EndsMaps<E>(ev: LogEvent<E>) {
    ev.Rows? && ev.row.stmtEnd
  }

  /** A statement's rows begin behind a table map, or behind a statement that was printed. */
  predicate EndsRows<E>(ev: LogEvent<E>) {
    ev.TableMap? || (ev.Rows? && ev.row.stmtEnd && !ev.row.skipped)
  }

  /** The table maps among the first `k` events that wait for their statement. */
  function MapsBefore<E>(log: seq<LogEvent<E>>, k: nat): seq<Item<E>>
    requires k <= |log|
  {
    if k == 0 || EndsMaps(log[k - 1]) then []
    else MapsBefore(log, k - 1) + if log[k - 1].TableMap? then [Map(log[k - 1].table)] else []
  }

  /** The changes among the first `k` events that wait for the end of their statement. */
  function RowsBefore<E>(log: seq<LogEvent<E>>, k: nat): seq<E>
    requires k <= |log|
  {
    if k == 0 || EndsRows(log[k - 1]) then []
    else RowsBefore(log, k - 1) + if log[k - 1].Rows? then [log[k - 1].row.change] else []
  }

  /** Changes backwards, with the end flag on the last one printed. */
  function Backwards<E>(es: seq<E>): seq<Item<E>> {
    if es == [] then []
    else [Change(es[|es| - 1], |es| == 1)] + Backwards(es[..|es| - 1])
  }

  /** The chunk of a statement that ends with event `k`. */
  function StatementAt<E>(log: seq<LogEvent<E>>, k: nat): seq<Item<E>>
    requires k < |log| && log[k].Rows?
  {
    MapsBefore(log, k) + Backwards(RowsBefore(log, k) + [log[k].row.change])
  }

  /** What event `k` adds to the chunks. */
  function ChunkAt<E>(log: seq<LogEvent<E>>, k: nat): seq<seq<Item<E>>>
    requires k < |log|
  {
    match log[k]
    case TableMap(_) => []
    case Other(text) => [[Text(text)]]
    case Rows(row) => if row.stmtEnd && !row.skipped then [StatementAt(log, k)] else []
  }

  /** The chunks of the first `k` events. */
  function Chunks<E>(log: seq<LogEvent<E>>, k: nat): seq<seq<Item<E>>>
    requires k <= |log|
  {
    if k == 0 then [] else Chunks(log, k - 1) + ChunkAt(log, k - 1)
  }

  /** What is printed at once: the table maps of statements whose last row is hidden. */
  function Direct<E>(log: seq<LogEvent<E>>, k: nat): seq<Item<E>>
    requires k <= |log|
  {
    if k == 0 then []
    else
      Direct(log, k - 1) +
      if EndsMaps(log[k - 1]) && log[k - 1].row.skipped then MapsBefore(log, k - 1) else []
  }

  // The printer's lists follow the log.

  lemma {:induction false} BackwardsIs<E>(rows: seq<Row<E>>)
    requires FlaggedFirst(rows)
    ensures PrintBackwards(rows) == Backwards(RowChanges(rows)) && |RowChanges(rows)| == |rows|
  {
    if rows == [] {
    } else {
      var n := |rows| - 1;
      BackwardsIs(rows[..n]);
      assert RowChanges(rows)[..n] == RowChanges(rows[..n]);
    }
  }

  /** The printer's lists, given what waits for the next statement and what has been printed. */
  predicate Lists<E(==)>(p: Printer<E>, maps: seq<Item<E>>, rows: seq<E>, chunks: seq<seq<Item<E>>>, direct: seq<Item<E>>) {
    && p.cache == maps && RowChanges(p.pending) == rows && FlaggedFirst(p.pending)
    && p.chunks == chunks && p.direct == direct
  }

  lemma RowLists<E>(p: Printer<E>, maps: seq<Item<E>>, rows: seq<E>, chunks: seq<seq<Item<E>>>, direct: seq<Item<E>>,
                    row: Row<E>)
    requires Lists(p, maps, rows, chunks, direct)
    ensures var all := rows + [row.change];
            var q := Step(p, Rows(row));
            if !row.stmtEnd then Lists(q, maps, all, chunks, direct)
            else if row.skipped then Lists(q, [], all, chunks, direct + maps)
            else Lists(q, [], [], chunks + [maps + Backwards(all)], direct)
  {
    var pending := p.pending + [Flagged(p.pending, row)];
    assert FlaggedFirst(pending);
    PendingChanges(p.pending, Flagged(p.pending, row));
    BackwardsIs(pending);
  }

  /** When `k` events have been read, that is what the log says. */
  ghost predicate Holds<E>(p: Printer<E>, log: seq<LogEvent<E>>, k: nat)
    requires k <= |log|
  {
    Lists(p, MapsBefore(log, k), RowsBefore(log, k), Chunks(log, k), Direct(log, k))
  }

  lemma RowStep<E>(p: Printer<E>, log: seq<LogEvent<E>>, k: nat)
    requires k < |log| && log[k].Rows? && Holds(p, log, k)
    ensures Holds(Step(p, log[k]), log, k + 1)
  {
    RowLists(p, MapsBefore(log, k), RowsBefore(log, k), Chunks(log, k), Direct(log, k), log[k].row);
  }

  lemma OtherStep<E>(p: Printer<E>, log: seq<LogEvent<E>>, k: nat)
    requires k < |log| && !log[k].Rows? && Holds(p, log, k)
    ensures Holds(Step(p, log[k]), log, k + 1)
  {
  }

  lemma {:induction false} RunHolds<E>(log: seq<LogEvent<E>>, k: nat) returns (p: Printer<E>)
    requires k <= |log|
    ensures p == Run(Printer([], [], [], []), log[..k]) && Holds(p, log, k)
  {
    if k == 0 {
      p := Printer([], [], [], []);
    } else {
      p := RunHolds(log, k - 1);
      assert log[..k][..k - 1] == log[..k - 1];
      if log[k - 1].Rows? {
        RowStep(p, log, k - 1);
      } else {
        OtherStep(p, log, k - 1);
      }
      p := Step(p, log[k - 1]);
    }
  }

  /** The output for any log, chunk by chunk. */
  lemma OutputIs<E>(log: seq<LogEvent<E>>)
    ensures var p := Run(Printer([], [], [], []), log);
            p.chunks == Chunks(log, |log|) && p.direct == Direct(log, |log|)
  {
    assert log[..|log|] == log;
    var p := RunHolds(log, |log|);
  }

  // What waits is a piece of the log.

  /** The table maps of a piece of log, in order. */
  function Maps<E>(log: seq<LogEvent<E>>): seq<Item<E>> {
    if log == [] then []
    else
      var n := |log| - 1;
      Maps(log[..n]) + if log[n].TableMap? then [Map(log[n].table)] else []
  }

  lemma MapsOn<E>(log: seq<LogEvent<E>>, ev: LogEvent<E>)
    ensures Maps(log + [ev]) == Maps(log) + if ev.TableMap? then [Map(ev.table)] else []
  {
    assert (log + [ev])[..|log|] == log;
  }

  lemma Piece<T>(s: seq<T>, m: nat, k: nat)
    requires m <= k < |s|
    ensures s[m..k + 1] == s[m..k] + [s[k]]
  {
  }

  /** The waiting table maps are all those since the last row event with the end flag. */
  lemma {:induction false} MapsAre<E>(log: seq<LogEvent<E>>, k: nat) returns (m: nat)
    requires k <= |log|
    ensures m <= k && (m > 0 ==> EndsMaps(log[m - 1])) && forall j :: m <= j < k ==> !EndsMaps(log[j])
    ensures MapsBefore(log, k) == Maps(log[m..k])
  {
    if k == 0 || EndsMaps(log[k - 1]) {
      m := k;
      assert log[k..k] == [];
    } else {
      m := MapsAre(log, k - 1);
      Piece(log, m, k - 1);
      MapsOn(log[m..k - 1], log[k - 1]);
    }
  }

  /** The waiting rows are all those since the last table map or printed statement. */
  lemma {:induction false} RowsAre<E>(log: seq<LogEvent<E>>, k: nat) returns (m: nat)
    requires k <= |log|
    ensures m <= k && (m > 0 ==> EndsRows(log[m - 1])) && forall j :: m <= j < k ==> !EndsRows(log[j])
    ensures RowsBefore(log, k) == LogChanges(log[m..k])
  {
    if k == 0 || EndsRows(log[k - 1]) {
      m := k;
      assert log[k..k] == [];
    } else {
      m := RowsAre(log, k - 1);
      Piece(log, m, k - 1);
      LogChangesOn(log[m..k - 1], log[k - 1]);
    }
  }

  lemma {:induction false} BackwardsAt<E>(es: seq<E>, i: nat)
    requires i < |es|
    ensures |Backwards(es)| == |es| && Backwards(es)[i] == Change(es[|es| - 1 - i], i == |es| - 1)
  {
    if |es| == 1 {
    } else {
      BackwardsAt(es[..|es| - 1], if i == 0 then 0 else i - 1);
    }
  }

  /**
   A printed statement is a chunk: all table maps since the statement before, in log
   order, then all its changes from the last to the first.
   */
  lemma StatementIsPrinted<E>(log: seq<LogEvent<E>>, k: nat) returns (m: nat, r: nat)
    requires k < |log| && EndsMaps(log[k]) && !log[k].row.skipped
    ensures m <= k && (m > 0 ==> EndsMaps(log[m - 1])) && forall j :: m <= j < k ==> !EndsMaps(log[j])
    ensures r <= k && (r > 0 ==> EndsRows(log[r - 1])) && forall j :: r <= j < k ==> !EndsRows(log[j])
    ensures ChunkAt(log, k) == [Maps(log[m..k]) + Backwards(LogChanges(log[r..k + 1]))]
  {
    m := MapsAre(log, k);
    r := RowsAre(log, k);
    Piece(log, r, k);
    LogChangesOn(log[r..k], log[k]);
  }

  // The texts of other events.

  function Texts<E>(items: seq<Item<E>>): seq<string> {
    if items == [] then []
    else
      var n := |items| - 1;
      Texts(items[..n]) + if items[n].Text? then [items[n].text] else []
  }

  function LogTexts<E>(log: seq<LogEvent<E>>): seq<string> {
    if log == [] then []
    else
      var n := |log| - 1;
      LogTexts(log[..n]) + if log[n].Other? then [log[n].text] else []
  }

  lemma {:induction false} TextsConcat<E>(a: seq<Item<E>>, b: seq<Item<E>>)
    ensures Texts(a + b) == Texts(a) + Texts(b)
  {
    if b == [] {
      assert a + b == a;
    } else {
      var n := |b| - 1;
      TextsConcat(a, b[..n]);
      assert (a + b)[..|a + b| - 1] == a + b[..n];
    }
  }

  predicate TextFree<E>(c: seq<Item<E>>) {
    forall i :: 0 <= i < |c| ==> !c[i].Text?
  }

  lemma {:induction false} TextFreeHasNone<E>(c: seq<Item<E>>)
    requires TextFree(c)
    ensures Texts(c) == []
  {
    if c == [] {
    } else {
      TextFreeHasNone(c[..|c| - 1]);
    }
  }

  lemma {:induction false} BackwardsIsTextFree<E>(rows: seq<Row<E>>)
    ensures TextFree(PrintBackwards(rows))
  {
    if rows == [] {
    } else {
      BackwardsIsTextFree(rows[..|rows| - 1]);
    }
  }

  /** The texts printed so far, the last one first. */
  ghost predicate InOrder<E>(texts: seq<string>, p: Printer<E>) {
    Texts(Output(p.chunks)) == Reverse(texts) && TextFree(p.cache)
  }

  /** A chunk without texts changes nothing. */
  lemma QuietChunk<E>(chunks: seq<seq<Item<E>>>, c: seq<Item<E>>)
    requires TextFree(c)
    ensures Texts(Output(chunks + [c])) == Texts(Output(chunks))
  {
    OutputOn(chunks, c);
    TextsConcat(c, Output(chunks));
    TextFreeHasNone(c);
  }

  lemma TextChunk<E>(chunks: seq<seq<Item<E>>>, text: string)
    ensures Texts(Output(chunks + [[Text(text)]])) == [text] + Texts(Output(chunks))
  {
    var c: seq<Item<E>> := [Text(text)];
    OutputOn(chunks, c);
    TextsConcat(c, Output(chunks));
    assert c[..0] == [];
  }

  lemma StepInOrder<E>(p: Printer<E>, texts: seq<string>, ev: LogEvent<E>)
    requires InOrder(texts, p)
    ensures InOrder(if ev.Other? then texts + [ev.text] else texts, Step(p, ev))
  {
    if ev.Other? {
      TextChunk(p.chunks, ev.text);
      ReverseOne(texts, ev.text);
    } else if ev.Rows? {
      var pending := p.pending + [Flagged(p.pending, ev.row)];
      BackwardsIsTextFree(pending);
      QuietChunk(p.chunks, p.cache + PrintBackwards(pending));
    }
  }

  lemma {:induction false} RunInOrder<E>(log: seq<LogEvent<E>>)
    ensures InOrder(LogTexts(log), Run(Printer([], [], [], []), log))
  {
    if log == [] {
    } else {
      var n := |log| - 1;
      RunInOrder(log[..n]);
      var texts := LogTexts(log[..n]);
      StepInOrder(Run(Printer([], [], [], []), log[..n]), texts, log[n]);
      assert texts + [] == texts;
    }
  }

  /** The texts of other events come out in exactly the reverse of their order in the log, for any log. */
  lemma OutputTexts<E>(log: seq<LogEvent<E>>)
    ensures Texts(Output(Run(Printer([], [], [], []), log).chunks)) == Reverse(LogTexts(log))
  {
    RunInOrder(log);
  }
}
