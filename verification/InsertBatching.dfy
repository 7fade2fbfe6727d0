/**
 Extended INSERT statements: the dump tool packs rows into one statement while
 the statement stays below the network buffer length.
 */
module InsertBatching {
  import opened Basics

  // What is written.

  /** The rows of a statement, each after the first on a line of its own. */
  function Joined(rows: seq<string>): string {
    if rows == [] then ""
    else if |rows| == 1 then rows[0]
    else Joined(rows[..|rows| - 1]) + ",\n" + rows[|rows| - 1]
  }

  function Statement(pat: string, rows: seq<string>): string {
    pat + Joined(rows) + ";\n"
  }

  function Text(pat: string, batches: seq<seq<string>>): string {
    if batches == [] then ""
    else Text(pat, batches[..|batches| - 1]) + Statement(pat, batches[|batches| - 1])
  }

  /** The bytes of a statement: every row costs two more than its own length. */
  function RowBytes(rows: seq<string>): nat {
    if rows == [] then 0 else RowBytes(rows[..|rows| - 1]) + |rows[|rows| - 1]| + 2
  }

  lemma {:induction false} StatementSize(pat: string, rows: seq<string>)
    requires rows != []
    ensures |Statement(pat, rows)| == |pat| + RowBytes(rows)
  {
    if |rows| == 1 {
      assert rows[..0] == [];
      assert RowBytes(rows) == |rows[0]| + 2;
    } else {
      StatementSize(pat, rows[..|rows| - 1]);
    }
  }

  lemma {:induction false} RowBytesConcat(a: seq<string>, b: seq<string>)
    ensures RowBytes(a + b) == RowBytes(a) + RowBytes(b)
  {
    if b == [] {
      assert a + b == a;
    } else {
      RowBytesConcat(a, b[..|b| - 1]);
      assert (a + b)[..|a + b| - 1] == a + b[..|b| - 1];
    }
  }

  // What is promised.

  /** A statement is short enough, in bytes written; the tool keeps four bytes in hand. */
  predicate Fits(pat: string, limit: nat, rows: seq<string>) {
    |Statement(pat, rows)| + 4 < limit
  }

  /**
   No statement is empty, none of several rows is too long, and none could have
   taken the next row. A row that would fit, but by no more than four bytes, is
   refused.
   */
  ghost predicate Greedy(pat: string, limit: nat, batches: seq<seq<string>>) {
    && (forall i :: 0 <= i < |batches| ==> Sized(pat, limit, batches[i]))
    && (forall i :: 0 < i < |batches| ==> Full(pat, limit, batches[i - 1], batches[i]))
  }

  predicate Sized(pat: string, limit: nat, rows: seq<string>) {
    rows != [] && (|rows| > 1 ==> Fits(pat, limit, rows))
  }

  /** A statement that could not have taken the first row of the next one. */
  predicate Full(pat: string, limit: nat, rows: seq<string>, next: seq<string>) {
    next != [] && !Fits(pat, limit, rows + [next[0]])
  }

  lemma GreedyTail(pat: string, limit: nat, batches: seq<seq<string>>)
    requires Greedy(pat, limit, batches) && batches != []
    ensures Greedy(pat, limit, batches[1..])
  {
    var t := batches[1..];
    forall i | 0 < i < |t|
      ensures Full(pat, limit, t[i - 1], t[i])
    {
      assert Full(pat, limit, batches[i + 1 - 1], batches[i + 1]);
      assert t[i - 1] == batches[i] && t[i] == batches[i + 1];
    }
  }

  lemma PrefixBytes(rows: seq<string>, n: nat)
    requires n <= |rows|
    ensures RowBytes(rows[..n]) <= RowBytes(rows)
  {
    RowBytesConcat(rows[..n], rows[n..]);
    assert rows == rows[..n] + rows[n..];
  }

  /** A row behind the first statement opens the second one. */
  lemma NextRow(batches: seq<seq<string>>)
    requires batches != [] && |Concat(batches)| > |batches[0]|
    requires forall i :: 0 <= i < |batches| ==> batches[i] != []
    ensures |batches| > 1
    ensures Concat(batches)[..|batches[0]| + 1] == batches[0] + [batches[1][0]]
  {
    ConcatFirst(batches);
    ConcatFirst(batches[1..]);
  }

  lemma FirstRows(batches: seq<seq<string>>, n: nat)
    requires batches != [] && n <= |batches[0]|
    ensures |Concat(batches)| >= |batches[0]| && batches[0][..n] == Concat(batches)[..n]
  {
    ConcatFirst(batches);
  }

  /** With fewer rows a statement is no longer. */
  lemma FitsPrefix(pat: string, limit: nat, rows: seq<string>, n: nat)
    requires 0 < n <= |rows| && Fits(pat, limit, rows)
    ensures Fits(pat, limit, rows[..n])
  {
    StatementSize(pat, rows);
    StatementSize(pat, rows[..n]);
    PrefixBytes(rows, n);
  }

  /** One row more than a statement took did not fit, and is no part of another. */
  lemma NotOneMore(pat: string, limit: nat, a: seq<seq<string>>, rows: seq<string>)
    requires Greedy(pat, limit, a) && a != [] && |Concat(a)| > |a[0]|
    requires rows == Concat(a)[..|a[0]| + 1]
    ensures !Fits(pat, limit, rows)
  {
    assert forall i :: 0 <= i < |a| ==> Sized(pat, limit, a[i]) && a[i] != [];
    NextRow(a);
    assert Full(pat, limit, a[1 - 1], a[1]);
  }

  /** The first statement of a greedy batching is not longer than that of another. */
  lemma FirstNotLonger(pat: string, limit: nat, a: seq<seq<string>>, b: seq<seq<string>>)
    requires Greedy(pat, limit, a) && Greedy(pat, limit, b) && a != [] && b != [] && Concat(a) == Concat(b)
    ensures |b[0]| <= |a[0]|
  {
    var n := |a[0]|;
    if |b[0]| > n {
      FirstRows(b, n + 1);
      NotOneMore(pat, limit, a, b[0][..n + 1]);
      FitsPrefix(pat, limit, b[0], n + 1);
    }
  }

  lemma SplitFirst(batches: seq<seq<string>>)
    requires batches != []
    ensures |batches[0]| <= |Concat(batches)|
    ensures batches[0] == Concat(batches)[..|batches[0]|] && Concat(batches[1..]) == Concat(batches)[|batches[0]|..]
  {
    ConcatFirst(batches);
  }

  lemma SameFirst(pat: string, limit: nat, a: seq<seq<string>>, b: seq<seq<string>>)
    requires Greedy(pat, limit, a) && Greedy(pat, limit, b) && a != [] && b != [] && Concat(a) == Concat(b)
    ensures a[0] == b[0] && Concat(a[1..]) == Concat(b[1..])
  {
    FirstNotLonger(pat, limit, a, b);
    FirstNotLonger(pat, limit, b, a);
    SplitFirst(a);
    SplitFirst(b);
  }

  /** The rows and the limit determine the statements. */
  lemma {:induction false} GreedyIsUnique(pat: string, limit: nat, a: seq<seq<string>>, b: seq<seq<string>>)
    requires Greedy(pat, limit, a) && Greedy(pat, limit, b) && Concat(a) == Concat(b)
    ensures a == b
    decreases |a|
  {
    if a == [] {
      if b != [] {
        SplitFirst(b);
      }
    } else {
      SplitFirst(a);
      SameFirst(pat, limit, a, b);
      GreedyTail(pat, limit, a);
      GreedyTail(pat, limit, b);
      GreedyIsUnique(pat, limit, a[1..], b[1..]);
      assert a == [a[0]] + a[1..] && b == [b[0]] + b[1..];
    }
  }

  // How it is done.

  /** The output so far: the finished statements, and the open one without its terminator. */
  function Sofar(pat: string, closed: seq<seq<string>>, open: seq<string>): string {
    Text(pat, closed) + if open == [] then "" else pat + Joined(open)
  }

  function Batches(closed: seq<seq<string>>, open: seq<string>): seq<seq<string>> {
    if open == [] then closed else closed + [open]
  }

  lemma SofarJoins(pat: string, closed: seq<seq<string>>, open: seq<string>, row: string)
    requires open != []
    ensures Sofar(pat, closed, open + [row]) == Sofar(pat, closed, open) + ",\n" + row
  {
    assert (open + [row])[..|open|] == open;
    assert Joined(open + [row]) == Joined(open) + ",\n" + row;
    Regroup(Text(pat, closed), pat, Joined(open), ",\n", row);
  }

  lemma Regroup(a: string, b: string, c: string, d: string, e: string)
    ensures a + (b + (c + d + e)) == a + (b + c) + d + e
  {
  }

  lemma SofarCloses(pat: string, closed: seq<seq<string>>, open: seq<string>)
    requires open != []
    ensures Sofar(pat, closed, open) + ";\n" == Text(pat, closed + [open])
  {
    assert (closed + [open])[..|closed|] == closed;
    assert Text(pat, closed) + (pat + Joined(open)) + ";\n" == Text(pat, closed) + Statement(pat, open);
  }

  lemma SofarOpens(pat: string, closed: seq<seq<string>>, row: string)
    ensures Sofar(pat, closed, [row]) == Text(pat, closed) + pat + row
  {
    assert Joined([row]) == row;
    assert Text(pat, closed) + (pat + row) == Text(pat, closed) + pat + row;
  }

  lemma ConcatBatches(closed: seq<seq<string>>, open: seq<string>)
    ensures Concat(Batches(closed, open)) == Concat(closed) + open
  {
    if open != [] {
      assert (closed + [open])[..|closed|] == closed;
    }
  }

  /** A row that fits may join the last statement. */
  lemma GreedyJoins(pat: string, limit: nat, closed: seq<seq<string>>, open: seq<string>, row: string)
    requires open != [] && Greedy(pat, limit, closed + [open]) && Fits(pat, limit, open + [row])
    ensures Greedy(pat, limit, closed + [open + [row]])
  {
    var was, now := closed + [open], closed + [open + [row]];
    forall i | 0 <= i < |now|
      ensures Sized(pat, limit, now[i])
    {
      if i < |closed| {
        assert now[i] == was[i] && Sized(pat, limit, was[i]);
      }
    }
    forall i | 0 < i < |now|
      ensures Full(pat, limit, now[i - 1], now[i])
    {
      assert Full(pat, limit, was[i - 1], was[i]);
      assert now[i - 1] == was[i - 1] && now[i][0] == was[i][0];
    }
  }

  /** A row that does not fit may open the next one. */
  lemma GreedyOpens(pat: string, limit: nat, batches: seq<seq<string>>, row: string)
    requires Greedy(pat, limit, batches)
    requires batches != [] ==> !Fits(pat, limit, batches[|batches| - 1] + [row])
    ensures Greedy(pat, limit, batches + [[row]])
  {
    var now := batches + [[row]];
    forall i | 0 < i < |now|
      ensures Full(pat, limit, now[i - 1], now[i])
    {
      if i < |batches| {
        assert Full(pat, limit, batches[i - 1], batches[i]);
      }
    }
    forall i | 0 <= i < |now|
      ensures Sized(pat, limit, now[i])
    {
      if i < |batches| {
        assert Sized(pat, limit, batches[i]);
      }
    }
  }

  lemma RowBytesOn(open: seq<string>, row: string)
    ensures RowBytes(open + [row]) == RowBytes(open) + |row| + 2
  {
    assert (open + [row])[..|open|] == open;
  }

  /** The variables of the loop. */
  datatype Dump = Dump(totalLength: nat, rowBreak: bool, text: string)

  function DumpRow(pat: string, limit: nat, d: Dump, row: string): Dump {
    var rowLength := 2 + |row|;
    if d.totalLength + rowLength < limit then
      d.(totalLength := d.totalLength + rowLength, text := d.text + ",\n" + row)
    else
      Dump(rowLength + (|pat| + 4), true, (if d.rowBreak then d.text + ";\n" else d.text) + pat + row)
  }

  function DumpAll(pat: string, limit: nat, rows: seq<string>): Dump {
    if rows == [] then Dump(limit, false, "")
    else DumpRow(pat, limit, DumpAll(pat, limit, rows[..|rows| - 1]), rows[|rows| - 1])
  }

  function Terminated(d: Dump): string {
    if d.rowBreak then d.text + ";\n" else d.text
  }

  /** What the variables say when the rows `done` have been dumped. */
  ghost predicate Dumped(pat: string, limit: nat, done: seq<string>, d: Dump, closed: seq<seq<string>>, open: seq<string>) {
    && d.rowBreak == (open != []) && (open == [] ==> closed == [])
    && d.totalLength == (if d.rowBreak then |pat| + 4 + RowBytes(open) else limit)
    && d.text == Sofar(pat, closed, open)
    && Concat(closed) + open == done
    && Greedy(pat, limit, Batches(closed, open))
  }

  lemma RowJoins(pat: string, limit: nat, done: seq<string>, d: Dump,
                 closed: seq<seq<string>>, open: seq<string>, row: string)
    requires Dumped(pat, limit, done, d, closed, open) && d.totalLength + (2 + |row|) < limit
    ensures Dumped(pat, limit, done + [row], DumpRow(pat, limit, d, row), closed, open + [row])
  {
    RowBytesOn(open, row);
    StatementSize(pat, open + [row]);
    SofarJoins(pat, closed, open, row);
    GreedyJoins(pat, limit, closed, open, row);
    Assoc(Concat(closed), open, [row]);
  }

  /** Closing the open statement, if any, and writing the row as the first of the next. */
  lemma TextOpens(pat: string, closed: seq<seq<string>>, open: seq<string>, row: string)
    requires open == [] ==> closed == []
    ensures var text := Sofar(pat, closed, open);
            Sofar(pat, Batches(closed, open), [row]) == (if open != [] then text + ";\n" else text) + pat + row
  {
    SofarOpens(pat, Batches(closed, open), row);
    if open != [] {
      SofarCloses(pat, closed, open);
    }
  }

  lemma RowOpens(pat: string, limit: nat, done: seq<string>, d: Dump,
                 closed: seq<seq<string>>, open: seq<string>, row: string)
    requires Dumped(pat, limit, done, d, closed, open) && d.totalLength + (2 + |row|) >= limit
    ensures Dumped(pat, limit, done + [row], DumpRow(pat, limit, d, row), Batches(closed, open), [row])
  {
    RowBytesOn(open, row);
    RowBytesOn([], row);
    StatementSize(pat, open + [row]);
    GreedyOpens(pat, limit, Batches(closed, open), row);
    ConcatBatches(closed, open);
    TextOpens(pat, closed, open, row);
  }

  lemma RowDumped(pat: string, limit: nat, done: seq<string>, d: Dump,
                  closed: seq<seq<string>>, open: seq<string>, row: string)
    returns (closed': seq<seq<string>>, open': seq<string>)
    requires Dumped(pat, limit, done, d, closed, open)
    ensures Dumped(pat, limit, done + [row], DumpRow(pat, limit, d, row), closed', open')
  {
    if d.totalLength + (2 + |row|) < limit {
      RowJoins(pat, limit, done, d, closed, open, row);
      closed', open' := closed, open + [row];
    } else {
      RowOpens(pat, limit, done, d, closed, open, row);
      closed', open' := Batches(closed, open), [row];
    }
  }

  lemma NothingDumped(pat: string, limit: nat)
    ensures Dumped(pat, limit, [], Dump(limit, false, ""), [], [])
  {
  }

  lemma DumpAllOn(pat: string, limit: nat, rows: seq<string>, row: string)
    ensures DumpAll(pat, limit, rows + [row]) == DumpRow(pat, limit, DumpAll(pat, limit, rows), row)
  {
    assert (rows + [row])[..|rows|] == rows;
  }

  lemma NextDumped(pat: string, limit: nat, done: seq<string>, closed: seq<seq<string>>, open: seq<string>, row: string)
    returns (closed': seq<seq<string>>, open': seq<string>)
    requires Dumped(pat, limit, done, DumpAll(pat, limit, done), closed, open)
    ensures Dumped(pat, limit, done + [row], DumpAll(pat, limit, done + [row]), closed', open')
  {
    DumpAllOn(pat, limit, done, row);
    closed', open' := RowDumped(pat, limit, done, DumpAll(pat, limit, done), closed, open, row);
  }

  lemma {:induction false} RowsDumped(pat: string, limit: nat, rows: seq<string>)
    returns (closed: seq<seq<string>>, open: seq<string>)
    ensures Dumped(pat, limit, rows, DumpAll(pat, limit, rows), closed, open)
  {
    if rows == [] {
      closed, open := [], [];
      NothingDumped(pat, limit);
    } else {
      var done, row := rows[..|rows| - 1], rows[|rows| - 1];
      assert rows == done + [row];
      closed, open := RowsDumped(pat, limit, done);
      closed, open := NextDumped(pat, limit, done, closed, open, row);
    }
  }

  /**
   The text written for any rows is that of a greedy batching of exactly these
   rows, and the length the tool keeps is that of the last statement, terminator
   included, and four bytes more.
   */
  lemma DumpIsGreedy(pat: string, limit: nat, rows: seq<string>) returns (batches: seq<seq<string>>)
    ensures Terminated(DumpAll(pat, limit, rows)) == Text(pat, batches)
    ensures Concat(batches) == rows && Greedy(pat, limit, batches)
    ensures rows != [] ==> batches != []
    ensures rows != [] ==> DumpAll(pat, limit, rows).totalLength == |Statement(pat, batches[|batches| - 1])| + 4
  {
    var closed, open := RowsDumped(pat, limit, rows);
    batches := Batches(closed, open);
    ConcatBatches(closed, open);
    if open != [] {
      SofarCloses(pat, closed, open);
      StatementSize(pat, open);
    }
  }

  /** A row joins the last statement if and only if that stays more than four bytes below the limit. */
  lemma RowJoinsIff(pat: string, limit: nat, rows: seq<string>, row: string)
    returns (closed: seq<seq<string>>, last: seq<string>)
    requires rows != []
    ensures Concat(closed) + last == rows && Terminated(DumpAll(pat, limit, rows)) == Text(pat, closed + [last])
    ensures Terminated(DumpAll(pat, limit, rows + [row])) ==
            if |Statement(pat, last + [row])| + 4 < limit then Text(pat, closed + [last + [row]])
            else Text(pat, closed + [last] + [[row]])
  {
    closed, last := RowsDumped(pat, limit, rows);
    var d := DumpAll(pat, limit, rows);
    DumpAllOn(pat, limit, rows, row);
    RowBytesOn(last, row);
    StatementSize(pat, last + [row]);
    SofarCloses(pat, closed, last);
    if Fits(pat, limit, last + [row]) {
      RowJoins(pat, limit, rows, d, closed, last, row);
      SofarCloses(pat, closed, last + [row]);
    } else {
      RowOpens(pat, limit, rows, d, closed, last, row);
      SofarCloses(pat, closed + [last], [row]);
    }
  }

  /** The four bytes are never written: here both rows make seven, below the limit of ten, and yet are kept apart. */
  lemma FittingRowIsRefused()
    ensures |Statement("I", ["1", "2"])| < 10
    ensures Terminated(DumpAll("I", 10, ["1", "2"])) == "I1;\nI2;\n"
  {
    StatementSize("I", ["1", "2"]);
    RowBytesOn([], "1");
    RowBytesOn(["1"], "2");
    DumpAllOn("I", 10, [], "1");
    DumpAllOn("I", 10, ["1"], "2");
    assert [] + ["1"] == ["1"] && ["1"] + ["2"] == ["1", "2"];
    assert DumpAll("I", 10, ["1"]) == Dump(8, true, "I1");
  }

  /** The text of a greedy batching of the rows. */
  ghost predicate IsDump(pat: string, limit: nat, rows: seq<string>, text: string) {
    exists batches :: Concat(batches) == rows && Greedy(pat, limit, batches) && text == Text(pat, batches)
  }

  /** There is exactly one such text. */
  lemma OneDump(pat: string, limit: nat, rows: seq<string>, text: string, other: string)
    requires IsDump(pat, limit, rows, text) && IsDump(pat, limit, rows, other)
    ensures text == other
  {
    var a :| Concat(a) == rows && Greedy(pat, limit, a) && text == Text(pat, a);
    var b :| Concat(b) == rows && Greedy(pat, limit, b) && other == Text(pat, b);
    GreedyIsUnique(pat, limit, a, b);
  }

  method DumpRows(pat: string, rows: seq<string>, limit: nat) returns (text: string)
    ensures IsDump(pat, limit, rows, text)
  {
    var totalLength: nat, rowBreak, initLength := limit, false, |pat| + 4;
    text := "";
    for i := 0 to |rows|
      invariant Dump(totalLength, rowBreak, text) == DumpAll(pat, limit, rows[..i])
    {
      assert rows[..i + 1][..i] == rows[..i];
      var row := rows[i];
      var rowLength := 2 + |row|;
      if totalLength + rowLength < limit {
        totalLength := totalLength + rowLength;
        text := text + ",\n" + row;
      } else {
        if rowBreak {
          text := text + ";\n";
        }
        rowBreak := true;
        text := text + pat + row;
        totalLength := rowLength + initLength;
      }
    }
    assert rows[..|rows|] == rows;
    if rowBreak {
      text := text + ";\n";
    }
    ghost var batches := DumpIsGreedy(pat, limit, rows);
    assert text == Text(pat, batches);
  }
}
