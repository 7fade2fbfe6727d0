/**
 What the lexer guarantees about the text it collects, over any run of lines.
 */
module StatementText {
  import opened Basics
  import opened LineLexer

  /** The quote state of a text: the open quote (NUL: none), and a pending backslash. */
  datatype Scan = Scan(quote: char, escaped: bool)

  const CLOSED := Scan(NUL, false)

  function ScanChar(mode: Mode, st: Scan, ch: char): Scan {
    if st.escaped then Scan(st.quote, false)
    else if ch == '\\' && BackslashActive(mode, st.quote) then Scan(st.quote, true)
    else if ch == st.quote then Scan(NUL, false)
    else if st.quote == NUL && IsQuote(ch) then Scan(ch, false)
    else st
  }

  /** Reads a text from scratch. */
  function Rescan(mode: Mode, text: string): Scan {
    if text == "" then CLOSED
    else ScanChar(mode, Rescan(mode, text[..|text| - 1]), text[|text| - 1])
  }

  lemma RescanAppend(mode: Mode, text: string, ch: char)
    ensures Rescan(mode, text + [ch]) == ScanChar(mode, Rescan(mode, text), ch)
  {
    assert (text + [ch])[..|text|] == text;
  }

  lemma RescanAppendTwo(mode: Mode, text: string, a: char, b: char)
    ensures Rescan(mode, text + [a, b]) == ScanChar(mode, ScanChar(mode, Rescan(mode, text), a), b)
  {
    RescanAppend(mode, text, a);
    RescanAppend(mode, text + [a], b);
    assert text + [a, b] == text + [a] + [b];
  }

  lemma {:induction false} OpenQuoteIsQuote(mode: Mode, text: string)
    ensures var q := Rescan(mode, text).quote; q == NUL || IsQuote(q)
  {
    if text == "" {
    } else {
      OpenQuoteIsQuote(mode, text[..|text| - 1]);
    }
  }

  predicate SameEscapes(m: Mode, n: Mode) {
    m.ansiQuotes == n.ansiQuotes && m.noBackslashEscapes == n.noBackslashEscapes
  }

  lemma {:induction false} RescanDependsOnEscapes(m: Mode, n: Mode, text: string)
    requires SameEscapes(m, n)
    ensures Rescan(m, text) == Rescan(n, text)
  {
    if text == "" {
    } else {
      RescanDependsOnEscapes(m, n, text[..|text| - 1]);
    }
  }

  /** A text handed to a command or to the server has no open quote. */
  predicate Closed(r: Request) {
    r.UnknownCommand? || Rescan(r.mode, r.text) == CLOSED
  }

  predicate AllClosed(log: seq<Request>) {
    forall i :: 0 <= i < |log| ==> Closed(log[i])
  }

  predicate IsCommand(r: Request) {
    r.ShortCommand? || r.LineCommand?
  }

  /** The last command of a log opens no quote: given a text without open quotes, it leaves one. */
  predicate LeavesClosed(c: Client, log: seq<Request>) {
    log != [] && IsCommand(log[|log| - 1]) && Closed(log[|log| - 1]) ==>
      var reply := c.handle(log);
      Rescan(reply.mode, reply.buffer) == CLOSED
  }

  /** Nor does any other command of the log. */
  predicate Orderly(c: Client, log: seq<Request>) {
    forall n :: 0 <= n <= |log| ==> LeavesClosed(c, log[..n])
  }

  lemma OrderlyBefore(c: Client, log: seq<Request>, all: seq<Request>)
    requires Orderly(c, all) && log <= all
    ensures Orderly(c, log) && LeavesClosed(c, log)
  {
    forall n | 0 <= n <= |log| ensures LeavesClosed(c, log[..n]) {
      assert log[..n] == all[..n];
    }
    assert log[..|log|] == log;
  }

  /** The last command of a log clears the text, or leaves it and the quoting rules alone. */
  predicate Gentle(c: Client, log: seq<Request>) {
    log != [] && IsCommand(log[|log| - 1]) ==>
      var r, reply := log[|log| - 1], c.handle(log);
      reply.buffer == "" || (reply.buffer == r.text && SameEscapes(reply.mode, r.mode))
  }

  lemma GentleIsOrderly(c: Client, log: seq<Request>)
    requires forall n :: 0 <= n <= |log| ==> Gentle(c, log[..n])
    ensures Orderly(c, log)
  {
    forall n | 0 <= n <= |log| ensures LeavesClosed(c, log[..n]) {
      assert Gentle(c, log[..n]);
      if n > 0 && IsCommand(log[n - 1]) && c.handle(log[..n]).buffer != "" {
        RescanDependsOnEscapes(c.handle(log[..n]).mode, log[n - 1].mode, log[n - 1].text);
      }
    }
  }

  /** The flags agree with the text: this is the invariant of the lexer. */
  ghost predicate Consistent(s: State) {
    && Rescan(s.mode, s.Accepted()) == Scan(s.inString, false)
    && (s.mlComment ==> s.inString == NUL && s.tail == "")
    && AllClosed(s.log)
  }

  ghost predicate ConsistentInput(i: Input) {
    && Rescan(i.mode, i.buffer) == Scan(i.inString, false)
    && (i.mlComment ==> i.inString == NUL)
    && AllClosed(i.log)
  }

  /** What is left of the invariant once the client has asked to quit. */
  ghost predicate ConsistentOutcome(o: Outcome) {
    if o.Quit? then AllClosed(o.s.log) else Consistent(o.s)
  }

  lemma AllClosedAppend(log: seq<Request>, r: Request)
    requires AllClosed(log) && Closed(r)
    ensures AllClosed(log + [r])
  {
  }

  /** The state behind a command, wherever its parameters end. */
  lemma CommandState(c: Client, line: string, s: State, cmd: char)
    requires s.pos + 1 < |line|
    ensures var log := s.log + [ShortCommand(s.buffer, s.mode, cmd, line[s.pos..])];
            var reply := c.handle(log);
            var t := StepCommand(c, line, s, cmd).s;
            && t.buffer == reply.buffer && t.tail == s.tail && t.mode == reply.mode && t.log == log
            && t.inString == s.inString && t.mlComment == s.mlComment
    ensures !StepCommand(c, line, s, cmd).Break?
  {
  }

  lemma CommandConsistent(c: Client, line: string, s: State, cmd: char)
    requires s.pos + 1 < |line| && s.tail == "" && !s.mlComment && s.inString == NUL
    requires Consistent(s) && LeavesClosed(c, StepCommand(c, line, s, cmd).s.log)
    ensures ConsistentOutcome(StepCommand(c, line, s, cmd))
  {
    var r := ShortCommand(s.buffer, s.mode, cmd, line[s.pos..]);
    assert s.Accepted() == s.buffer;
    AllClosedAppend(s.log, r);
    CommandState(c, line, s, cmd);
    var t := StepCommand(c, line, s, cmd).s;
    assert t.Accepted() == t.buffer;
  }

  lemma EscapedConsistent(s: State, next: char)
    requires Consistent(s) && !s.mlComment && BackslashActive(s.mode, s.inString)
    ensures Consistent(s.(tail := s.tail + ['\\', next], pos := s.pos + 2))
  {
    RescanAppendTwo(s.mode, s.Accepted(), '\\', next);
    assert s.buffer + (s.tail + ['\\', next]) == s.Accepted() + ['\\', next];
  }

  lemma FlushConsistent(s: State)
    requires Consistent(s)
    ensures Consistent(s.Flush()) && s.Flush().Accepted() == s.Accepted()
  {
    assert s.Flush().Accepted() == s.Accepted();
  }

  lemma LoggedConsistent(s: State, r: Request)
    requires Consistent(s) && Closed(r)
    ensures Consistent(s.(log := s.log + [r]))
  {
    AllClosedAppend(s.log, r);
    assert s.(log := s.log + [r]).Accepted() == s.Accepted();
  }

  /** A backslash with a character behind it, and no command. */
  lemma KeptBackslashConsistent(c: Client, line: string, s: State)
    requires s.pos < |line| && Consistent(s) && !s.mlComment && BackslashActive(s.mode, s.inString)
    requires var next := At(line, s.pos + 1);
             next != NUL && (s.inString != NUL || next == 'N' || !c.isShortCommand(next))
    ensures ConsistentOutcome(StepBackslash(c, line, s))
  {
    var next := At(line, s.pos + 1);
    if s.inString != NUL || next == 'N' {
      EscapedConsistent(s, next);
    } else {
      var r := UnknownCommand(s.mode, next);
      LoggedConsistent(s, r);
      EscapedConsistent(s.(log := s.log + [r]), next);
    }
  }

  lemma BackslashConsistent(c: Client, line: string, s: State)
    requires s.pos < |line|
    requires Consistent(s) && LeavesClosed(c, StepBackslash(c, line, s).s.log)
    requires !s.mlComment && BackslashActive(s.mode, s.inString)
    ensures ConsistentOutcome(StepBackslash(c, line, s))
  {
    var next := At(line, s.pos + 1);
    if next == NUL {
    } else if s.inString != NUL || next == 'N' || !c.isShortCommand(next) {
      KeptBackslashConsistent(c, line, s);
    } else {
      FlushConsistent(s);
      CommandConsistent(c, line, s.Flush(), next);
      assert StepBackslash(c, line, s) == StepCommand(c, line, s.Flush(), next);
    }
  }

  lemma DelimiterConsistent(c: Client, s: State)
    requires Consistent(s) && !s.mlComment && s.inString == NUL
    ensures ConsistentOutcome(StepDelimiter(c, s))
  {
    AllClosedAppend(s.log, Statement(s.Accepted(), s.mode));
  }

  /** An owed space changes no quote state, so the flag follows the kept character alone. */
  lemma CharRescan(s: State, ch: char, added: string)
    requires Consistent(s) && !s.mlComment && ch != NUL
    requires ch != '\\' || !BackslashActive(s.mode, s.inString)
    requires added == [ch] || added == [' ', ch]
    ensures Rescan(s.mode, s.Accepted() + added) == Scan(NextInString(ch, s), false)
  {
    OpenQuoteIsQuote(s.mode, s.Accepted());
    if added == [ch] {
      RescanAppend(s.mode, s.Accepted(), ch);
    } else {
      RescanAppendTwo(s.mode, s.Accepted(), ' ', ch);
    }
  }

  lemma CharConsistent(c: Client, line: string, s: State)
    requires s.pos < |line| && line[s.pos] != NUL
    requires Consistent(s)
    requires s.mlComment || line[s.pos] != '\\' || !BackslashActive(s.mode, s.inString)
    ensures Consistent(StepChar(c, line, s))
  {
    var ch := line[s.pos];
    if !s.mlComment {
      var added := if s.needSpace && !c.isSpace(ch) then [' ', ch] else [ch];
      CharRescan(s, ch, added);
      assert s.buffer + (s.tail + added) == s.Accepted() + added;
    }
  }

  lemma TextConsistent(c: Client, line: string, s: State)
    requires s.pos < |line| && line[s.pos] != NUL
    requires Consistent(s)
    requires s.mlComment || line[s.pos] != '\\' || !BackslashActive(s.mode, s.inString)
    ensures Consistent(StepText(c, line, s).s)
  {
    FlushConsistent(s);
    CharConsistent(c, line, s);
  }

  lemma StepConsistent(c: Client, line: string, s: State)
    requires s.pos < |line| && NUL !in line
    requires Consistent(s) && LeavesClosed(c, Step(c, line, s).s.log)
    ensures ConsistentOutcome(Step(c, line, s))
  {
    if c.isSpace(line[s.pos]) && s.AtStatementStart() {
    } else if !s.mlComment && line[s.pos] == '\\' && BackslashActive(s.mode, s.inString) {
      assert Step(c, line, s) == StepBackslash(c, line, s);
      BackslashConsistent(c, line, s);
    } else if !s.mlComment && s.inString == NUL && StartsWith(line, s.pos, s.mode.delimiter) {
      assert Step(c, line, s) == StepDelimiter(c, s);
      DelimiterConsistent(c, s);
    } else {
      assert Step(c, line, s) == StepText(c, line, s);
      TextConsistent(c, line, s);
    }
  }

  /** The requests of a step are among those of the rest of the line. */
  lemma StepBefore(c: Client, line: string, s: State)
    requires s.pos < |line| && (s.mlComment ==> s.tail == "")
    ensures Step(c, line, s).s.log <= Lex(c, line, s).s.log
  {
    StepAdvances(c, line, s);
    StepKeepsText(c, line, s);
    var o := Step(c, line, s);
    if o.Continue? {
      LexKeepsText(c, line, o.s);
    }
  }

  lemma {:induction false} LexConsistent(c: Client, line: string, s: State)
    requires s.pos <= |line| && NUL !in line
    requires Consistent(s) && Orderly(c, Lex(c, line, s).s.log)
    ensures ConsistentOutcome(Lex(c, line, s))
    decreases |line| - s.pos
  {
    if s.pos == |line| {
    } else {
      StepAdvances(c, line, s);
      var o := Step(c, line, s);
      StepBefore(c, line, s);
      OrderlyBefore(c, o.s.log, Lex(c, line, s).s.log);
      StepConsistent(c, line, s);
      if o.Continue? {
        LexConsistent(c, line, o.s);
      }
    }
  }

  lemma FinishConsistent(c: Client, truncated: bool, s: State)
    requires Consistent(s)
    ensures ConsistentInput(Finish(c, truncated, s))
  {
    OpenQuoteIsQuote(s.mode, s.Accepted());
    RescanAppend(s.mode, s.Accepted(), '\n');
    assert s.buffer + (s.tail + "\n") == s.Accepted() + ['\n'];
    if s.mlComment {
      assert s.Accepted() == s.buffer;
    }
  }

  lemma AddLineConsistent(c: Client, line: string, truncated: bool, i: Input)
    requires NUL !in line
    requires ConsistentInput(i) && Orderly(c, AddLine(c, line, truncated, i).input.log)
    ensures var r := AddLine(c, line, truncated, i);
            if r.quit then AllClosed(r.input.log) else ConsistentInput(r.input)
  {
    if line != "" || i.buffer != "" {
      assert Begin(i).Accepted() == i.buffer;
      LexConsistent(c, line, Begin(i));
      var o := Lex(c, line, Begin(i));
      if o.Break? {
        FinishConsistent(c, truncated, o.s);
      }
    }
  }

  /** One line as it arrives from the terminal or the script. */
  datatype Line = Line(text: string, truncated: bool)

  /** A line outside quotes and comments that is a command as a whole. */
  predicate IsCommandLine(c: Client, namedCommands: bool, line: Line, i: Input) {
    && (namedCommands || i.buffer == "") && !i.mlComment && i.inString == NUL
    && c.isLineCommand(line.text, i.mode)
  }

  /** The reader's choice between a command on a line of its own and more statement text. */
  function ReadLine(c: Client, namedCommands: bool, line: Line, i: Input): LineResult {
    if IsCommandLine(c, namedCommands, line, i) then
      var log := i.log + [LineCommand(i.buffer, i.mode, line.text)];
      var reply := c.handle(log);
      LineResult(i.(buffer := reply.buffer, mode := reply.mode, log := log), reply.quit)
    else
      AddLine(c, line.text, line.truncated, i)
  }

  function Read(c: Client, namedCommands: bool, lines: seq<Line>, i: Input): LineResult {
    if lines == [] then LineResult(i, false)
    else
      var r := ReadLine(c, namedCommands, lines[0], i);
      if r.quit then r else Read(c, namedCommands, lines[1..], r.input)
  }

  lemma ReadLineConsistent(c: Client, namedCommands: bool, line: Line, i: Input)
    requires NUL !in line.text
    requires ConsistentInput(i) && Orderly(c, ReadLine(c, namedCommands, line, i).input.log)
    ensures var r := ReadLine(c, namedCommands, line, i);
            if r.quit then AllClosed(r.input.log) else ConsistentInput(r.input)
  {
    if IsCommandLine(c, namedCommands, line, i) {
      var log := i.log + [LineCommand(i.buffer, i.mode, line.text)];
      OrderlyBefore(c, log, log);
      AllClosedAppend(i.log, LineCommand(i.buffer, i.mode, line.text));
    } else {
      AddLineConsistent(c, line.text, line.truncated, i);
    }
  }

  /** The requests of a line are among those of the rest of the run. */
  lemma ReadBefore(c: Client, namedCommands: bool, lines: seq<Line>, i: Input)
    requires lines != []
    ensures ReadLine(c, namedCommands, lines[0], i).input.log <= Read(c, namedCommands, lines, i).input.log
  {
    var r := ReadLine(c, namedCommands, lines[0], i);
    if !r.quit {
      NothingAcceptedIsLost(c, namedCommands, lines[1..], r.input);
    }
  }

  /**
   Over any run of lines: the open quote the client remembers is the one a fresh
   reading of the collected text finds, and every text handed to a command or to
   the server, at any point of the run, has all its quotes closed.
   */
  lemma {:induction false} QuoteStateIsRescan(c: Client, namedCommands: bool, lines: seq<Line>, i: Input)
    requires forall k :: 0 <= k < |lines| ==> NUL !in lines[k].text
    requires ConsistentInput(i) && Orderly(c, Read(c, namedCommands, lines, i).input.log)
    ensures var r := Read(c, namedCommands, lines, i);
            && AllClosed(r.input.log)
            && (!r.quit ==> Rescan(r.input.mode, r.input.buffer) == Scan(r.input.inString, false))
            && (!r.quit ==> ConsistentInput(r.input))
  {
    if lines == [] {
    } else {
      var r := ReadLine(c, namedCommands, lines[0], i);
      ReadBefore(c, namedCommands, lines, i);
      OrderlyBefore(c, r.input.log, Read(c, namedCommands, lines, i).input.log);
      ReadLineConsistent(c, namedCommands, lines[0], i);
      if !r.quit {
        QuoteStateIsRescan(c, namedCommands, lines[1..], r.input);
      }
    }
  }

  /** Inside a comment nothing is accepted and nobody is called, delimiters included. */
  lemma CommentIsInert(c: Client, line: string, s: State)
    requires s.pos < |line|
    requires s.mlComment && s.tail == ""
    ensures var o := Step(c, line, s);
            o.Continue? && o.s.buffer == s.buffer && o.s.tail == "" && o.s.log == s.log && o.s.mode == s.mode
  {
  }

  predicate EndsComment(line: string, i: nat) {
    i + 1 < |line| && line[i] == '*' && line[i + 1] == '/'
  }

  lemma {:induction false} LexInComment(c: Client, line: string, s: State)
    requires s.pos <= |line| && NUL !in line && s.mlComment && s.inString == NUL && s.tail == ""
    requires forall i :: s.pos <= i < |line| ==> !EndsComment(line, i)
    ensures var o := Lex(c, line, s);
            o.Break? && o.s == s.(pos := |line|, ssComment := o.s.ssComment)
    decreases |line| - s.pos
  {
    if s.pos == |line| {
    } else {
      StepAdvances(c, line, s);
      CommentIsInert(c, line, s);
      assert !EndsComment(line, s.pos);
      LexInComment(c, line, Step(c, line, s).s);
    }
  }

  /** A line inside a comment, without the mark that ends it, changes nothing, whatever else it holds. */
  lemma CommentLineIsInert(c: Client, line: string, truncated: bool, i: Input)
    requires NUL !in line && i.mlComment && i.inString == NUL && forall k :: 0 <= k < |line| ==> !EndsComment(line, k)
    ensures AddLine(c, line, truncated, i) == LineResult(i, false)
  {
    LexInComment(c, line, Begin(i));
  }

  /**
   Text accepted when the log had `n` requests is still there: in front of the
   text collected now, or in front of a text handed over since.
   */
  ghost predicate StillThere(accepted: string, n: nat, now: string, log: seq<Request>) {
    || accepted <= now
    || exists i :: n <= i < |log| && !log[i].UnknownCommand? && accepted <= log[i].text
  }

  lemma StillThereLater(a: string, n: nat, b: string, log: seq<Request>, d: string, log2: seq<Request>)
    requires n <= |log| && log <= log2
    requires StillThere(a, n, b, log) && StillThere(b, |log|, d, log2)
    ensures StillThere(a, n, d, log2)
  {
    if a <= b {
      if !(b <= d) {
        var i :| |log| <= i < |log2| && !log2[i].UnknownCommand? && b <= log2[i].text;
        assert a <= log2[i].text;
      }
    } else {
      var i :| n <= i < |log| && !log[i].UnknownCommand? && a <= log[i].text;
      assert log2[i] == log[i];
    }
  }

  /** Inside a line nothing is pending while a comment is open. */
  ghost predicate StepKept(s: State, t: State) {
    && s.log <= t.log
    && (t.mlComment ==> t.tail == "")
    && StillThere(s.Accepted(), |s.log|, t.Accepted(), t.log)
  }

  lemma BackslashKeepsText(c: Client, line: string, s: State)
    requires s.pos < |line| && !s.mlComment
    ensures StepKept(s, StepBackslash(c, line, s).s)
  {
    var t := StepBackslash(c, line, s).s;
    var next := At(line, s.pos + 1);
    if next != NUL && s.inString == NUL && next != 'N' && c.isShortCommand(next) {
      assert t.log[|s.log|].text == s.Accepted();
    }
  }

  /** Comments and ordinary characters only ever add to the text. */
  lemma TextGrows(c: Client, line: string, s: State)
    requires s.pos < |line| && (s.mlComment ==> s.tail == "")
    ensures var t := StepText(c, line, s).s;
            t.log == s.log && (t.mlComment ==> t.tail == "") && s.Accepted() <= t.Accepted()
  {
    assert s.Flush().Accepted() == s.Accepted();
  }

  /** A step loses no accepted text: it extends it, or hands over the whole of it. */
  lemma StepKeepsText(c: Client, line: string, s: State)
    requires s.pos < |line|
    requires s.mlComment ==> s.tail == ""
    ensures StepKept(s, Step(c, line, s).s)
  {
    if c.isSpace(line[s.pos]) && s.AtStatementStart() {
    } else if !s.mlComment && line[s.pos] == '\\' && BackslashActive(s.mode, s.inString) {
      BackslashKeepsText(c, line, s);
    } else if !s.mlComment && s.inString == NUL && StartsWith(line, s.pos, s.mode.delimiter) {
      assert StepDelimiter(c, s).s.log[|s.log|].text == s.Accepted();
    } else {
      TextGrows(c, line, s);
    }
  }

  lemma {:induction false} LexKeepsText(c: Client, line: string, s: State)
    requires s.pos <= |line|
    requires s.mlComment ==> s.tail == ""
    ensures StepKept(s, Lex(c, line, s).s)
    decreases |line| - s.pos
  {
    if s.pos == |line| {
    } else {
      StepKeepsText(c, line, s);
      StepAdvances(c, line, s);
      var o := Step(c, line, s);
      if o.Continue? {
        LexKeepsText(c, line, o.s);
        var t := Lex(c, line, o.s).s;
        StillThereLater(s.Accepted(), |s.log|, o.s.Accepted(), o.s.log, t.Accepted(), t.log);
      }
    }
  }

  lemma ReadLineKeepsText(c: Client, namedCommands: bool, line: Line, i: Input)
    ensures var r := ReadLine(c, namedCommands, line, i);
            i.log <= r.input.log &&
            (!r.quit ==> StillThere(i.buffer, |i.log|, r.input.buffer, r.input.log))
  {
    var r := ReadLine(c, namedCommands, line, i);
    if IsCommandLine(c, namedCommands, line, i) {
      assert r.input.log[|i.log|].text == i.buffer;
    } else {
      assert Begin(i).Accepted() == i.buffer;
      LexKeepsText(c, line.text, Begin(i));
      var o := Lex(c, line.text, Begin(i));
      if !(line.text == "" && i.buffer == "") && o.Break? {
        var s := o.s;
        assert s.Accepted() <= r.input.buffer;
        StillThereLater(i.buffer, |i.log|, s.Accepted(), s.log, r.input.buffer, s.log);
      }
    }
  }

  /**
   Over any run of lines, for every client: text that was accepted is never lost.
   It stays in front of the collected statement until it is handed over, whole,
   to a command or to the server; a line ending inside a comment drops none of it.
   */
  lemma {:induction false} NothingAcceptedIsLost(c: Client, namedCommands: bool, lines: seq<Line>, i: Input)
    ensures var r := Read(c, namedCommands, lines, i);
            i.log <= r.input.log &&
            (!r.quit ==> StillThere(i.buffer, |i.log|, r.input.buffer, r.input.log))
  {
    if lines == [] {
    } else {
      ReadLineKeepsText(c, namedCommands, lines[0], i);
      var r := ReadLine(c, namedCommands, lines[0], i);
      if !r.quit {
        NothingAcceptedIsLost(c, namedCommands, lines[1..], r.input);
        var r2 := Read(c, namedCommands, lines[1..], r.input);
        if !r2.quit {
          StillThereLater(i.buffer, |i.log|, r.input.buffer, r.input.log, r2.input.buffer, r2.input.log);
        }
      }
    }
  }
}
