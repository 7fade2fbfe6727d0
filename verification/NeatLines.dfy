/**
 Ordinary lines put no comment in slashes and stars together.

 The condition of StatementComments.dfy is about the lexer's way through the lines.
 Here is one that can be read off the lines and the replies to the requests made
 on the way: no line holds a DELIMITER command or is cut short, no delimiter can
 split an opening, and no command leaves a slash at the end of the text.
 */
module NeatLines {
  import opened Basics
  import opened LineLexer
  import opened StatementText
  import opened CommentMarks
  import opened StatementComments
  import opened LineCopies

  /** Delimiters that can stand right behind a slash and a star that open a comment for the server. */
  predicate CanSplit(d: Delimiter) {
    d[0] == '!' || d == "M" || "M!" <= d
  }

  /** The last reply of a log. */
  predicate NeatReply(c: Client, log: seq<Request>) {
    log != [] ==>
      var reply := c.handle(log);
      && !CanSplit(reply.mode.delimiter)
      && (IsCommand(log[|log| - 1]) && reply.buffer != "" ==> reply.buffer[|reply.buffer| - 1] != '/')
  }

  predicate Neat(c: Client, log: seq<Request>) {
    forall n :: 0 <= n <= |log| ==> NeatReply(c, log[..n])
  }

  lemma NeatBefore(c: Client, log: seq<Request>, all: seq<Request>)
    requires Neat(c, all) && log <= all
    ensures Neat(c, log) && NeatReply(c, log)
  {
    forall n | 0 <= n <= |log| ensures NeatReply(c, log[..n]) {
      assert log[..n] == all[..n];
    }
    assert log[..|log|] == log;
  }

  ghost predicate NeatLine(c: Client, line: Line) {
    NUL !in line.text && !line.truncated && !Mentions(c, line.text)
  }

  /** No slash waits for what comes next, but where a comment keeps it apart. */
  predicate Seated(w: Watch, s: State) {
    && !CanSplit(s.mode.delimiter)
    && (s.tail == "" && !s.mlComment && !s.needSpace ==> TextTrack(w, s) != Slash)
  }

  lemma SlashOnly(w: Watch, mode: Mode, text: string)
    requires !w.dashes
    ensures Track(w, mode, text) != Dash && Track(w, mode, text) != Dashes
    ensures Track(w, mode, text) == Slash ==> text != "" && text[|text| - 1] == '/'
  {
    TrackShape(w, mode, text);
  }

  lemma NotSplit(line: string, p: nat, d: Delimiter)
    requires p < |line| && Bang(line, p) && StartsWith(line, p, d)
    ensures CanSplit(d)
  {
    StartsWithAt(line, p, d, 0);
    if |d| > 1 {
      StartsWithAt(line, p, d, 1);
    }
  }

  lemma SeatedJoinsNothing(w: Watch, line: string, s: State)
    requires s.pos < |line| && !w.dashes && Good(w, line, s) && Seated(w, s)
    ensures !Joins(w, line, s)
  {
    SlashOnly(w, s.mode, s.Accepted());
    if Splits(w, line, s) {
      NotSplit(line, s.pos, s.mode.delimiter);
    }
  }

  lemma CommandSeated(w: Watch, line: string, s: State, cmd: char)
    requires s.pos + 1 < |line| && s.tail == "" && !w.dashes
    requires NeatReply(w.c, StepCommand(w.c, line, s, cmd).s.log)
    ensures Seated(w, StepCommand(w.c, line, s, cmd).s)
  {
    CommandState(w.c, line, s, cmd);
    var t := StepCommand(w.c, line, s, cmd).s;
    assert t.Accepted() == t.buffer;
    SlashOnly(w, t.mode, t.buffer);
  }

  lemma BackslashSeated(w: Watch, line: string, s: State)
    requires s.pos < |line| && !w.dashes && Seated(w, s) && NeatReply(w.c, StepBackslash(w.c, line, s).s.log)
    ensures var o := StepBackslash(w.c, line, s); o.Continue? ==> Seated(w, o.s)
  {
    var next := At(line, s.pos + 1);
    if next != NUL && s.inString == NUL && next != 'N' && w.c.isShortCommand(next) {
      assert StepBackslash(w.c, line, s) == StepCommand(w.c, line, s.Flush(), next);
      CommandSeated(w, line, s.Flush(), next);
    }
  }

  lemma StepSeated(w: Watch, line: string, s: State)
    requires s.pos < |line| && !w.dashes && Seated(w, s) && NeatReply(w.c, Step(w.c, line, s).s.log)
    ensures var o := Step(w.c, line, s); o.Continue? ==> Seated(w, o.s)
  {
    var o := Step(w.c, line, s);
    if w.c.isSpace(line[s.pos]) && s.AtStatementStart() {
      assert o.s.Accepted() == "";
    } else if !s.mlComment && line[s.pos] == '\\' && BackslashActive(s.mode, s.inString) {
      BackslashSeated(w, line, s);
    } else if !s.mlComment && s.inString == NUL && StartsWith(line, s.pos, s.mode.delimiter) {
      if o.Continue? {
        assert o.s.Accepted() == "";
      }
    } else {
    }
  }

  lemma StepNeat(w: Watch, line: string, s: State)
    requires s.pos < |line| && NUL !in line && !w.dashes && Good(w, line, s) && Seated(w, s) && Sane(w.c)
    requires Tidy(w, Lex(w.c, line, s).s.log) && Neat(w.c, Lex(w.c, line, s).s.log)
    ensures var o := Step(w.c, line, s);
            !Joins(w, line, s) && (o.Continue? ==> Good(w, line, o.s) && Seated(w, o.s))
  {
    SeatedJoinsNothing(w, line, s);
    StepGood(w, line, s);
    StepBefore(w.c, line, s);
    NeatBefore(w.c, Step(w.c, line, s).s.log, Lex(w.c, line, s).s.log);
    StepSeated(w, line, s);
  }

  /** A line ends without a change of the delimiter. */
  lemma StepEnds(c: Client, line: string, s: State)
    requires s.pos < |line|
    ensures var o := Step(c, line, s); o.Break? ==> o.s.mode == s.mode
  {
  }

  lemma {:induction false} LexNeat(w: Watch, line: string, s: State)
    requires s.pos <= |line| && NUL !in line && !w.dashes && Good(w, line, s) && Seated(w, s) && Sane(w.c)
    requires Tidy(w, Lex(w.c, line, s).s.log) && Neat(w.c, Lex(w.c, line, s).s.log)
    ensures SmoothLex(w, line, s) && (var o := Lex(w.c, line, s); o.Break? ==> !CanSplit(o.s.mode.delimiter))
    decreases |line| - s.pos
  {
    if s.pos == |line| {
    } else {
      StepAdvances(w.c, line, s);
      StepNeat(w, line, s);
      StepEnds(w.c, line, s);
      var o := Step(w.c, line, s);
      if o.Continue? {
        LexNeat(w, line, o.s);
      }
    }
  }

  predicate SeatedInput(w: Watch, i: Input) {
    !CanSplit(i.mode.delimiter) && (i.mlComment || Track(w, i.mode, i.buffer) != Slash)
  }

  /** The newline behind a line without a DELIMITER command keeps a slash apart from the next line. */
  lemma FinishSeated(w: Watch, line: string, s: State)
    requires Named(w.c) && !w.dashes && Copied(line, s) && !Mentions(w.c, line) && !CanSplit(s.mode.delimiter)
    ensures SeatedInput(w, Finish(w.c, false, s))
  {
    var i := Finish(w.c, false, s);
    if IsDelimiterCommand(w.c, s.tail) {
      PendingCommand(w.c, line, s.tail, s.pos);
    }
    SlashOnly(w, i.mode, i.buffer);
  }

  lemma AddLineNeat(w: Watch, line: Line, i: Input)
    requires NeatLine(w.c, line) && !w.dashes && GoodInput(w, i) && SeatedInput(w, i) && Sane(w.c) && Named(w.c)
    requires var log := AddLine(w.c, line.text, false, i).input.log; Tidy(w, log) && Neat(w.c, log)
    ensures SmoothLine(w, line, i)
    ensures var r := AddLine(w.c, line.text, false, i); !r.quit ==> SeatedInput(w, r.input)
  {
    var s := Begin(i);
    assert s.Accepted() == i.buffer;
    BeginGood(w, line.text, i);
    LexNeat(w, line.text, s);
    LexCopies(w.c, line.text, s);
    var o := Lex(w.c, line.text, s);
    if o.Break? {
      SlashOnly(w, o.s.mode, o.s.Accepted());
      FinishSeated(w, line.text, o.s);
    }
  }

  lemma ReadLineNeat(w: Watch, namedCommands: bool, line: Line, i: Input)
    requires NeatLine(w.c, line) && !w.dashes && GoodInput(w, i) && SeatedInput(w, i) && Sane(w.c) && Named(w.c)
    requires var log := ReadLine(w.c, namedCommands, line, i).input.log; Tidy(w, log) && Neat(w.c, log)
    ensures IsCommandLine(w.c, namedCommands, line, i) || SmoothLine(w, line, i)
    ensures var r := ReadLine(w.c, namedCommands, line, i); !r.quit ==> SeatedInput(w, r.input)
  {
    if IsCommandLine(w.c, namedCommands, line, i) {
      var r := ReadLine(w.c, namedCommands, line, i).input;
      NeatBefore(w.c, r.log, r.log);
      SlashOnly(w, r.mode, r.buffer);
    } else {
      AddLineNeat(w, line, i);
    }
  }

  /** Lines of that kind put no comment in slashes and stars together, over any run. */
  lemma {:induction false} NeatLinesAreSmooth(c: Client, namedCommands: bool, lines: seq<Line>, i: Input)
    requires forall k :: 0 <= k < |lines| ==> NeatLine(c, lines[k])
    requires GoodInput(Watch(c, false), i) && SeatedInput(Watch(c, false), i) && Sane(c) && Named(c)
    requires var log := Read(c, namedCommands, lines, i).input.log; Tidy(Watch(c, false), log) && Neat(c, log)
    ensures Smooth(Watch(c, false), namedCommands, lines, i)
  {
    if lines == [] {
    } else {
      var w, r, all := Watch(c, false), ReadLine(c, namedCommands, lines[0], i), Read(c, namedCommands, lines, i);
      ReadBefore(c, namedCommands, lines, i);
      TidyBefore(w, r.input.log, all.input.log);
      NeatBefore(c, r.input.log, all.input.log);
      ReadLineNeat(w, namedCommands, lines[0], i);
      ReadLineGood(w, namedCommands, lines[0], i);
      if !r.quit {
        NeatLinesAreSmooth(c, namedCommands, lines[1..], r.input);
      }
    }
  }
}
