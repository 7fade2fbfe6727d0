/**
 A mark that the lexer puts together does reach the server.

 Once a mark is put together, the text is `Doomed`: whatever the rest of the line
 and the lines behind it hold, a comment is handed over, or stays in the collected
 text for good. So the places found in StatementComments.dfy are exactly those
 that make the difference.
 */
module CommentExact {
  import opened Basics
  import opened LineLexer
  import opened StatementText
  import opened CommentMarks
  import opened StatementComments

  /** A mark is open, or is put together but for a character that is not the `!` that could still save it. */
  predicate Doomed(w: Watch, line: string, s: State) {
    var held := s.mlComment || s.needSpace;
    match TextTrack(w, s)
    case Opened => true
    case Star => |s.tail| <= 1 && (held || !Bang(line, s.pos))
    case StarM => |s.tail| <= 2 && (held || At(line, s.pos) != '!')
    case _ => false
  }

  /** What a doomed text comes to: a comment is handed over, or the text stays doomed, or the client quits. */
  ghost predicate DoomedOutcome(w: Watch, line: string, o: Outcome) {
    !AllPlain(w, o.s.log) || o.Quit? || Doomed(w, line, o.s)
  }

  /** What the lexer puts behind text counts as white space. */
  predicate Blank(c: Client) {
    c.isSpace(' ') && c.isSpace('\n')
  }

  lemma HandedOver(w: Watch, log: seq<Request>, r: Request, all: seq<Request>)
    requires !PlainRequest(w, r) && log + [r] <= all
    ensures !AllPlain(w, all)
  {
    assert all[|log|] == r;
  }

  lemma StillHandedOver(w: Watch, log: seq<Request>, all: seq<Request>)
    requires !AllPlain(w, log) && log <= all
    ensures !AllPlain(w, all)
  {
    var i :| 0 <= i < |log| && !PlainRequest(w, log[i]);
    assert all[i] == log[i];
  }

  lemma OpenedOn(w: Watch, mode: Mode, a: string, b: string)
    requires Track(w, mode, a) == Opened
    ensures Track(w, mode, a + b) == Opened
  {
    assert (a + b)[..|a|] == a;
    OpenedForGood(w, mode, a + b, |a|);
  }

  /** An unfinished opening does not survive anything but its `!`. */
  lemma SpoiltOpening(w: Watch, mode: Mode, a: string, x: char, b: string)
    requires Track(w, mode, a) == Star || Track(w, mode, a) == StarM
    requires x != '!' && x != 'M'
    ensures Track(w, mode, a + ([x] + b)) == Opened
  {
    TrackShape(w, mode, a);
    TrackAppend(w, mode, a, x);
    OpenedOn(w, mode, a + [x], b);
    Assoc(a, [x], b);
  }

  lemma AppendDoomed(w: Watch, mode: Mode, a: string, x: char, b: string)
    requires !Quiet(Track(w, mode, a)) && x != '!' && x != 'M'
    ensures Track(w, mode, a + ([x] + b)) == Opened
  {
    if Track(w, mode, a) == Opened {
      OpenedOn(w, mode, a, [x] + b);
    } else {
      SpoiltOpening(w, mode, a, x, b);
    }
  }

  lemma EscapedDoomed(w: Watch, line: string, s: State, next: char, t: State)
    requires Doomed(w, line, s) && t.mode == s.mode && t.buffer == s.buffer && t.tail == s.tail + ['\\', next]
    ensures Doomed(w, line, t)
  {
    AppendDoomed(w, s.mode, s.Accepted(), '\\', [next]);
    assert ['\\'] + [next] == ['\\', next];
    Assoc(s.buffer, s.tail, ['\\', next]);
  }

  lemma BackslashDoomed(w: Watch, line: string, s: State)
    requires s.pos < |line| && line[s.pos] == '\\' && Doomed(w, line, s) && NUL !in line
    ensures DoomedOutcome(w, line, StepBackslash(w.c, line, s))
  {
    if s.pos + 1 < |line| {
      var next, o := line[s.pos + 1], StepBackslash(w.c, line, s);
      if s.inString != NUL || next == 'N' || !w.c.isShortCommand(next) {
        KeptBackslash(w.c, line, s);
        if !o.Quit? {
          EscapedDoomed(w, line, s, next, o.s);
        }
      } else {
        CommandState(w.c, line, s.Flush(), next);
        HandedOver(w, s.log, ShortCommand(s.Accepted(), s.mode, next, line[s.pos..]), o.s.log);
      }
    }
  }

  /** The character kept next, outside comments. */
  lemma CharDoomed(w: Watch, line: string, s: State)
    requires s.pos < |line| && Doomed(w, line, s) && !s.mlComment && Sane(w.c)
    ensures Doomed(w, line, StepChar(w.c, line, s))
  {
    var ch := line[s.pos];
    var t := StepChar(w.c, line, s);
    var a := s.Accepted();
    if s.needSpace && !w.c.isSpace(ch) {
      assert [' '] + [ch] == [' ', ch];
      AppendDoomed(w, s.mode, a, ' ', [ch]);
      Assoc(s.buffer, s.tail, [' ', ch]);
    } else {
      Assoc(s.buffer, s.tail, [ch]);
      if TextTrack(w, s) == Opened {
        OpenedOn(w, s.mode, a, [ch]);
      } else {
        TrackShape(w, s.mode, a);
        TrackAppend(w, s.mode, a, ch);
      }
    }
  }

  lemma TextDoomed(w: Watch, line: string, s: State)
    requires s.pos < |line| && Doomed(w, line, s) && Sane(w.c) && (s.mlComment ==> s.tail == "")
    ensures Doomed(w, line, StepText(w.c, line, s).s)
  {
    assert s.Flush().Accepted() == s.Accepted();
    if !s.mlComment && s.inString == NUL && IsLineComment(w.c, line, s) {
    } else if s.inString == NUL && OpensComment(line, s.pos) {
    } else if s.mlComment && !s.ssComment && line[s.pos] == '*' && At(line, s.pos + 1) == '/' {
    } else if s.mlComment {
      assert StepChar(w.c, line, s).Accepted() == s.Accepted();
    } else {
      CharDoomed(w, line, s);
    }
  }

  lemma StepDoomed(w: Watch, line: string, s: State)
    requires s.pos < |line| && NUL !in line && Doomed(w, line, s) && Sane(w.c) && (s.mlComment ==> s.tail == "")
    ensures DoomedOutcome(w, line, Step(w.c, line, s))
  {
    assert s.AtStatementStart() ==> s.Accepted() == "";
    if w.c.isSpace(line[s.pos]) && s.AtStatementStart() {
    } else if !s.mlComment && line[s.pos] == '\\' && BackslashActive(s.mode, s.inString) {
      BackslashDoomed(w, line, s);
    } else if !s.mlComment && s.inString == NUL && StartsWith(line, s.pos, s.mode.delimiter) {
      HandedOver(w, s.log, Statement(s.Accepted(), s.mode), StepDelimiter(w.c, s).s.log);
    } else {
      TextDoomed(w, line, s);
    }
  }

  lemma {:induction false} LexDoomed(w: Watch, line: string, s: State)
    requires s.pos <= |line| && NUL !in line && Doomed(w, line, s) && Sane(w.c) && (s.mlComment ==> s.tail == "")
    ensures DoomedOutcome(w, line, Lex(w.c, line, s))
    decreases |line| - s.pos
  {
    if s.pos == |line| {
    } else {
      StepAdvances(w.c, line, s);
      StepDoomed(w, line, s);
      StepKeepsText(w.c, line, s);
      StepBefore(w.c, line, s);
      var o := Step(w.c, line, s);
      if !AllPlain(w, o.s.log) {
        StillHandedOver(w, o.s.log, Lex(w.c, line, s).s.log);
      } else if o.Continue? {
        LexDoomed(w, line, o.s);
      }
    }
  }

  /** Each way to put a mark together dooms the text. */
  lemma JoinDooms(w: Watch, line: string, s: State)
    requires s.pos < |line| && Good(w, line, s) && Sane(w.c) && Blank(w.c) && Joins(w, line, s)
    ensures DoomedOutcome(w, line, Step(w.c, line, s))
  {
    TrackShape(w, s.mode, s.Accepted());
    if Splits(w, line, s) {
      SplitDooms(w, line, s);
    } else if JoinsSlash(w, line, s) {
      TrackAppend(w, s.mode, s.Accepted(), '*');
      Assoc(s.buffer, s.tail, ['*']);
    } else {
      DashesDoom(w, line, s);
    }
  }

  lemma SplitDooms(w: Watch, line: string, s: State)
    requires s.pos < |line| && Good(w, line, s) && Splits(w, line, s)
    ensures !AllPlain(w, Step(w.c, line, s).s.log)
  {
    TrackShape(w, s.mode, s.Accepted());
    assert !s.AtStatementStart() by {
      assert s.AtStatementStart() ==> s.Accepted() == "";
    }
    assert Step(w.c, line, s) == StepDelimiter(w.c, s);
    HandedOver(w, s.log, Statement(s.Accepted(), s.mode), StepDelimiter(w.c, s).s.log);
  }

  lemma DashesDoom(w: Watch, line: string, s: State)
    requires s.pos < |line| && Consistent(s) && Blank(w.c) && JoinsDashes(w, line, s)
    ensures Doomed(w, line, Step(w.c, line, s).s)
  {
    var a, ch := s.Accepted(), line[s.pos];
    var added := if s.needSpace && !w.c.isSpace(ch) then [' ', ch] else [ch];
    Assoc(s.buffer, s.tail, added);
    TrackAppend(w, s.mode, a, added[0]);
    if |added| == 2 {
      OpenedOn(w, s.mode, a + [' '], [ch]);
      AppendTwo(a, ' ', ch);
    }
  }

  /** If a mark is put together anywhere on the line, the line is doomed. */
  lemma {:induction false} LexExact(w: Watch, line: string, s: State)
    requires s.pos <= |line| && NUL !in line && !SmoothLex(w, line, s) && Blank(w.c)
    requires Good(w, line, s) && Sane(w.c) && Tidy(w, Lex(w.c, line, s).s.log)
    ensures DoomedOutcome(w, line, Lex(w.c, line, s))
    decreases |line| - s.pos
  {
    StepAdvances(w.c, line, s);
    StepBefore(w.c, line, s);
    var o := Step(w.c, line, s);
    if Joins(w, line, s) {
      JoinDooms(w, line, s);
      StepKeepsText(w.c, line, s);
      if !AllPlain(w, o.s.log) {
        StillHandedOver(w, o.s.log, Lex(w.c, line, s).s.log);
      } else if o.Continue? {
        LexDoomed(w, line, o.s);
      }
    } else {
      StepGood(w, line, s);
      LexExact(w, line, o.s);
    }
  }

  // From line to line.

  /** A mark is open in the collected text, or will be as soon as the comment behind it ends. */
  predicate DoomedInput(w: Watch, i: Input) {
    var k := Track(w, i.mode, i.buffer);
    k == Opened || (i.mlComment && !Quiet(k))
  }

  ghost predicate DoomedResult(w: Watch, r: LineResult) {
    !AllPlain(w, r.input.log) || r.quit || DoomedInput(w, r.input)
  }

  lemma FinishDoomed(w: Watch, line: string, s: State)
    requires Doomed(w, line, s) && (s.mlComment ==> s.tail == "")
    ensures DoomedInput(w, Finish(w.c, false, s))
  {
    assert s.AtStatementStart() ==> s.Accepted() == "";
    if s.mlComment {
      assert s.Accepted() == s.buffer;
    } else {
      AppendDoomed(w, s.mode, s.Accepted(), '\n', "");
      Assoc(s.buffer, s.tail, "\n");
      assert ['\n'] + "" == "\n";
    }
  }

  lemma NewlineDooms(w: Watch, s: State)
    requires JoinsNewline(w, false, s) && Blank(w.c)
    ensures DoomedInput(w, Finish(w.c, false, s))
  {
    assert s.AtStatementStart() ==> s.Accepted() == "";
    TrackShape(w, s.mode, s.Accepted());
    TrackAppend(w, s.mode, s.Accepted(), '\n');
    Assoc(s.buffer, s.tail, "\n");
  }

  lemma OutcomeDoomed(w: Watch, line: string, i: Input)
    requires NUL !in line && (line != "" || i.buffer != "") && (i.mlComment ==> i.inString == NUL)
    requires DoomedOutcome(w, line, Lex(w.c, line, Begin(i)))
    ensures DoomedResult(w, AddLine(w.c, line, false, i))
  {
    LexKeepsText(w.c, line, Begin(i));
    var o := Lex(w.c, line, Begin(i));
    if o.Break? && AllPlain(w, o.s.log) {
      FinishDoomed(w, line, o.s);
    }
  }

  lemma ReadLineDoomed(w: Watch, namedCommands: bool, line: Line, i: Input)
    requires NUL !in line.text && !line.truncated && ConsistentInput(i) && DoomedInput(w, i) && Sane(w.c)
    ensures DoomedResult(w, ReadLine(w.c, namedCommands, line, i))
  {
    if IsCommandLine(w.c, namedCommands, line, i) {
      var r := LineCommand(i.buffer, i.mode, line.text);
      HandedOver(w, i.log, r, i.log + [r]);
    } else {
      assert i.buffer != "";
      assert Begin(i).Accepted() == i.buffer;
      LexDoomed(w, line.text, Begin(i));
      OutcomeDoomed(w, line.text, i);
    }
  }

  lemma {:induction false} ReadDoomed(w: Watch, namedCommands: bool, lines: seq<Line>, i: Input)
    requires forall k :: 0 <= k < |lines| ==> NUL !in lines[k].text && !lines[k].truncated
    requires ConsistentInput(i) && DoomedInput(w, i) && Sane(w.c)
    requires Orderly(w.c, Read(w.c, namedCommands, lines, i).input.log)
    ensures DoomedResult(w, Read(w.c, namedCommands, lines, i))
  {
    if lines == [] {
    } else {
      var r, all := ReadLine(w.c, namedCommands, lines[0], i), Read(w.c, namedCommands, lines, i);
      ReadLineDoomed(w, namedCommands, lines[0], i);
      ReadBefore(w.c, namedCommands, lines, i);
      OrderlyBefore(w.c, r.input.log, all.input.log);
      ReadLineConsistent(w.c, namedCommands, lines[0], i);
      if !AllPlain(w, r.input.log) {
        StillHandedOver(w, r.input.log, all.input.log);
      } else if !r.quit {
        ReadDoomed(w, namedCommands, lines[1..], r.input);
      }
    }
  }

  lemma LineExact(w: Watch, line: Line, i: Input)
    requires NUL !in line.text && !line.truncated && !SmoothLine(w, line, i) && GoodInput(w, i)
    requires Sane(w.c) && Blank(w.c) && Tidy(w, AddLine(w.c, line.text, false, i).input.log)
    ensures DoomedResult(w, AddLine(w.c, line.text, false, i))
  {
    assert Begin(i).Accepted() == i.buffer;
    BeginGood(w, line.text, i);
    var o := Lex(w.c, line.text, Begin(i));
    if !SmoothLex(w, line.text, Begin(i)) {
      LexExact(w, line.text, Begin(i));
      OutcomeDoomed(w, line.text, i);
    } else {
      NewlineDooms(w, o.s);
    }
  }

  lemma ReadLineExact(w: Watch, namedCommands: bool, line: Line, i: Input)
    requires NUL !in line.text && !line.truncated && GoodInput(w, i) && Sane(w.c) && Blank(w.c)
    requires !IsCommandLine(w.c, namedCommands, line, i) && !SmoothLine(w, line, i)
    requires Tidy(w, ReadLine(w.c, namedCommands, line, i).input.log)
    ensures DoomedResult(w, ReadLine(w.c, namedCommands, line, i))
  {
    LineExact(w, line, i);
  }

  lemma {:induction false} ReadExact(w: Watch, namedCommands: bool, lines: seq<Line>, i: Input)
    requires forall k :: 0 <= k < |lines| ==> NUL !in lines[k].text && !lines[k].truncated
    requires GoodInput(w, i) && Sane(w.c) && Blank(w.c) && !Smooth(w, namedCommands, lines, i)
    requires Tidy(w, Read(w.c, namedCommands, lines, i).input.log)
    ensures DoomedResult(w, Read(w.c, namedCommands, lines, i))
  {
    var r, all := ReadLine(w.c, namedCommands, lines[0], i), Read(w.c, namedCommands, lines, i);
    ReadBefore(w.c, namedCommands, lines, i);
    TidyBefore(w, r.input.log, all.input.log);
    TidyBefore(w, all.input.log, all.input.log);
    if IsCommandLine(w.c, namedCommands, lines[0], i) || SmoothLine(w, lines[0], i) {
      ReadLineGood(w, namedCommands, lines[0], i);
      ReadExact(w, namedCommands, lines[1..], r.input);
    } else {
      ReadLineExact(w, namedCommands, lines[0], i);
      ReadLineConsistent(w.c, namedCommands, lines[0], i);
      if !AllPlain(w, r.input.log) {
        StillHandedOver(w, r.input.log, all.input.log);
      } else if !r.quit {
        ReadDoomed(w, namedCommands, lines[1..], r.input);
      }
    }
  }

  /** No text handed over opens a comment, nor does the text still being collected. */
  ghost predicate AllBare(w: Watch, i: Input) {
    && (forall n :: 0 <= n < |i.log| && !i.log[n].UnknownCommand? ==> Bare(w, i.log[n].mode, i.log[n].text))
    && Bare(w, i.mode, i.buffer)
  }

  lemma PlainIffBare(w: Watch, i: Input)
    ensures AllPlain(w, i.log) && Quiet(Track(w, i.mode, i.buffer)) <==> AllBare(w, i)
  {
    QuietIffBare(w, i.mode, i.buffer);
    forall n | 0 <= n < |i.log| && !i.log[n].UnknownCommand?
      ensures PlainRequest(w, i.log[n]) <==> Bare(w, i.log[n].mode, i.log[n].text)
    {
      QuietIffBare(w, i.log[n].mode, i.log[n].text);
    }
  }

  /**
   Over any whole lines from a fresh start: no comment that the server would ignore
   is handed over, or left in the collected text, if and only if none is put
   together on the way.
   */
  lemma CommentsStayOutIff(w: Watch, namedCommands: bool, lines: seq<Line>, mode: Mode)
    requires forall k :: 0 <= k < |lines| ==> NUL !in lines[k].text && !lines[k].truncated
    requires Sane(w.c) && Blank(w.c) && Tidy(w, Run(w.c, namedCommands, lines, mode).input.log)
    requires !Run(w.c, namedCommands, lines, mode).quit
    ensures AllBare(w, Run(w.c, namedCommands, lines, mode).input) <==> Smooth(w, namedCommands, lines, Fresh(mode))
  {
    var r := Run(w.c, namedCommands, lines, mode);
    PlainIffBare(w, r.input);
    if Smooth(w, namedCommands, lines, Fresh(mode)) {
      ReadGood(w, namedCommands, lines, Fresh(mode));
    } else {
      ReadExact(w, namedCommands, lines, Fresh(mode));
    }
  }
}
