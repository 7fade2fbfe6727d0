/**
 What the server gets of the user's comments: none that it would ignore.

 The lexer takes comments out of the text it collects. Comments that are code for
 the server, whose opening goes on with `!` or `M!`, stay. What the lexer puts
 together where a comment, a command or a line end was can form a mark that it
 never read as one. `Joins` and `JoinsNewline` are the places where that happens,
 and here it is proved, over any lines, that there are no others: CommentExact.dfy
 has the converse, and CommentJoins.dfy an input for each way.
 */
module StatementComments {
  import opened Basics
  import opened LineLexer
  import opened StatementText
  import opened CommentMarks

  // What puts a mark together.

  function TextTrack(w: Watch, s: State): Opening {
    Track(w, s.mode, s.Accepted())
  }

  /** A character that the lexer keeps where it stands, outside quotes and comments. */
  predicate Keeps(c: Client, line: string, s: State)
    requires s.pos < |line|
  {
    && !s.mlComment && s.inString == NUL && !(c.isSpace(line[s.pos]) && s.AtStatementStart())
    && line[s.pos] != '\\' && !StartsWith(line, s.pos, s.mode.delimiter)
    && !IsLineComment(c, line, s) && !OpensComment(line, s.pos)
  }

  /** The delimiter stands right behind the slash and the star, or the `M`, that open a comment for the server. */
  predicate Splits(w: Watch, line: string, s: State)
    requires s.pos < |line|
  {
    StartsWith(line, s.pos, s.mode.delimiter) && (TextTrack(w, s) == Star || TextTrack(w, s) == StarM)
  }

  /** Where nothing is pending, that is behind a command or where a line starts, a star joins a slash left there. */
  predicate JoinsSlash(w: Watch, line: string, s: State)
    requires s.pos < |line|
  {
    && s.tail == "" && !s.needSpace && Keeps(w.c, line, s)
    && TextTrack(w, s) == Slash && line[s.pos] == '*' && !Bang(line, s.pos + 1)
  }

  /**
   White space comes behind two dashes: the space owed for a removed comment, or
   one on the line, where the dashes were not both read right before it.
   */
  predicate JoinsDashes(w: Watch, line: string, s: State)
    requires s.pos < |line|
  {
    && Keeps(w.c, line, s) && TextTrack(w, s) == Dashes
    && (s.needSpace || (|s.tail| < 2 && w.c.isSpace(line[s.pos])))
  }

  predicate Joins(w: Watch, line: string, s: State)
    requires s.pos < |line|
  {
    Splits(w, line, s) || JoinsSlash(w, line, s) || JoinsDashes(w, line, s)
  }

  /** The newline comes behind two dashes. */
  predicate JoinsNewline(w: Watch, truncated: bool, s: State) {
    && TextTrack(w, s) == Dashes && !s.mlComment
    && !truncated && (!IsDelimiterCommand(w.c, s.tail) || s.inString != NUL)
  }

  /** From `s` on the lexer puts no mark together on the line. */
  predicate SmoothLex(w: Watch, line: string, s: State)
    requires s.pos <= |line|
    decreases |line| - s.pos
  {
    s.pos < |line| ==>
      && !Joins(w, line, s)
      && (StepAdvances(w.c, line, s);
          var o := Step(w.c, line, s);
          o.Continue? ==> SmoothLex(w, line, o.s))
  }

  predicate SmoothLine(w: Watch, line: Line, i: Input) {
    && SmoothLex(w, line.text, Begin(i))
    && (var o := Lex(w.c, line.text, Begin(i)); o.Break? ==> !JoinsNewline(w, line.truncated, o.s))
  }

  /** Nor on any of the lines. */
  predicate Smooth(w: Watch, namedCommands: bool, lines: seq<Line>, i: Input)
    decreases |lines|
  {
    lines != [] ==>
      && (IsCommandLine(w.c, namedCommands, lines[0], i) || SmoothLine(w, lines[0], i))
      && (var r := ReadLine(w.c, namedCommands, lines[0], i);
          r.quit || Smooth(w, namedCommands, lines[1..], r.input))
  }

  // What is asked of the client.

  predicate PlainRequest(w: Watch, r: Request) {
    r.UnknownCommand? || Quiet(Track(w, r.mode, r.text))
  }

  /** The last command of a log opens no quote and no comment: given a text without them, it leaves one. */
  predicate LeavesTidy(w: Watch, log: seq<Request>) {
    && LeavesClosed(w.c, log)
    && (log != [] && IsCommand(log[|log| - 1]) && PlainRequest(w, log[|log| - 1]) ==>
          var reply := w.c.handle(log);
          Quiet(Track(w, reply.mode, reply.buffer)))
  }

  /** Nor does any other command of the log. */
  predicate Tidy(w: Watch, log: seq<Request>) {
    forall n :: 0 <= n <= |log| ==> LeavesTidy(w, log[..n])
  }

  lemma TidyBefore(w: Watch, log: seq<Request>, all: seq<Request>)
    requires Tidy(w, all) && log <= all
    ensures Tidy(w, log) && LeavesTidy(w, log) && Orderly(w.c, log)
  {
    forall n | 0 <= n <= |log| ensures LeavesTidy(w, log[..n]) {
      assert log[..n] == all[..n];
    }
    assert log[..|log|] == log;
  }

  /** Commands that only clear the text, or leave it and the quoting rules alone, are tidy. */
  lemma GentleIsTidy(w: Watch, log: seq<Request>)
    requires forall n :: 0 <= n <= |log| ==> Gentle(w.c, log[..n])
    ensures Tidy(w, log)
  {
    GentleIsOrderly(w.c, log);
    forall n | 0 <= n <= |log| ensures LeavesTidy(w, log[..n]) {
      assert Gentle(w.c, log[..n]) && LeavesClosed(w.c, log[..n]);
      if n > 0 && IsCommand(log[n - 1]) && w.c.handle(log[..n]).buffer != "" {
        TrackDependsOnEscapes(w, w.c.handle(log[..n]).mode, log[n - 1].mode, log[n - 1].text);
      }
    }
  }

  /** No character of a mark counts as white space. */
  predicate Sane(c: Client) {
    !c.isSpace('*') && !c.isSpace('-') && !c.isSpace('\\') && !c.isSpace('!') && !c.isSpace('M')
  }

  // The invariant of the lexer.

  predicate Inked(c: Client, line: string, p: nat) {
    p < |line| && !c.isSpace(line[p])
  }

  /**
   An opening on its way is one for the server; and what was read of a mark on this
   stretch of the line goes on as no mark does.
   */
  predicate Expected(w: Watch, k: Opening, line: string, p: nat, pending: nat) {
    match k
    case Free => true
    case Slash => pending >= 1 && At(line, p) == '*' ==> Bang(line, p + 1)
    case Star => Bang(line, p)
    case StarM => At(line, p) == '!'
    case Dash => pending >= 1 && At(line, p) == '-' ==> Inked(w.c, line, p + 1)
    case Dashes =>
      && (pending >= 1 && At(line, p) == '-' ==> Inked(w.c, line, p + 1))
      && (pending >= 2 ==> Inked(w.c, line, p))
    case Opened => false
  }

  predicate Tame(w: Watch, k: Opening, line: string, s: State) {
    if s.mlComment || s.needSpace then Quiet(k) else Expected(w, k, line, s.pos, |s.tail|)
  }

  lemma NextExpected(w: Watch, k: Opening, line: string, s: State)
    requires s.pos < |line| && Expected(w, k, line, s.pos, |s.tail|)
    requires !OpensComment(line, s.pos) && !IsLineComment(w.c, line, s)
    requires k == Slash && s.tail == "" && line[s.pos] == '*' ==> Bang(line, s.pos + 1)
    requires k == Dashes && |s.tail| < 2 ==> !w.c.isSpace(line[s.pos])
    ensures Expected(w, NextOpening(w, k, line[s.pos]), line, s.pos + 1, |s.tail| + 1)
  {
  }

  predicate AllPlain(w: Watch, log: seq<Request>) {
    forall i :: 0 <= i < |log| ==> PlainRequest(w, log[i])
  }

  lemma AllPlainAppend(w: Watch, log: seq<Request>, r: Request)
    requires AllPlain(w, log) && PlainRequest(w, r)
    ensures AllPlain(w, log + [r])
  {
  }

  /** Where no `!` or `M` stands, or the line ends, no comment is on its way. */
  lemma QuietBefore(w: Watch, k: Opening, line: string, s: State)
    requires Tame(w, k, line, s) && At(line, s.pos) != '!' && At(line, s.pos) != 'M'
    ensures Quiet(k)
  {
  }

  ghost predicate Tracked(w: Watch, line: string, s: State) {
    AllPlain(w, s.log) && Tame(w, TextTrack(w, s), line, s)
  }

  ghost predicate Good(w: Watch, line: string, s: State) {
    Consistent(s) && Tracked(w, line, s)
  }

  ghost predicate TrackedOutcome(w: Watch, line: string, o: Outcome) {
    match o
    case Quit(s) => AllPlain(w, s.log)
    case Continue(s) => Tracked(w, line, s)
    case Break(s) => Tracked(w, line, s) && Quiet(TextTrack(w, s))
  }

  /** Where nothing is pending, a text that opens no comment can go on with any line. */
  lemma QuietTracks(w: Watch, line: string, s: State)
    requires s.tail == "" && Quiet(Track(w, s.mode, s.buffer)) && AllPlain(w, s.log)
    ensures Tracked(w, line, s)
  {
    assert s.Accepted() == s.buffer;
  }

  lemma CommandTracks(w: Watch, line: string, s: State, cmd: char)
    requires s.pos + 1 < |line| && s.tail == "" && line[s.pos] == '\\'
    requires Tracked(w, line, s) && LeavesTidy(w, StepCommand(w.c, line, s, cmd).s.log)
    ensures TrackedOutcome(w, line, StepCommand(w.c, line, s, cmd))
  {
    var r := ShortCommand(s.buffer, s.mode, cmd, line[s.pos..]);
    QuietBefore(w, TextTrack(w, s), line, s);
    assert s.Accepted() == s.buffer;
    AllPlainAppend(w, s.log, r);
    CommandState(w.c, line, s, cmd);
    QuietTracks(w, line, StepCommand(w.c, line, s, cmd).s);
  }

  lemma EscapedTracked(w: Watch, line: string, s: State, next: char)
    requires Good(w, line, s) && s.pos + 1 < |line| && line[s.pos] == '\\' && line[s.pos + 1] == next
    requires !s.mlComment && BackslashActive(s.mode, s.inString) && Sane(w.c)
    ensures Tracked(w, line, s.(tail := s.tail + ['\\', next], pos := s.pos + 2))
  {
    QuietBefore(w, TextTrack(w, s), line, s);
    EscapedTracks(w, s.mode, s.Accepted(), s.inString, next);
    Assoc(s.buffer, s.tail, ['\\', next]);
  }

  lemma UnknownTracks(w: Watch, line: string, s: State, next: char)
    requires Good(w, line, s) && s.pos + 1 < |line| && line[s.pos] == '\\' && line[s.pos + 1] == next
    requires !s.mlComment && BackslashActive(s.mode, s.inString) && Sane(w.c)
    ensures var log := s.log + [UnknownCommand(s.mode, next)];
            && AllPlain(w, log)
            && Tracked(w, line, s.(tail := s.tail + ['\\', next], pos := s.pos + 2, log := log))
  {
    AllPlainAppend(w, s.log, UnknownCommand(s.mode, next));
    EscapedTracked(w, line, s, next);
    var t := s.(tail := s.tail + ['\\', next], pos := s.pos + 2);
    assert t.(log := s.log + [UnknownCommand(s.mode, next)]).Accepted() == t.Accepted();
  }

  /** Flushing the pending text asks no more of the line. */
  lemma FlushTracks(w: Watch, line: string, s: State)
    requires Tracked(w, line, s)
    ensures Tracked(w, line, s.Flush()) && s.Flush().Accepted() == s.Accepted()
  {
    assert s.Flush().Accepted() == s.Accepted();
  }

  lemma LoneBackslashTracks(w: Watch, line: string, s: State)
    requires s.pos + 1 == |line| && line[s.pos] == '\\' && Tracked(w, line, s)
    ensures TrackedOutcome(w, line, StepBackslash(w.c, line, s))
  {
    QuietBefore(w, TextTrack(w, s), line, s);
  }

  lemma ShortCommandTracks(w: Watch, line: string, s: State)
    requires s.pos + 1 < |line| && line[s.pos] == '\\' && Tracked(w, line, s)
    requires LeavesTidy(w, StepCommand(w.c, line, s.Flush(), line[s.pos + 1]).s.log)
    ensures TrackedOutcome(w, line, StepCommand(w.c, line, s.Flush(), line[s.pos + 1]))
  {
    FlushTracks(w, line, s);
    CommandTracks(w, line, s.Flush(), line[s.pos + 1]);
  }

  /** What a backslash and a character behind it that is no command do. */
  lemma KeptBackslash(c: Client, line: string, s: State)
    requires s.pos + 1 < |line| && NUL !in line
    requires s.inString != NUL || line[s.pos + 1] == 'N' || !c.isShortCommand(line[s.pos + 1])
    ensures var next, o := line[s.pos + 1], StepBackslash(c, line, s);
            var kept := s.(tail := s.tail + ['\\', next], pos := s.pos + 2);
            var log := s.log + [UnknownCommand(s.mode, next)];
            o == Continue(kept) || o == Quit(s.(log := log)) || o == Continue(kept.(log := log))
  {
  }

  lemma KeptBackslashTracks(w: Watch, line: string, s: State)
    requires s.pos + 1 < |line| && NUL !in line && line[s.pos] == '\\' && Good(w, line, s)
    requires !s.mlComment && BackslashActive(s.mode, s.inString) && Sane(w.c)
    requires s.inString != NUL || line[s.pos + 1] == 'N' || !w.c.isShortCommand(line[s.pos + 1])
    ensures TrackedOutcome(w, line, StepBackslash(w.c, line, s))
  {
    var next := line[s.pos + 1];
    KeptBackslash(w.c, line, s);
    EscapedTracked(w, line, s, next);
    UnknownTracks(w, line, s, next);
  }

  lemma BackslashTracks(w: Watch, line: string, s: State)
    requires s.pos < |line| && NUL !in line && line[s.pos] == '\\'
    requires Good(w, line, s) && Sane(w.c) && LeavesTidy(w, StepBackslash(w.c, line, s).s.log)
    requires !s.mlComment && BackslashActive(s.mode, s.inString)
    ensures TrackedOutcome(w, line, StepBackslash(w.c, line, s))
  {
    if s.pos + 1 == |line| {
      LoneBackslashTracks(w, line, s);
    } else if s.inString != NUL || line[s.pos + 1] == 'N' || !w.c.isShortCommand(line[s.pos + 1]) {
      KeptBackslashTracks(w, line, s);
    } else {
      assert StepBackslash(w.c, line, s) == StepCommand(w.c, line, s.Flush(), line[s.pos + 1]);
      ShortCommandTracks(w, line, s);
    }
  }

  lemma DelimiterTracks(w: Watch, line: string, s: State)
    requires s.pos < |line| && StartsWith(line, s.pos, s.mode.delimiter)
    requires Tracked(w, line, s) && !Splits(w, line, s)
    ensures TrackedOutcome(w, line, StepDelimiter(w.c, s))
  {
    AllPlainAppend(w, s.log, Statement(s.Accepted(), s.mode));
    var o := StepDelimiter(w.c, s);
    if o.Continue? {
      QuietTracks(w, line, o.s);
    }
  }

  /** The character kept next, with the space owed before it, leaves no opening but for the server. */
  lemma CharTracks(w: Watch, line: string, s: State, added: string)
    requires s.pos < |line| && Good(w, line, s) && !s.mlComment && Sane(w.c)
    requires s.inString == NUL ==> Keeps(w.c, line, s) && !Joins(w, line, s)
    requires added == (if s.needSpace && !w.c.isSpace(line[s.pos]) then [' ', line[s.pos]] else [line[s.pos]])
    ensures Expected(w, Track(w, s.mode, s.Accepted() + added), line, s.pos + 1, |s.tail| + |added|)
  {
    var a, ch := s.Accepted(), line[s.pos];
    if s.inString != NUL {
      TrackShape(w, s.mode, a);
      QuotedTracks(w, s.mode, a, s.inString, ch, added);
    } else if added == [ch] {
      TrackAppend(w, s.mode, a, ch);
      NextExpected(w, TextTrack(w, s), line, s);
    } else {
      SpacedTracks(w, s.mode, a, ch);
      StartExpected(w, line, s);
    }
  }

  lemma StartExpected(w: Watch, line: string, s: State)
    requires s.pos < |line| && !OpensComment(line, s.pos) && !IsLineComment(w.c, line, s)
    ensures Expected(w, Start(w, line[s.pos]), line, s.pos + 1, |s.tail| + 2)
  {
  }

  lemma CharTracked(w: Watch, line: string, s: State)
    requires s.pos < |line| && Good(w, line, s) && Sane(w.c)
    requires s.inString == NUL && !s.mlComment ==> Keeps(w.c, line, s) && !Joins(w, line, s)
    ensures Tracked(w, line, StepChar(w.c, line, s))
  {
    var ch := line[s.pos];
    if !s.mlComment {
      var added := if s.needSpace && !w.c.isSpace(ch) then [' ', ch] else [ch];
      CharTracks(w, line, s, added);
      Assoc(s.buffer, s.tail, added);
    }
  }

  lemma TextTracks(w: Watch, line: string, s: State)
    requires s.pos < |line| && Good(w, line, s) && Sane(w.c) && !Joins(w, line, s)
    requires !(w.c.isSpace(line[s.pos]) && s.AtStatementStart())
    requires !s.mlComment && s.inString == NUL ==> line[s.pos] != '\\' && !StartsWith(line, s.pos, s.mode.delimiter)
    ensures TrackedOutcome(w, line, StepText(w.c, line, s))
  {
    FlushTracks(w, line, s);
    if !s.mlComment && s.inString == NUL && IsLineComment(w.c, line, s) {
      QuietBefore(w, TextTrack(w, s), line, s);
    } else if s.inString == NUL && OpensComment(line, s.pos) {
      QuietBefore(w, TextTrack(w, s), line, s);
    } else if s.mlComment && !s.ssComment && line[s.pos] == '*' && At(line, s.pos + 1) == '/' {
    } else {
      CharTracked(w, line, s);
    }
  }

  lemma StepTracks(w: Watch, line: string, s: State)
    requires s.pos < |line| && NUL !in line && !Joins(w, line, s)
    requires Good(w, line, s) && Sane(w.c) && LeavesTidy(w, Step(w.c, line, s).s.log)
    ensures TrackedOutcome(w, line, Step(w.c, line, s))
  {
    if w.c.isSpace(line[s.pos]) && s.AtStatementStart() {
      QuietTracks(w, line, s.(pos := s.pos + 1));
    } else if !s.mlComment && line[s.pos] == '\\' && BackslashActive(s.mode, s.inString) {
      BackslashTracks(w, line, s);
    } else if !s.mlComment && s.inString == NUL && StartsWith(line, s.pos, s.mode.delimiter) {
      DelimiterTracks(w, line, s);
    } else {
      TextTracks(w, line, s);
    }
  }

  /** A step of a tidy run that joins nothing keeps the invariant. */
  lemma StepGood(w: Watch, line: string, s: State)
    requires s.pos < |line| && NUL !in line && !Joins(w, line, s)
    requires Good(w, line, s) && Sane(w.c) && Tidy(w, Lex(w.c, line, s).s.log)
    ensures ConsistentOutcome(Step(w.c, line, s)) && TrackedOutcome(w, line, Step(w.c, line, s))
  {
    StepBefore(w.c, line, s);
    TidyBefore(w, Step(w.c, line, s).s.log, Lex(w.c, line, s).s.log);
    StepConsistent(w.c, line, s);
    StepTracks(w, line, s);
  }

  lemma {:induction false} LexGood(w: Watch, line: string, s: State)
    requires s.pos <= |line| && NUL !in line && SmoothLex(w, line, s)
    requires Good(w, line, s) && Sane(w.c) && Tidy(w, Lex(w.c, line, s).s.log)
    ensures ConsistentOutcome(Lex(w.c, line, s)) && TrackedOutcome(w, line, Lex(w.c, line, s))
    decreases |line| - s.pos
  {
    if s.pos == |line| {
      QuietBefore(w, TextTrack(w, s), line, s);
    } else {
      StepGood(w, line, s);
      StepAdvances(w.c, line, s);
      var o := Step(w.c, line, s);
      if o.Continue? {
        LexGood(w, line, o.s);
      }
    }
  }

  // From line to line.

  ghost predicate GoodInput(w: Watch, i: Input) {
    ConsistentInput(i) && AllPlain(w, i.log) && Quiet(Track(w, i.mode, i.buffer))
  }

  lemma BeginGood(w: Watch, line: string, i: Input)
    requires GoodInput(w, i)
    ensures Good(w, line, Begin(i))
  {
    assert Begin(i).Accepted() == i.buffer;
    QuietTracks(w, line, Begin(i));
  }

  lemma FinishTracks(w: Watch, truncated: bool, s: State)
    requires Quiet(TextTrack(w, s)) && !JoinsNewline(w, truncated, s) && (s.mlComment ==> s.tail == "")
    ensures var i := Finish(w.c, truncated, s); Quiet(Track(w, i.mode, i.buffer))
  {
    if s.AtStatementStart() || s.mlComment {
      assert s.Accepted() == s.buffer;
    } else if truncated || (IsDelimiterCommand(w.c, s.tail) && s.inString == NUL) {
    } else {
      NewlineTracks(w, s.mode, s.Accepted());
      Assoc(s.buffer, s.tail, ['\n']);
    }
  }

  lemma FinishGood(w: Watch, line: string, truncated: bool, s: State)
    requires Good(w, line, s) && Quiet(TextTrack(w, s)) && !JoinsNewline(w, truncated, s)
    ensures GoodInput(w, Finish(w.c, truncated, s))
  {
    FinishConsistent(w.c, truncated, s);
    FinishTracks(w, truncated, s);
  }

  lemma AddLineGood(w: Watch, line: Line, i: Input)
    requires NUL !in line.text && SmoothLine(w, line, i) && GoodInput(w, i) && Sane(w.c)
    requires Tidy(w, AddLine(w.c, line.text, line.truncated, i).input.log)
    ensures var r := AddLine(w.c, line.text, line.truncated, i);
            if r.quit then AllPlain(w, r.input.log) else GoodInput(w, r.input)
  {
    if line.text != "" || i.buffer != "" {
      BeginGood(w, line.text, i);
      LexGood(w, line.text, Begin(i));
      var o := Lex(w.c, line.text, Begin(i));
      if o.Break? {
        FinishGood(w, line.text, line.truncated, o.s);
      }
    }
  }

  lemma CommandLineGood(w: Watch, namedCommands: bool, line: Line, i: Input)
    requires NUL !in line.text && IsCommandLine(w.c, namedCommands, line, i) && GoodInput(w, i)
    requires Tidy(w, ReadLine(w.c, namedCommands, line, i).input.log)
    ensures GoodInput(w, ReadLine(w.c, namedCommands, line, i).input)
  {
    var log := i.log + [LineCommand(i.buffer, i.mode, line.text)];
    TidyBefore(w, log, log);
    AllPlainAppend(w, i.log, LineCommand(i.buffer, i.mode, line.text));
    AllClosedAppend(i.log, LineCommand(i.buffer, i.mode, line.text));
  }

  lemma ReadLineGood(w: Watch, namedCommands: bool, line: Line, i: Input)
    requires NUL !in line.text && (IsCommandLine(w.c, namedCommands, line, i) || SmoothLine(w, line, i))
    requires GoodInput(w, i) && Sane(w.c) && Tidy(w, ReadLine(w.c, namedCommands, line, i).input.log)
    ensures var r := ReadLine(w.c, namedCommands, line, i);
            if r.quit then AllPlain(w, r.input.log) else GoodInput(w, r.input)
  {
    if IsCommandLine(w.c, namedCommands, line, i) {
      CommandLineGood(w, namedCommands, line, i);
    } else {
      AddLineGood(w, line, i);
    }
  }

  lemma {:induction false} ReadGood(w: Watch, namedCommands: bool, lines: seq<Line>, i: Input)
    requires forall k :: 0 <= k < |lines| ==> NUL !in lines[k].text
    requires Smooth(w, namedCommands, lines, i) && GoodInput(w, i) && Sane(w.c)
    requires Tidy(w, Read(w.c, namedCommands, lines, i).input.log)
    ensures var r := Read(w.c, namedCommands, lines, i);
            if r.quit then AllPlain(w, r.input.log) else GoodInput(w, r.input)
  {
    if lines == [] {
    } else {
      var r := ReadLine(w.c, namedCommands, lines[0], i);
      ReadBefore(w.c, namedCommands, lines, i);
      TidyBefore(w, r.input.log, Read(w.c, namedCommands, lines, i).input.log);
      ReadLineGood(w, namedCommands, lines[0], i);
      if !r.quit {
        ReadGood(w, namedCommands, lines[1..], r.input);
      }
    }
  }

  /** From a fresh start. */
  function Run(c: Client, namedCommands: bool, lines: seq<Line>, mode: Mode): LineResult {
    Read(c, namedCommands, lines, Fresh(mode))
  }

  /**
   Over any lines from a fresh start, cut short or not: if no mark is put together
   on the way, no text handed to a command or to the server opens, anywhere
   outside its quotes, a comment that the server would ignore.
   */
  lemma NoCommentIsHandedOver(w: Watch, namedCommands: bool, lines: seq<Line>, mode: Mode, n: nat)
    requires forall k :: 0 <= k < |lines| ==> NUL !in lines[k].text
    requires Smooth(w, namedCommands, lines, Fresh(mode)) && Sane(w.c)
    requires Tidy(w, Run(w.c, namedCommands, lines, mode).input.log)
    ensures var log := Run(w.c, namedCommands, lines, mode).input.log;
            n < |log| && !log[n].UnknownCommand? ==> Bare(w, log[n].mode, log[n].text)
  {
    ReadGood(w, namedCommands, lines, Fresh(mode));
    var log := Run(w.c, namedCommands, lines, mode).input.log;
    if n < |log| && !log[n].UnknownCommand? {
      assert PlainRequest(w, log[n]);
      QuietIffBare(w, log[n].mode, log[n].text);
    }
  }
}
