/**
 The statement lexer of the interactive client, as an append-only automaton.

 The client reads one line at a time. `AddLine` says what a line does to the
 input state that survives from line to line: the statement collected so far,
 the quote that is open, and whether a comment is open. The automaton only ever
 appends to the text it has accepted; LineReader.dfy shows that the client's
 in-place editing of the line computes exactly this.

 Everything outside the lexer (client commands, the server) is a `Client`: a
 total function from the requests made so far to a reply. It may answer
 anything, so every statement below holds for every client and every server.
 */
module LineLexer {
  import opened Basics

  type Delimiter = s: string | 0 < |s| && NUL !in s witness ";"

  /** What the lexer consults and a reply may change. */
  datatype Mode = Mode(delimiter: Delimiter, ansiQuotes: bool, noBackslashEscapes: bool)

  /** One call out of the lexer, with the mode it was made under. */
  datatype Request =
    | Statement(text: string, mode: Mode)
    | ShortCommand(text: string, mode: Mode, cmd: char, rest: string)
    | LineCommand(text: string, mode: Mode, line: string)
    | UnknownCommand(mode: Mode, cmd: char)

  datatype Reply = Reply(mode: Mode, buffer: string, quit: bool)

  datatype Client = Client(
    isSpace: char -> bool,
    isDelimiterName: string -> bool,
    isShortCommand: char -> bool,
    takesParams: char -> bool,
    isLineCommand: (string, Mode) -> bool,
    handle: seq<Request> -> Reply)

  /** What survives from one line to the next. */
  datatype Input = Input(
    buffer: string,
    inString: char,
    mlComment: bool,
    mode: Mode,
    log: seq<Request>)

  /** The automaton inside one line; `tail` is the text accepted since the last flush. */
  datatype State = State(
    pos: nat,
    buffer: string,
    tail: string,
    inString: char,
    mlComment: bool,
    ssComment: bool,
    needSpace: bool,
    mode: Mode,
    log: seq<Request>)
  {
    function Accepted(): string {
      buffer + tail
    }

    predicate AtStatementStart() {
      tail == "" && buffer == ""
    }

    function Flush(): State {
      this.(buffer := buffer + tail, tail := "")
    }
  }

  datatype Outcome = Continue(s: State) | Break(s: State) | Quit(s: State)

  datatype LineResult = LineResult(input: Input, quit: bool)

  /** Reading a C string: the terminator answers for every place past the end. */
  function At(line: string, i: nat): char {
    if i < |line| then line[i] else NUL
  }

  /** Whether a backslash is special while quote `q` is open (NUL: no quote). */
  predicate BackslashActive(mode: Mode, q: char) {
    && q != '`'
    && !(q == '"' && mode.ansiQuotes)
    && !(q != NUL && mode.noBackslashEscapes)
  }

  /** The place after the first delimiter at or behind `k`, or the end of the line. */
  function SkipParams(line: string, k: nat, d: Delimiter): (r: nat)
    requires k <= |line|
    ensures k <= r <= |line|
    decreases |line| - k
  {
    if k == |line| then k
    else if StartsWith(line, k, d) then k + |d|
    else SkipParams(line, k + 1, d)
  }

  /** The first end-of-comment mark at or behind `k`, or the end of the line. */
  function SkipComment(line: string, k: nat): (r: nat)
    requires k <= |line|
    ensures k <= r <= |line|
    decreases |line| - k
  {
    if k == |line| then k
    else if line[k] == '*' && At(line, k + 1) == '/' then k
    else SkipComment(line, k + 1)
  }

  lemma NotDelimiter(line: string, i: nat, d: Delimiter)
    requires i < |line| && line[i] != d[0]
    ensures !StartsWith(line, i, d)
  {
    assert i + |d| <= |line| ==> line[i..i + |d|][0] == line[i];
  }

  predicate IsLineComment(c: Client, line: string, s: State)
    requires s.pos < |line|
  {
    || line[s.pos] == '#'
    || (&& line[s.pos] == '-' && At(line, s.pos + 1) == '-'
        && (|| c.isSpace(At(line, s.pos + 2)) || At(line, s.pos + 2) == NUL
            || s.AtStatementStart()))
  }

  /** What makes a comment one for the server: `!` or `M!` behind its slash and star. */
  predicate Bang(line: string, i: nat) {
    At(line, i) == '!' || (At(line, i) == 'M' && At(line, i + 1) == '!')
  }

  /** An opening of a comment that is not executable on the server. */
  predicate OpensComment(line: string, i: nat)
    requires i < |line|
  {
    line[i] == '/' && At(line, i + 1) == '*' && !Bang(line, i + 2)
  }

  function StepBackslash(c: Client, line: string, s: State): Outcome
    requires s.pos < |line|
  {
    var next := At(line, s.pos + 1);
    if next == NUL then
      Break(s)
    else if s.inString != NUL || next == 'N' then
      Continue(s.(tail := s.tail + ['\\', next], pos := s.pos + 2))
    else if c.isShortCommand(next) then
      StepCommand(c, line, s.Flush(), next)
    else
      var log := s.log + [UnknownCommand(s.mode, next)];
      if c.handle(log).quit then
        Quit(s.(log := log))
      else
        Continue(s.(tail := s.tail + ['\\', next], pos := s.pos + 2, log := log))
  }

  function StepCommand(c: Client, line: string, s: State, cmd: char): Outcome
    requires s.pos + 1 < |line|
  {
    var log := s.log + [ShortCommand(s.buffer, s.mode, cmd, line[s.pos..])];
    var reply := c.handle(log);
    var s1 := s.(buffer := reply.buffer, mode := reply.mode, log := log);
    if reply.quit then
      Quit(s1)
    else if !c.takesParams(cmd) then
      Continue(s1.(pos := s.pos + 2))
    else if s.ssComment then
      Continue(s1.(pos := SkipComment(line, s.pos + 2)))
    else
      Continue(s1.(pos := SkipParams(line, s.pos + 2, reply.mode.delimiter)))
  }

  function StepDelimiter(c: Client, s: State): Outcome {
    var log := s.log + [Statement(s.Accepted(), s.mode)];
    var reply := c.handle(log);
    var s1 := s.(mode := reply.mode, log := log, tail := "");
    if reply.quit then
      Quit(s1.(buffer := reply.buffer))
    else
      Continue(s1.(buffer := "", pos := s.pos + |s.mode.delimiter|))
  }

  /** What an ordinary character does to the server-comment flag. */
  function NextSsComment(line: string, s: State): bool
    requires s.pos < |line|
  {
    if s.inString == NUL && line[s.pos] == '/' && At(line, s.pos + 1) == '*' && At(line, s.pos + 2) == '!' then
      true
    else if s.inString == NUL && s.ssComment && line[s.pos] == '*' && At(line, s.pos + 1) == '/' then
      false
    else
      s.ssComment
  }

  function NextInString(ch: char, s: State): char {
    if ch == s.inString then NUL
    else if !s.mlComment && s.inString == NUL && IsQuote(ch) then ch
    else s.inString
  }

  function StepChar(c: Client, line: string, s: State): State
    requires s.pos < |line|
  {
    var ch := line[s.pos];
    var s1 := s.(ssComment := NextSsComment(line, s), inString := NextInString(ch, s), pos := s.pos + 1);
    if s.mlComment then s1
    else s1.(tail := s.tail + (if s.needSpace && !c.isSpace(ch) then [' ', ch] else [ch]), needSpace := false)
  }

  /** Comments and ordinary characters. */
  function StepText(c: Client, line: string, s: State): Outcome
    requires s.pos < |line|
  {
    if !s.mlComment && s.inString == NUL && IsLineComment(c, line, s) then
      Break(s.Flush())
    else if s.inString == NUL && OpensComment(line, s.pos) then
      Continue(s.Flush().(pos := s.pos + 2, mlComment := true))
    else if s.mlComment && !s.ssComment && line[s.pos] == '*' && At(line, s.pos + 1) == '/' then
      Continue(s.Flush().(pos := s.pos + 2, mlComment := false, needSpace := true))
    else
      Continue(StepChar(c, line, s))
  }

  function Step(c: Client, line: string, s: State): Outcome
    requires s.pos < |line|
  {
    if c.isSpace(line[s.pos]) && s.AtStatementStart() then
      Continue(s.(pos := s.pos + 1))
    else if !s.mlComment && line[s.pos] == '\\' && BackslashActive(s.mode, s.inString) then
      StepBackslash(c, line, s)
    else if !s.mlComment && s.inString == NUL && StartsWith(line, s.pos, s.mode.delimiter) then
      StepDelimiter(c, s)
    else
      StepText(c, line, s)
  }

  /** Every step that goes on moves forward and stays inside the line. */
  lemma StepAdvances(c: Client, line: string, s: State)
    requires s.pos < |line|
    ensures var o := Step(c, line, s);
            o.Continue? ==> s.pos < o.s.pos <= |line|
  {
  }

  function Lex(c: Client, line: string, s: State): (r: Outcome)
    requires s.pos <= |line|
    ensures !r.Continue?
    decreases |line| - s.pos
  {
    if s.pos == |line| then Break(s)
    else
      StepAdvances(c, line, s);
      var o := Step(c, line, s);
      if o.Continue? then Lex(c, line, o.s) else o
  }

  function Begin(i: Input): State {
    State(0, i.buffer, "", i.inString, i.mlComment, false, false, i.mode, i.log)
  }

  function Fresh(mode: Mode): Input {
    Input("", NUL, false, mode, [])
  }

  predicate IsDelimiterCommand(c: Client, t: string) {
    |t| >= |"delimiter"| && c.isDelimiterName(t[..|"delimiter"|])
  }

  /** The end of a line: the newline is text unless a DELIMITER command or a comment is pending. */
  function Finish(c: Client, truncated: bool, s: State): Input {
    var newline := !truncated && (!IsDelimiterCommand(c, s.tail) || s.inString != NUL || s.mlComment);
    var text := if newline then s.tail + "\n" else s.tail;
    var buffer := if s.AtStatementStart() || s.mlComment then s.buffer else s.buffer + text;
    Input(buffer, s.inString, s.mlComment, s.mode, s.log)
  }

  function AddLine(c: Client, line: string, truncated: bool, i: Input): LineResult {
    if line == "" && i.buffer == "" then
      LineResult(i, false)
    else
      match Lex(c, line, Begin(i))
      case Quit(s) => LineResult(Input(s.buffer, s.inString, s.mlComment, s.mode, s.log), true)
      case Break(s) => LineResult(Finish(c, truncated, s), false)
  }
}
