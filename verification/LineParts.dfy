/**
 The whole of a line: any number of statements and commands, one after another.

 `After` says what one part of a line does: text that a delimiter ends, text that a
 command interrupts, and text with a backslash that is kept. Behind each of them
 reading goes on where the part ends, with the text, the mode and the requests that
 it leaves. The lemmas show that lexing a line of parts is going from part to part.
 */
module LineParts {
  import opened Basics
  import opened LineLexer
  import opened StatementText
  import opened StatementMeaning

  // Parts of a line.

  datatype Part =
    | Ended(text: seq<Segment>)
    | Called(text: seq<Segment>, cmd: char)
    | Missed(text: seq<Segment>, cmd: char)
    | Null(text: seq<Segment>)

  /** How far a line has been read, and what there is then. */
  datatype Reading = Reading(pos: nat, a: Collected, mode: Mode, log: seq<Request>)

  /** The text of a part, read. */
  function TextRead(c: Client, r: Reading, gs: seq<Segment>): Reading {
    r.(pos := r.pos + |Render(gs)|, a := CollectAll(c, r.a, gs))
  }

  /** Where reading goes on behind a command. */
  function BehindCommand(c: Client, line: string, k: nat, cmd: char, server: bool, d: Delimiter): nat {
    if !c.takesParams(cmd) || k > |line| then k
    else if server then SkipComment(line, k)
    else SkipParams(line, k, d)
  }

  function From(line: string, k: nat): string {
    if k <= |line| then line[k..] else ""
  }

  /** What ends the text of a part. */
  function PartEnd(c: Client, line: string, r: Reading, part: Part): Reading {
    match part
    case Ended(_) =>
      var log := r.log + [Statement(r.a.text, r.mode)];
      Reading(r.pos + |r.mode.delimiter|, r.a.(text := ""), c.handle(log).mode, log)
    case Called(_, cmd) =>
      var log := r.log + [ShortCommand(r.a.text, r.mode, cmd, From(line, r.pos))];
      var reply := c.handle(log);
      Reading(BehindCommand(c, line, r.pos + 2, cmd, r.a.server, reply.mode.delimiter),
              r.a.(text := reply.buffer), reply.mode, log)
    case Missed(_, cmd) =>
      r.(pos := r.pos + 2, a := r.a.(text := r.a.text + ['\\', cmd]), log := r.log + [UnknownCommand(r.mode, cmd)])
    case Null(_) =>
      r.(pos := r.pos + 2, a := r.a.(text := r.a.text + "\\N"))
  }

  /** A backslash stands at the place, with this character behind it. */
  predicate BackslashAt(c: Client, line: string, r: Reading, ch: char) {
    && r.pos + 1 < |line| && line[r.pos] == '\\' && line[r.pos + 1] == ch && ch != NUL
    && (c.isSpace('\\') ==> r.a.text != "")
  }

  /** What stands behind the text of a part is its end, and the client does not quit there. */
  predicate EndStands(c: Client, line: string, r: Reading, part: Part) {
    match part
    case Ended(_) =>
      && r.pos < |line| && line[r.pos] != '\\' && StartsWith(line, r.pos, r.mode.delimiter)
      && (c.isSpace(line[r.pos]) ==> r.a.text != "")
      && !c.handle(r.log + [Statement(r.a.text, r.mode)]).quit
    case Called(_, cmd) =>
      && BackslashAt(c, line, r, cmd) && cmd != 'N' && c.isShortCommand(cmd)
      && !c.handle(r.log + [ShortCommand(r.a.text, r.mode, cmd, From(line, r.pos))]).quit
    case Missed(_, cmd) =>
      && BackslashAt(c, line, r, cmd) && cmd != 'N' && !c.isShortCommand(cmd)
      && !c.handle(r.log + [UnknownCommand(r.mode, cmd)]).quit
    case Null(_) => BackslashAt(c, line, r, 'N')
  }

  predicate TextStands(c: Client, line: string, r: Reading, gs: seq<Segment>) {
    r.pos <= |line| && StartsWith(line, r.pos, Render(gs)) && FitAll(c, r.mode, line, r.pos, r.a, gs)
  }

  predicate Stands(c: Client, line: string, r: Reading, part: Part) {
    TextStands(c, line, r, part.text) && EndStands(c, line, TextRead(c, r, part.text), part)
  }

  function After(c: Client, line: string, r: Reading, part: Part): Reading {
    PartEnd(c, line, TextRead(c, r, part.text), part)
  }

  // The lexer goes from part to part.

  /** The lexer is where the reading says. */
  predicate IsAt(s: State, r: Reading) {
    Outside(s) && s.pos == r.pos && Now(s) == r.a && s.mode == r.mode && s.log == r.log
  }

  ghost predicate Goes(c: Client, line: string, s: State, t: State, r: Reading) {
    s.pos <= |line| && t.pos <= |line| && Lex(c, line, s) == Lex(c, line, t) && IsAt(t, r)
  }

  lemma OneStep(c: Client, line: string, s: State, t: State)
    requires s.pos < |line| && Step(c, line, s) == Continue(t)
    ensures t.pos <= |line| && Lex(c, line, s) == Lex(c, line, t)
  {
    StepAdvances(c, line, s);
  }

  lemma TextGoes(c: Client, line: string, s: State, r: Reading, gs: seq<Segment>) returns (t: State)
    requires IsAt(s, r) && TextStands(c, line, r, gs)
    ensures Goes(c, line, s, t, TextRead(c, r, gs))
  {
    t := SegmentsStep(c, line, s, gs);
  }

  lemma EndedGoes(c: Client, line: string, s: State, r: Reading, part: Part) returns (t: State)
    requires IsAt(s, r) && part.Ended? && EndStands(c, line, r, part)
    ensures Goes(c, line, s, t, PartEnd(c, line, r, part))
  {
    assert s.AtStatementStart() ==> s.Accepted() == "";
    assert Step(c, line, s) == StepDelimiter(c, s);
    t := StepDelimiter(c, s).s;
    OneStep(c, line, s, t);
  }

  lemma CalledGoes(c: Client, line: string, s: State, r: Reading, part: Part) returns (t: State)
    requires IsAt(s, r) && part.Called? && EndStands(c, line, r, part)
    ensures Goes(c, line, s, t, PartEnd(c, line, r, part))
  {
    assert s.AtStatementStart() ==> s.Accepted() == "";
    assert Step(c, line, s) == StepCommand(c, line, s.Flush(), part.cmd);
    t := StepCommand(c, line, s.Flush(), part.cmd).s;
    OneStep(c, line, s, t);
    assert t.Accepted() == t.buffer;
  }

  lemma KeptGoes(c: Client, line: string, s: State, r: Reading, part: Part) returns (t: State)
    requires IsAt(s, r) && (part.Missed? || part.Null?) && EndStands(c, line, r, part)
    ensures Goes(c, line, s, t, PartEnd(c, line, r, part))
  {
    assert s.AtStatementStart() ==> s.Accepted() == "";
    assert Step(c, line, s) == StepBackslash(c, line, s);
    t := StepBackslash(c, line, s).s;
    OneStep(c, line, s, t);
    Assoc(s.buffer, s.tail, ['\\', line[s.pos + 1]]);
  }

  lemma EndGoes(c: Client, line: string, s: State, r: Reading, part: Part) returns (t: State)
    requires IsAt(s, r) && EndStands(c, line, r, part)
    ensures Goes(c, line, s, t, PartEnd(c, line, r, part))
  {
    if part.Ended? {
      t := EndedGoes(c, line, s, r, part);
    } else if part.Called? {
      t := CalledGoes(c, line, s, r, part);
    } else {
      t := KeptGoes(c, line, s, r, part);
    }
  }

  lemma PartGoes(c: Client, line: string, s: State, r: Reading, part: Part) returns (t: State)
    requires IsAt(s, r) && Stands(c, line, r, part)
    ensures Goes(c, line, s, t, After(c, line, r, part))
  {
    var u := TextGoes(c, line, s, r, part.text);
    t := EndGoes(c, line, u, TextRead(c, r, part.text), part);
  }

  function AfterAll(c: Client, line: string, r: Reading, parts: seq<Part>): Reading {
    if parts == [] then r else After(c, line, AfterAll(c, line, r, parts[..|parts| - 1]), parts[|parts| - 1])
  }

  predicate StandsAt(c: Client, line: string, r: Reading, parts: seq<Part>, k: nat)
    requires k < |parts|
  {
    Stands(c, line, AfterAll(c, line, r, parts[..k]), parts[k])
  }

  predicate StandAll(c: Client, line: string, r: Reading, parts: seq<Part>) {
    forall k :: 0 <= k < |parts| ==> StandsAt(c, line, r, parts, k)
  }

  lemma NextPart(c: Client, line: string, s: State, r: Reading, parts: seq<Part>, k: nat, q: Reading)
    returns (t: State, after: Reading)
    requires k < |parts| && StandAll(c, line, r, parts) && q == AfterAll(c, line, r, parts[..k]) && IsAt(s, q)
    ensures after == AfterAll(c, line, r, parts[..k + 1]) && Goes(c, line, s, t, after)
  {
    assert StandsAt(c, line, r, parts, k) && parts[..k + 1][..k] == parts[..k];
    t := PartGoes(c, line, s, q, parts[k]);
    after := After(c, line, q, parts[k]);
  }

  /** Behind the first `n` parts the lexer is where they lead. */
  lemma {:induction false} PartsGo(c: Client, line: string, s: State, r: Reading, parts: seq<Part>, n: nat)
    returns (t: State, after: Reading)
    requires n <= |parts| && s.pos <= |line| && IsAt(s, r) && StandAll(c, line, r, parts)
    ensures after == AfterAll(c, line, r, parts[..n]) && Goes(c, line, s, t, after)
    decreases n
  {
    if n == 0 {
      t, after := s, r;
    } else {
      var u, q := PartsGo(c, line, s, r, parts, n - 1);
      t, after := NextPart(c, line, u, r, parts, n - 1, q);
    }
  }

  // How a line starts and ends.

  /** A line starts outside quotes and comments, or goes on with those open. */
  datatype Start = Outright | FromQuote(body: string) | FromComment(body: string)

  predicate StartStands(c: Client, line: string, i: Input, start: Start) {
    match start
    case Outright => i.inString == NUL && !i.mlComment
    case FromQuote(body) =>
      && IsQuote(i.inString) && !i.mlComment && i.buffer != ""
      && Body(i.mode, i.inString, body) && StartsWith(line, 0, body + [i.inString])
    case FromComment(body) =>
      && i.inString == NUL && i.mlComment && !c.isSpace('*')
      && CommentBodyText(body) && StartsWith(line, 0, body + "*/")
  }

  function Started(i: Input, start: Start): Reading {
    match start
    case Outright => Reading(0, Given(i), i.mode, i.log)
    case FromQuote(body) =>
      Reading(|body| + 1, Given(i).(text := i.buffer + body + [i.inString]), i.mode, i.log)
    case FromComment(body) => Reading(|body| + 2, Given(i).(owed := true), i.mode, i.log)
  }

  lemma QuoteStarts(c: Client, line: string, i: Input, body: string) returns (t: State)
    requires StartStands(c, line, i, FromQuote(body))
    ensures Goes(c, line, Begin(i), t, Started(i, FromQuote(body)))
  {
    var s := Begin(i);
    assert s.Accepted() == i.buffer;
    StartsWithTail(line, 0, body, [i.inString]);
    StartsWithAt(line, |body|, [i.inString], 0);
    var u := QuotedBody(c, line, s, i.inString, body);
    t := CloseQuote(c, line, u, i.inString);
  }

  lemma CommentStarts(c: Client, line: string, i: Input, body: string) returns (t: State)
    requires StartStands(c, line, i, FromComment(body))
    ensures Goes(c, line, Begin(i), t, Started(i, FromComment(body)))
  {
    assert Begin(i).Accepted() == i.buffer;
    t := CommentBody(c, line, Begin(i), body);
  }

  lemma Starts(c: Client, line: string, i: Input, start: Start) returns (t: State)
    requires StartStands(c, line, i, start)
    ensures Goes(c, line, Begin(i), t, Started(i, start))
  {
    match start {
      case Outright =>
        t := Begin(i);
        assert t.Accepted() == i.buffer;
      case FromQuote(body) => t := QuoteStarts(c, line, i, body);
      case FromComment(body) => t := CommentStarts(c, line, i, body);
    }
  }

  /** It ends behind its text, in a comment to the end of the line, at a last backslash, or inside quotes or a comment. */
  datatype Ending = LineEnd | Remark | LoneBackslash | InQuote(quote: char, body: string) | InComment(body: string)

  predicate EndingStands(c: Client, line: string, r: Reading, ending: Ending) {
    match ending
    case LineEnd => r.pos == |line|
    case Remark =>
      && r.pos < |line| && !StartsWith(line, r.pos, r.mode.delimiter)
      && (c.isSpace(line[r.pos]) ==> r.a.text != "")
      && (|| line[r.pos] == '#'
          || (&& r.pos + 1 < |line| && line[r.pos] == '-' && line[r.pos + 1] == '-'
              && (r.pos + 2 == |line| || c.isSpace(line[r.pos + 2]) || r.a.text == "")))
    case LoneBackslash =>
      r.pos + 1 == |line| && line[r.pos] == '\\' && (c.isSpace('\\') ==> r.a.text != "")
    case InQuote(q, body) =>
      && r.pos < |line| && line[r.pos..] == [q] + body && IsQuote(q) && !c.isSpace(q)
      && !StartsWith(line, r.pos, r.mode.delimiter) && Body(r.mode, q, body)
    case InComment(body) =>
      && r.pos < |line| && line[r.pos..] == "/*" + body && !c.isSpace('/')
      && !StartsWith(line, r.pos, r.mode.delimiter) && !Bang(body, 0) && NUL !in body
      && forall j :: 0 <= j < |body| ==> !EndsComment(body, j)
  }

  /** The newline is text, unless nothing is collected or a DELIMITER command ends the text. */
  predicate NewlineAdded(c: Client, text: string, buffer: string) {
    || buffer == text + "\n" || (text == "" && buffer == "")
    || (buffer == text && exists k :: 0 <= k <= |text| && IsDelimiterCommand(c, text[k..]))
  }

  /** What the line leaves for the next one. */
  predicate Leaves(c: Client, r: Reading, ending: Ending, i: Input) {
    && i.mode == r.mode && i.log == r.log
    && match ending
       case LineEnd => i.inString == NUL && !i.mlComment && NewlineAdded(c, r.a.text, i.buffer)
       case LoneBackslash => i.inString == NUL && !i.mlComment && NewlineAdded(c, r.a.text, i.buffer)
       case Remark => i.inString == NUL && !i.mlComment && i.buffer == if r.a.text == "" then "" else r.a.text + "\n"
       case InQuote(q, body) =>
         i.inString == q && !i.mlComment && i.buffer == CollectChar(c, r.a, q).text + body + "\n"
       case InComment(_) => i.inString == NUL && i.mlComment && i.buffer == r.a.text
  }

  lemma BareEnd(c: Client, line: string, s: State, r: Reading, ending: Ending)
    requires IsAt(s, r) && EndingStands(c, line, r, ending) && (ending.LineEnd? || ending.LoneBackslash?)
    ensures var o := Lex(c, line, s); o.Break? && Leaves(c, r, ending, Finish(c, false, o.s))
  {
    assert s.AtStatementStart() ==> s.Accepted() == "";
    assert Lex(c, line, s) == Break(s);
    NewlineBehind(c, s);
  }

  lemma RemarkEnd(c: Client, line: string, s: State, r: Reading)
    requires IsAt(s, r) && EndingStands(c, line, r, Remark)
    ensures var o := Lex(c, line, s); o.Break? && Leaves(c, r, Remark, Finish(c, false, o.s))
  {
    assert s.AtStatementStart() <==> s.Accepted() == "";
    assert IsLineComment(c, line, s);
    var t := s.Flush();
    assert Step(c, line, s) == Break(t);
    assert t.AtStatementStart() <==> s.Accepted() == "";
    assert "" + "\n" == "\n";
  }

  lemma QuoteEnd(c: Client, line: string, s: State, r: Reading, q: char, body: string)
    requires IsAt(s, r) && EndingStands(c, line, r, InQuote(q, body))
    ensures var o := Lex(c, line, s); o.Break? && Leaves(c, r, InQuote(q, body), Finish(c, false, o.s))
  {
    assert line[r.pos] == line[r.pos..][0] == q;
    assert line[r.pos + 1..] == line[r.pos..][1..] == body;
    assert StartsWith(line, r.pos + 1, body);
    var t := OpenQuote(c, line, s, q);
    var u := QuotedBody(c, line, t, q, body);
    assert Lex(c, line, u) == Break(u);
    Assoc(u.buffer, u.tail, "\n");
    assert u.AtStatementStart() ==> u.Accepted() == "";
  }

  lemma OpenCommentBody(line: string, p: nat, body: string)
    requires p < |line| && line[p..] == "/*" + body && !Bang(body, 0) && forall j :: 0 <= j < |body| ==> !EndsComment(body, j)
    ensures p + 1 < |line| && OpensComment(line, p) && line[p + 2..] == body
    ensures forall j :: p + 2 <= j < |line| ==> !EndsComment(line, j)
  {
    var t := line[p..];
    assert t[0] == '/' && t[1] == '*' && t[2..] == body && line[p + 2..] == t[2..];
    assert line[p] == t[0] && line[p + 1] == t[1];
    assert forall j :: 0 <= j < |body| ==> body[j] == line[p + 2 + j];
    forall j | p + 2 <= j < |line| ensures !EndsComment(line, j) {
      assert !EndsComment(body, j - p - 2);
    }
  }

  lemma CommentEnds(c: Client, line: string, s: State, r: Reading, body: string)
    requires NUL !in line && IsAt(s, r) && EndingStands(c, line, r, InComment(body))
    ensures var o := Lex(c, line, s); o.Break? && Leaves(c, r, InComment(body), Finish(c, false, o.s))
  {
    OpenCommentBody(line, r.pos, body);
    var t := OpenComment(c, line, s);
    LexInComment(c, line, t);
  }

  lemma Ends(c: Client, line: string, s: State, r: Reading, ending: Ending)
    requires NUL !in line && IsAt(s, r) && EndingStands(c, line, r, ending)
    ensures var o := Lex(c, line, s); o.Break? && Leaves(c, r, ending, Finish(c, false, o.s))
  {
    match ending {
      case LineEnd => BareEnd(c, line, s, r, ending);
      case LoneBackslash => BareEnd(c, line, s, r, ending);
      case Remark => RemarkEnd(c, line, s, r);
      case InQuote(q, body) => QuoteEnd(c, line, s, r, q, body);
      case InComment(body) => CommentEnds(c, line, s, r, body);
    }
  }

  /** Where the last text of a line, behind its parts, leads. */
  function LastRead(c: Client, line: string, i: Input, start: Start, parts: seq<Part>, gs: seq<Segment>): Reading {
    TextRead(c, AfterAll(c, line, Started(i, start), parts), gs)
  }

  /** A whole line: its start, its parts, the text behind them and its end. */
  predicate IsLine(c: Client, line: string, i: Input, start: Start, parts: seq<Part>, gs: seq<Segment>, ending: Ending) {
    && StartStands(c, line, i, start) && StandAll(c, line, Started(i, start), parts)
    && TextStands(c, line, AfterAll(c, line, Started(i, start), parts), gs)
    && EndingStands(c, line, LastRead(c, line, i, start, parts, gs), ending)
  }

  lemma LexIsParts(c: Client, line: string, i: Input, start: Start, parts: seq<Part>, gs: seq<Segment>, ending: Ending)
    requires NUL !in line && IsLine(c, line, i, start, parts, gs, ending)
    ensures var o := Lex(c, line, Begin(i));
            o.Break? && Leaves(c, LastRead(c, line, i, start, parts, gs), ending, Finish(c, false, o.s))
  {
    assert parts[..|parts|] == parts;
    var s := Starts(c, line, i, start);
    var t, q := PartsGo(c, line, s, Started(i, start), parts, |parts|);
    var u := TextGoes(c, line, t, q, gs);
    Ends(c, line, u, TextRead(c, q, gs), ending);
  }

  /**
   A line of any number of statements and commands: it makes exactly their requests,
   in order, each with its own text and under the mode that the reply before it left,
   and leaves what stands behind the last of them.
   */
  lemma LineIsParts(c: Client, line: string, i: Input, start: Start, parts: seq<Part>, gs: seq<Segment>, ending: Ending)
    requires NUL !in line && IsLine(c, line, i, start, parts, gs, ending)
    ensures var r := AddLine(c, line, false, i);
            !r.quit && Leaves(c, LastRead(c, line, i, start, parts, gs), ending, r.input)
  {
    LexIsParts(c, line, i, start, parts, gs, ending);
    if line == "" && i.buffer == "" {
      var o := Lex(c, line, Begin(i));
      assert o == Break(Begin(i)) && Finish(c, false, o.s) == i;
    }
  }

  // Statements on one line.

  predicate AllEnded(parts: seq<Part>) {
    forall k :: 0 <= k < |parts| ==> parts[k].Ended?
  }

  function Sent(c: Client, r: Reading, gs: seq<Segment>): Request {
    Statement(CollectAll(c, r.a, gs).text, r.mode)
  }

  /** One statement for each part, with the text that its own segments stand for. */
  function Sents(c: Client, line: string, r: Reading, parts: seq<Part>): (log: seq<Request>)
    ensures |log| == |parts|
  {
    if parts == [] then []
    else
      var n := |parts| - 1;
      Sents(c, line, r, parts[..n]) + [Sent(c, AfterAll(c, line, r, parts[..n]), parts[n].text)]
  }

  /** Every statement of the line is sent, once and in order. */
  lemma {:induction false} StatementsAreSent(c: Client, line: string, r: Reading, parts: seq<Part>)
    requires AllEnded(parts)
    ensures AfterAll(c, line, r, parts).log == r.log + Sents(c, line, r, parts)
  {
    if parts == [] {
      assert r.log + [] == r.log;
    } else {
      var n := |parts| - 1;
      StatementsAreSent(c, line, r, parts[..n]);
      Assoc(r.log, Sents(c, line, r, parts[..n]), [Sent(c, AfterAll(c, line, r, parts[..n]), parts[n].text)]);
    }
  }

  /** Behind a statement the next one starts without text, under the mode that the reply left. */
  lemma LastSent(c: Client, line: string, r: Reading, parts: seq<Part>)
    requires |parts| > 1 && AllEnded(parts)
    ensures var q := AfterAll(c, line, r, parts[..|parts| - 1]);
            q.a.text == "" && q.mode == c.handle(q.log).mode
  {
    var before := parts[..|parts| - 1];
    assert before[|before| - 1].Ended?;
  }

  /** A line of parts and nothing behind them makes the requests of its parts. */
  lemma LogOfParts(c: Client, line: string, i: Input, parts: seq<Part>)
    requires i.inString == NUL && !i.mlComment && NUL !in line && StandAll(c, line, Started(i, Outright), parts)
    requires AfterAll(c, line, Started(i, Outright), parts).pos == |line|
    ensures AddLine(c, line, false, i).input.log == AfterAll(c, line, Started(i, Outright), parts).log
  {
    LastTextIsEmpty(c, line, Started(i, Outright), parts);
    LineIsParts(c, line, i, Outright, parts, [], LineEnd);
  }

  lemma OneEnded(c: Client, line: string, r: Reading, gs: seq<Segment>)
    ensures var q := AfterAll(c, line, r, [Ended(gs)]);
            && q.log == r.log + [Sent(c, r, gs)] && q.mode == c.handle(q.log).mode
            && q.a == CollectAll(c, r.a, gs).(text := "")
  {
    assert [Ended(gs)][..0] == [];
  }

  lemma TwoEnded(c: Client, line: string, r: Reading, gs: seq<Segment>, hs: seq<Segment>)
    ensures var q := AfterAll(c, line, r, [Ended(gs)]);
            AfterAll(c, line, r, [Ended(gs), Ended(hs)]).log == q.log + [Sent(c, q, hs)]
  {
    assert [Ended(gs), Ended(hs)][..1] == [Ended(gs)];
  }

  /** A line of any number of statements sends exactly these. */
  lemma LineOfStatements(c: Client, line: string, i: Input, parts: seq<Part>)
    requires i.inString == NUL && !i.mlComment && NUL !in line && StandAll(c, line, Started(i, Outright), parts)
    requires AllEnded(parts) && AfterAll(c, line, Started(i, Outright), parts).pos == |line|
    ensures AddLine(c, line, false, i).input.log == i.log + Sents(c, line, Started(i, Outright), parts)
  {
    LogOfParts(c, line, i, parts);
    StatementsAreSent(c, line, Started(i, Outright), parts);
  }

  /** Two statements on a line: both are sent, the second behind the whole of the first delimiter. */
  lemma TwoStatementsAreSent(c: Client, i: Input, gs: seq<Segment>, hs: seq<Segment>, line: string)
    requires i.inString == NUL && !i.mlComment && NUL !in line
    requires StandAll(c, line, Started(i, Outright), [Ended(gs), Ended(hs)])
    requires AfterAll(c, line, Started(i, Outright), [Ended(gs), Ended(hs)]).pos == |line|
    ensures var a := CollectAll(c, Given(i), gs);
            var first := Statement(a.text, i.mode);
            var second := Statement(CollectAll(c, a.(text := ""), hs).text, c.handle(i.log + [first]).mode);
            AddLine(c, line, false, i).input.log == i.log + [first] + [second]
  {
    LogOfParts(c, line, i, [Ended(gs), Ended(hs)]);
    OneEnded(c, line, Started(i, Outright), gs);
    TwoEnded(c, line, Started(i, Outright), gs, hs);
  }

  lemma LastTextIsEmpty(c: Client, line: string, r: Reading, parts: seq<Part>)
    requires AfterAll(c, line, r, parts).pos == |line|
    ensures var q := AfterAll(c, line, r, parts); TextStands(c, line, q, []) && TextRead(c, q, []) == q
  {
    assert line[|line|..|line|] == "";
  }

  // Backslashes inside quotes.

  /** A backslash keeps the quote behind it from ending a string, but not in backticks, and as the mode says. */
  lemma BackslashKeepsQuoteOpen(c: Client, mode: Mode, q: char)
    requires (q == '\'' || q == '"' || q == '`') && !c.isSpace(q) && mode.delimiter[0] != q
    ensures AddLine(c, [q, '\\', q], false, Fresh(mode)).input.inString ==
            if !mode.noBackslashEscapes && (q == '\'' || (q == '"' && !mode.ansiQuotes)) then q else NUL
  {
    var line, s := [q, '\\', q], Begin(Fresh(mode));
    NotDelimiter(line, 0, mode.delimiter);
    var t := Step(c, line, s).s;
    OneStep(c, line, s, t);
    var u := Step(c, line, t).s;
    OneStep(c, line, t, u);
    if u.pos < 3 {
      OneStep(c, line, u, Step(c, line, u).s);
    }
  }

  // Lines that are commands.

  /**
   A line goes to a command as a whole exactly outside quotes and comments, and, but
   for named commands, where no statement is begun; all other lines are statement text.
   */
  lemma CommandLineIff(c: Client, namedCommands: bool, line: Line, i: Input)
    ensures if i.inString == NUL && !i.mlComment && (i.buffer == "" || namedCommands) && c.isLineCommand(line.text, i.mode)
            then
              var log := i.log + [LineCommand(i.buffer, i.mode, line.text)];
              var reply := c.handle(log);
              ReadLine(c, namedCommands, line, i) == LineResult(Input(reply.buffer, NUL, false, reply.mode, log), reply.quit)
            else ReadLine(c, namedCommands, line, i) == AddLine(c, line.text, line.truncated, i)
  {
  }
}
