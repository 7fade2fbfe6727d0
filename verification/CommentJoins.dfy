/**
 The ways in which the lexer does put together a comment mark that it never read:
 a delimiter that splits the opening of a server comment, a command or the dropped
 newline of a DELIMITER line inside a mark, and a comment or a line end right behind
 two dashes. Each is a statement about every client.
 */
module CommentJoins {
  import opened Basics
  import opened LineLexer
  import opened StatementText
  import opened StatementMeaning
  import opened ServerComments
  import opened CommentMarks
  import opened NeatLines

  lemma LexOn(c: Client, line: string, s: State, t: State)
    requires s.pos < |line| && Step(c, line, s) == Continue(t)
    ensures t.pos <= |line| && Lex(c, line, s) == Lex(c, line, t)
  {
    StepAdvances(c, line, s);
  }

  /** A character that is no mark of any kind where it stands is kept. */
  lemma KeepsChar(c: Client, line: string, s: State)
    requires s.pos < |line| && s.inString == NUL && !s.mlComment && !s.ssComment && !s.needSpace
    requires !c.isSpace(line[s.pos]) && line[s.pos] != '\\' && !IsQuote(line[s.pos]) && line[s.pos] != NUL
    requires line[s.pos] != s.mode.delimiter[0]
    requires !IsLineComment(c, line, s) && !OpensComment(line, s.pos)
    ensures Lex(c, line, s) == Lex(c, line, s.(pos := s.pos + 1, tail := s.tail + [line[s.pos]],
                                              ssComment := NextSsComment(line, s)))
  {
    NotDelimiter(line, s.pos, s.mode.delimiter);
    LexOn(c, line, s, s.(pos := s.pos + 1, tail := s.tail + [line[s.pos]], ssComment := NextSsComment(line, s)));
  }

  // A delimiter that splits an opening.

  lemma SlashStar(c: Client, line: string, mode: Mode)
    requires "/*" <= line && Bang(line, 2) && !c.isSpace('/') && !c.isSpace('*')
    requires mode.delimiter[0] != '/' && mode.delimiter[0] != '*'
    ensures Lex(c, line, State(0, "", "", NUL, false, false, false, mode, []))
            == Lex(c, line, State(2, "", "/*", NUL, false, At(line, 2) == '!', false, mode, []))
  {
    assert line[0] == '/' && line[1] == '*';
    SlashKept(c, line, mode);
    StarKept(c, line, State(1, "", "/", NUL, false, At(line, 2) == '!', false, mode, []));
  }

  lemma SlashKept(c: Client, line: string, mode: Mode)
    requires |line| > 1 && line[0] == '/' && line[1] == '*' && Bang(line, 2)
    requires !c.isSpace('/') && mode.delimiter[0] != '/'
    ensures Lex(c, line, State(0, "", "", NUL, false, false, false, mode, []))
            == Lex(c, line, State(1, "", "/", NUL, false, At(line, 2) == '!', false, mode, []))
  {
    var s := State(0, "", "", NUL, false, false, false, mode, []);
    assert s.tail + ['/'] == "/";
    KeepsChar(c, line, s);
  }

  lemma StarKept(c: Client, line: string, t: State)
    requires 1 == t.pos < |line| && line[1] == '*' && Bang(line, 2) && !c.isSpace('*') && t.mode.delimiter[0] != '*'
    requires t == State(1, "", "/", NUL, false, t.ssComment, false, t.mode, t.log)
    ensures Lex(c, line, t) == Lex(c, line, t.(pos := 2, tail := "/*"))
  {
    NotDelimiter(line, 1, t.mode.delimiter);
    assert t.tail + ['*'] == "/*";
    LexOn(c, line, t, t.(pos := 2, tail := "/*"));
  }

  /** The line that the delimiter splits. */
  function SplitLine(d: Delimiter): string {
    "/*" + (if d == "M" then "M!" else d)
  }

  lemma SplitLineIs(d: Delimiter)
    requires CanSplit(d)
    ensures var line := SplitLine(d);
            && "/*" <= line && Bang(line, 2) && StartsWith(line, 2, d) && line[2] == d[0]
            && d[0] != '/' && d[0] != '*' && d[0] != '\\'
  {
    assert SplitLine(d)[2..2 + |d|] == d;
  }

  /** Every delimiter that splits an opening lets a line send one: the condition on delimiters is exact. */
  lemma SplitOpeningIsSent(c: Client, mode: Mode)
    requires CanSplit(mode.delimiter) && !c.isSpace('/') && !c.isSpace('*')
    ensures var log := AddLine(c, SplitLine(mode.delimiter), false, Fresh(mode)).input.log;
            log != [] && log[0] == Statement("/*", mode)
    ensures BlockAt(mode, "/*", 0)
  {
    var line := SplitLine(mode.delimiter);
    SplitLineIs(mode.delimiter);
    SlashStar(c, line, mode);
    var t := State(2, "", "/*", NUL, false, At(line, 2) == '!', false, mode, []);
    assert t.Accepted() == "/*";
    SentFirst(c, line, t);
    SlashStarOpens(mode);
  }

  lemma SlashStarOpens(mode: Mode)
    ensures BlockAt(mode, "/*", 0)
  {
    assert "/*"[..0] == "";
  }

  // Simple text: no character of it starts anything.

  predicate SimpleAt(line: string, p: nat, d: Delimiter)
    requires p < |line|
  {
    && OrdinaryChar(line[p]) && line[p] != d[0] && !(line[p] == '-' && At(line, p + 1) == '-')
    && !(line[p] == '/' && At(line, p + 1) == '*') && !(line[p] == '*' && At(line, p + 1) == '/')
  }

  /** A text that is simple where `next` follows it. */
  predicate Simple(t: string, next: char, d: Delimiter) {
    forall j :: 0 <= j < |t| ==> SimpleAt(t + [next], j, d)
  }

  lemma {:induction false} SimpleFits(c: Client, d: Delimiter, line: string, p: nat, t: string, n: nat, a: Collected)
    requires n <= |t| && StartsWith(line, p, t) && Simple(t, At(line, p + |t|), d)
    ensures PlainFits(c, d, line, p + n, |t| - n, a)
    decreases |t| - n
  {
    if n == |t| {
    } else {
      assert SimpleAt(t + [At(line, p + |t|)], n, d);
      StartsWithAt(line, p, t, n);
      if n + 1 < |t| {
        StartsWithAt(line, p, t, n + 1);
      }
      NotDelimiter(line, p + n, d);
      SimpleFits(c, d, line, p, t, n + 1, CollectChar(c, a, line[p + n]));
    }
  }

  /** Simple text is read as it stands. */
  lemma ReadsSimple(c: Client, line: string, s: State, t: string) returns (u: State)
    requires StartsWith(line, s.pos, t) && Simple(t, At(line, s.pos + |t|), s.mode.delimiter) && t != ""
    requires Outside(s) && !s.needSpace && s.tail == "" && (s.buffer == "" ==> !c.isSpace(t[0]))
    ensures u == s.(pos := s.pos + |t|, tail := t) && Reads(c, line, s, u, |t|)
  {
    SimpleFits(c, s.mode.delimiter, line, s.pos, t, 0, Now(s));
    u := PlainStep(c, line, s, t);
    CollectSimple(c, Now(s), t);
    assert s.Accepted() == s.buffer && u.buffer + u.tail == s.buffer + t;
    assert u.tail == (u.buffer + u.tail)[|s.buffer|..] == t;
  }

  lemma CollectSimple(c: Client, a: Collected, t: string)
    requires t != "" && !a.owed && (a.text == "" ==> !c.isSpace(t[0]))
    ensures CollectPlain(c, a, t) == a.(text := a.text + t)
  {
    var b := a.(text := a.text + [t[0]]);
    assert CollectChar(c, a, t[0]) == b;
    CollectVerbatim(c, b, t[1..]);
    assert b.text + t[1..] == a.text + t;
  }

  /** ... and sent, if the delimiter follows. */
  lemma SendsSimple(c: Client, line: string, s: State, t: string)
    requires Outside(s) && !s.needSpace && s.tail == "" && s.buffer != "" && t != ""
    requires s.pos <= |line| && line[s.pos..] == t + s.mode.delimiter
    requires Simple(t, s.mode.delimiter[0], s.mode.delimiter) && s.mode.delimiter[0] != '\\'
    ensures s.log + [Statement(s.buffer + t, s.mode)] <= Lex(c, line, s).s.log
  {
    var d := s.mode.delimiter;
    assert line[s.pos..s.pos + |t|] == line[s.pos..][..|t|] == t;
    assert line[s.pos + |t|..s.pos + |t| + |d|] == line[s.pos..][|t|..] == d;
    assert line[s.pos + |t|] == line[s.pos..][|t|] == d[0];
    var u := ReadsSimple(c, line, s, t);
    SentFirst(c, line, u);
  }

  // A command inside a mark.

  lemma CommandLeaves(c: Client, line: string, s: State, cmd: char)
    requires s.pos + 1 < |line| && line[s.pos] == '\\' && line[s.pos + 1] == cmd && Outside(s) && !s.AtStatementStart()
    requires cmd != NUL && cmd != 'N' && c.isShortCommand(cmd) && !c.takesParams(cmd) && s.log == []
    requires c.handle([ShortCommand(s.Accepted(), s.mode, cmd, line[s.pos..])]) == Reply(s.mode, s.Accepted(), false)
    ensures var log := [ShortCommand(s.Accepted(), s.mode, cmd, line[s.pos..])];
            Lex(c, line, s) == Lex(c, line, s.(pos := s.pos + 2, buffer := s.Accepted(), tail := "", log := log))
  {
    var log := [ShortCommand(s.Accepted(), s.mode, cmd, line[s.pos..])];
    assert [] + log == log;
    LexOn(c, line, s, s.(pos := s.pos + 2, buffer := s.Accepted(), tail := "", log := log));
  }

  function CommandLine(a: string, cmd: char, b: string): string {
    a + (['\\', cmd] + b)
  }

  lemma CommandLineIs(a: string, cmd: char, b: string)
    ensures var line, n := CommandLine(a, cmd, b), |a|;
            && |line| == n + 2 + |b| && StartsWith(line, 0, a) && line[n] == '\\' && line[n + 1] == cmd
            && line[n..] == ['\\', cmd] + b && line[n + 2..] == b
  {
  }

  /** The state behind the command. */
  function Behind(mode: Mode, cmd: char, a: string, rest: string): State {
    State(|a| + 2, a, "", NUL, false, false, false, mode, [ShortCommand(a, mode, cmd, rest)])
  }

  lemma ReadsCommand(c: Client, line: string, mode: Mode, cmd: char, a: string)
    requires cmd != NUL && cmd != 'N' && c.isShortCommand(cmd) && !c.takesParams(cmd)
    requires |line| > |a| + 1 && StartsWith(line, 0, a) && line[|a|] == '\\' && line[|a| + 1] == cmd
    requires c.handle([ShortCommand(a, mode, cmd, line[|a|..])]) == Reply(mode, a, false)
    requires a != "" && !c.isSpace(a[0]) && Simple(a, '\\', mode.delimiter)
    ensures Lex(c, line, Begin(Fresh(mode))) == Lex(c, line, Behind(mode, cmd, a, line[|a|..]))
  {
    var t := ReadsSimple(c, line, Begin(Fresh(mode)), a);
    assert t.Accepted() == "" + a == a;
    CommandLeaves(c, line, t, cmd);
  }

  /** A command inside a text, if it leaves the text alone, lets what is behind it join what is before it. */
  lemma CommandJoins(c: Client, mode: Mode, cmd: char, a: string, b: string)
    requires cmd != NUL && cmd != 'N' && c.isShortCommand(cmd) && !c.takesParams(cmd)
    requires c.handle([ShortCommand(a, mode, cmd, ['\\', cmd] + (b + mode.delimiter))]) == Reply(mode, a, false)
    requires a != "" && b != "" && !c.isSpace(a[0]) && mode.delimiter[0] != '\\'
    requires Simple(a, '\\', mode.delimiter) && Simple(b, mode.delimiter[0], mode.delimiter)
    ensures var log := AddLine(c, CommandLine(a, cmd, b + mode.delimiter), false, Fresh(mode)).input.log;
            |log| > 1 && log[1] == Statement(a + b, mode)
  {
    var line := CommandLine(a, cmd, b + mode.delimiter);
    CommandLineIs(a, cmd, b + mode.delimiter);
    ReadsCommand(c, line, mode, cmd, a);
    SendsSimple(c, line, Behind(mode, cmd, a, line[|a|..]), b);
  }

  /** A slash and a star. */
  lemma CommandJoinsMark(c: Client, mode: Mode, cmd: char)
    requires cmd != NUL && cmd != 'N' && c.isShortCommand(cmd) && !c.takesParams(cmd)
    requires c.handle([ShortCommand("/", mode, cmd, ['\\', cmd] + ("*" + mode.delimiter))]) == Reply(mode, "/", false)
    requires mode.delimiter[0] != '/' && mode.delimiter[0] != '*' && mode.delimiter[0] != '\\' && !c.isSpace('/')
    ensures var log := AddLine(c, CommandLine("/", cmd, "*" + mode.delimiter), false, Fresh(mode)).input.log;
            |log| > 1 && log[1] == Statement("/*", mode)
    ensures BlockAt(mode, "/*", 0)
  {
    CommandJoins(c, mode, cmd, "/", "*");
    assert "/" + "*" == "/*";
    SlashStarOpens(mode);
  }

  /** Two dashes: the server gets `5-- 1`. */
  lemma CommandJoinsDashes(c: Client, mode: Mode, cmd: char)
    requires cmd != NUL && cmd != 'N' && c.isShortCommand(cmd) && !c.takesParams(cmd)
    requires c.handle([ShortCommand("5-", mode, cmd, ['\\', cmd] + ("- 1" + mode.delimiter))]) == Reply(mode, "5-", false)
    requires DashClient(c, mode) && mode.delimiter[0] != ' '
    ensures var log := AddLine(c, CommandLine("5-", cmd, "- 1" + mode.delimiter), false, Fresh(mode)).input.log;
            |log| > 1 && log[1] == Statement("5-- 1", mode)
    ensures DashAt(c, mode, "5-- 1", 1)
  {
    CommandJoins(c, mode, cmd, "5-", "- 1");
    assert "5-" + "- 1" == "5-- 1";
    FiveIsOutside(mode);
  }

  // A comment right behind two dashes.

  predicate DashClient(c: Client, mode: Mode) {
    && c.isSpace(' ') && !c.isSpace('5') && !c.isSpace('-') && !c.isSpace('/') && !c.isSpace('*') && !c.isSpace('1')
    && mode.delimiter[0] !in "5-/*1\\" && !c.isSpace(mode.delimiter[0])
  }

  lemma FiveDashes(c: Client, line: string, mode: Mode)
    requires "5--" <= line && |line| > 3 && line[3] != '-' && line[3] != NUL && !c.isSpace(line[3]) && DashClient(c, mode)
    ensures Lex(c, line, State(0, "", "", NUL, false, false, false, mode, []))
            == Lex(c, line, State(3, "", "5--", NUL, false, false, false, mode, []))
  {
    var s := State(0, "", "", NUL, false, false, false, mode, []);
    assert line[0] == '5' && line[1] == '-' && line[2] == '-';
    KeepsChar(c, line, s);
    assert s.tail + ['5'] == "5";
    TwoDashes(c, line, s.(pos := 1, tail := "5"));
  }

  lemma TwoDashes(c: Client, line: string, s: State)
    requires s == State(1, "", "5", NUL, false, false, false, s.mode, []) && DashClient(c, s.mode)
    requires |line| > 3 && line[1] == '-' && line[2] == '-' && line[3] != '-' && line[3] != NUL && !c.isSpace(line[3])
    ensures Lex(c, line, s) == Lex(c, line, s.(pos := 3, tail := "5--"))
  {
    KeepsChar(c, line, s);
    var t := s.(pos := 2, tail := "5-");
    assert s.tail + ['-'] == t.tail;
    KeepsChar(c, line, t);
    assert t.tail + ['-'] == "5--";
  }

  function CommentAndOne(x: string): seq<Segment> {
    [Comment(x), Plain("1")]
  }

  lemma CommentAndOneRenders(x: string)
    ensures Render(CommentAndOne(x)) == RenderOne(Comment(x)) + "1" && Render([Comment(x)]) == RenderOne(Comment(x))
    ensures |Render(CommentAndOne(x))| > 0 && Render(CommentAndOne(x))[0] == '/'
  {
    var gs, hs := CommentAndOne(x), [Comment(x)];
    assert gs[..1] == hs && gs[1] == Plain("1") && hs[..0] == [];
    assert Render(hs) == "" + RenderOne(Comment(x)) == RenderOne(Comment(x));
    assert RenderOne(Comment(x))[0] == '/';
  }

  /** The text that `5--`, a comment and `1` stand for. */
  lemma CommentAndOneCollects(c: Client, x: string)
    requires !c.isSpace('1')
    ensures CollectAll(c, Collected("5--", false, false), [Comment(x)]) == Collected("5--", true, false)
    ensures CollectAll(c, Collected("5--", false, false), CommentAndOne(x)) == Collected("5-- 1", false, false)
  {
    var gs, hs, a := CommentAndOne(x), [Comment(x)], Collected("5--", true, false);
    assert gs[..1] == hs && hs[..0] == [];
    assert "5--" + [' ', '1'] == "5-- 1" && "1"[1..] == "";
    assert CollectAll(c, Collected("5--", false, false), hs) == a;
    CollectSimple(c, Collected("5-- ", false, false), "1");
    assert CollectPlain(c, a, "1") == Collected("5-- 1", false, false);
  }

  lemma CommentStands(c: Client, mode: Mode, line: string, x: string)
    requires DashClient(c, mode) && CommentText(x) && StartsWith(line, 3, RenderOne(Comment(x)))
    ensures FitsAt(c, mode, line, 3, Collected("5--", false, false), CommentAndOne(x), 0)
  {
    assert CommentAndOne(x)[..0] == [];
    StartsWithAt(line, 3, RenderOne(Comment(x)), 0);
    NotDelimiter(line, 3, mode.delimiter);
  }

  lemma OneStands(c: Client, mode: Mode, line: string, x: string)
    requires DashClient(c, mode) && StartsWith(line, 3 + |RenderOne(Comment(x))|, "1")
    ensures FitsAt(c, mode, line, 3, Collected("5--", false, false), CommentAndOne(x), 1)
  {
    var p, b := 3 + |RenderOne(Comment(x))|, Collected("5--", true, false);
    assert CommentAndOne(x)[..1] == [Comment(x)];
    CommentAndOneRenders(x);
    CommentAndOneCollects(c, x);
    OneFits(c, mode.delimiter, line, p, b);
    PlainFitsAt(c, mode, line, 3, Collected("5--", false, false), CommentAndOne(x), 1, p, b);
  }

  lemma CommentAndOneFits(c: Client, mode: Mode, line: string, x: string)
    requires DashClient(c, mode) && CommentText(x) && StartsWith(line, 3, Render(CommentAndOne(x)))
    ensures FitAll(c, mode, line, 3, Collected("5--", false, false), CommentAndOne(x))
  {
    CommentAndOneRenders(x);
    StartsWithTail(line, 3, RenderOne(Comment(x)), "1");
    CommentStands(c, mode, line, x);
    OneStands(c, mode, line, x);
  }

  lemma OneFits(c: Client, d: Delimiter, line: string, p: nat, a: Collected)
    requires StartsWith(line, p, "1") && d[0] != '1'
    ensures PlainFits(c, d, line, p, 1, a)
  {
    StartsWithAt(line, p, "1", 0);
    NotDelimiter(line, p, d);
  }

  /** From behind `5--` the comment and `1` are read, and the delimiter sends what they stand for. */
  lemma ReadsCommentAndOne(c: Client, line: string, s: State, x: string)
    requires s == State(3, "", "5--", NUL, false, false, false, s.mode, [])
    requires DashClient(c, s.mode) && CommentText(x)
    requires var r := Render(CommentAndOne(x)); StartsWith(line, 3, r) && StartsWith(line, 3 + |r|, s.mode.delimiter)
    ensures [Statement("5-- 1", s.mode)] <= Lex(c, line, s).s.log
  {
    assert s.Accepted() == "5--";
    CommentAndOneFits(c, s.mode, line, x);
    var t := SegmentsStep(c, line, s, CommentAndOne(x));
    CommentAndOneCollects(c, x);
    StartsWithAt(line, t.pos, s.mode.delimiter, 0);
    SentFirst(c, line, t);
  }

  /** A comment behind two dashes, whatever it holds, makes a comment of what follows it: the server gets `5-- 1`. */
  lemma CommentBehindDashesIsJoined(c: Client, mode: Mode, x: string)
    requires DashClient(c, mode) && CommentText(x)
    ensures var line := "5--" + (RenderOne(Comment(x)) + "1") + mode.delimiter;
            var log := AddLine(c, line, false, Fresh(mode)).input.log;
            log != [] && log[0] == Statement("5-- 1", mode)
    ensures DashAt(c, mode, "5-- 1", 1)
  {
    CommentAndOneRenders(x);
    FiveThenSegments(c, mode, x, Render(CommentAndOne(x)), "5--" + Render(CommentAndOne(x)) + mode.delimiter);
    FiveIsOutside(mode);
  }

  lemma BeginsWithFive(line: string, body: string, d: string)
    requires line == "5--" + body + d && body != ""
    ensures "5--" <= line && |line| > 3 && line[3] == body[0]
    ensures StartsWith(line, 3, body) && StartsWith(line, 3 + |body|, d)
  {
    StartsWithMiddle("5--", body, d);
  }

  lemma FiveThenSegments(c: Client, mode: Mode, x: string, body: string, line: string)
    requires DashClient(c, mode) && CommentText(x)
    requires body == Render(CommentAndOne(x)) && line == "5--" + body + mode.delimiter
    ensures var log := AddLine(c, line, false, Fresh(mode)).input.log; log != [] && log[0] == Statement("5-- 1", mode)
  {
    CommentAndOneRenders(x);
    BeginsWithFive(line, body, mode.delimiter);
    FiveDashes(c, line, mode);
    ReadsCommentAndOne(c, line, State(3, "", "5--", NUL, false, false, false, mode, []), x);
  }

  lemma FiveIsOutside(mode: Mode)
    ensures Rescan(mode, "5-- 1"[..1]) == CLOSED
  {
    assert "5-- 1"[..1] == "5" && "5"[..0] == "";
  }

  lemma EndsBehindDashes(c: Client, line: string, s: State)
    requires s == State(3, "", "5--", NUL, false, false, false, s.mode, []) && |line| > 3
    requires line[3] != s.mode.delimiter[0] && (line[3..] == "\\" || line[3] == '#')
    ensures var o := Lex(c, line, s); o.Break? && Finish(c, false, o.s) == Input("5--\n", NUL, false, s.mode, [])
  {
    NotDelimiter(line, 3, s.mode.delimiter);
    if line[3] == '#' {
      assert s.Flush() == s.(buffer := "5--", tail := "");
      assert "5--" + ("" + "\n") == "5--\n";
    } else {
      assert line[3..][0] == line[3] && |line| == 4;
      assert "" + ("5--" + "\n") == "5--\n";
    }
  }

  /** Nor does a line comment, or a lone backslash, behind two dashes leave them alone: the newline joins them. */
  lemma LineEndBehindDashesIsJoined(c: Client, mode: Mode, rest: string)
    requires DashClient(c, mode) && mode.delimiter[0] != '#' && !c.isSpace('#') && !c.isSpace('\\')
    requires rest == "\\" || "#" <= rest
    ensures AddLine(c, "5--" + rest, false, Fresh(mode)) == LineResult(Input("5--\n", NUL, false, mode, []), false)
    ensures c.isSpace('\n') ==> DashAt(c, mode, "5--\n", 1)
  {
    var line := "5--" + rest;
    assert line[3..] == rest && line[3] == rest[0];
    FiveDashes(c, line, mode);
    EndsBehindDashes(c, line, State(3, "", "5--", NUL, false, false, false, mode, []));
    assert "5--\n"[..1] == "5" && "5"[..0] == "";
  }

  // A DELIMITER line inside a mark.

  /** Ordinary text opens no quote. */
  lemma {:induction false} OrdinaryIsOutside(mode: Mode, t: string)
    requires forall i :: 0 <= i < |t| ==> OrdinaryChar(t[i])
    ensures Rescan(mode, t) == CLOSED
  {
    if t == "" {
    } else {
      OrdinaryIsOutside(mode, t[..|t| - 1]);
    }
  }

  /** A name of the DELIMITER command. */
  predicate IsName(c: Client, mode: Mode, name: string) {
    && |name| == |"delimiter"| && c.isDelimiterName(name) && !c.isSpace(name[0])
    && forall i :: 0 <= i < |name| ==>
         OrdinaryChar(name[i]) && name[i] != mode.delimiter[0] && name[i] != '-' && name[i] != '/' && name[i] != '*'
  }

  /** The DELIMITER line drops its newline. */
  lemma NameLine(c: Client, mode: Mode, name: string, a: char)
    requires IsName(c, mode, name) && OrdinaryChar(a) && a != mode.delimiter[0]
    ensures AddLine(c, name + [a], false, Fresh(mode)) == LineResult(Input(name + [a], NUL, false, mode, []), false)
  {
    var line := name + [a];
    assert StartsWith(line, 0, line);
    var u := ReadsSimple(c, line, Begin(Fresh(mode)), line);
    assert Lex(c, line, u) == Break(u);
    assert u.tail[..|name|] == name;
    assert "" + line == line;
  }

  lemma NextLine(c: Client, mode: Mode, text: string, b: string)
    requires text != "" && b != "" && Simple(b, mode.delimiter[0], mode.delimiter) && mode.delimiter[0] != '\\'
    ensures [Statement(text + b, mode)]
            <= AddLine(c, b + mode.delimiter, false, Input(text, NUL, false, mode, [])).input.log
  {
    var line, s := b + mode.delimiter, Begin(Input(text, NUL, false, mode, []));
    assert line[0..] == line;
    SendsSimple(c, line, s, b);
    assert [] + [Statement(text + b, mode)] == [Statement(text + b, mode)];
  }

  /** So the line behind it joins what stands at its end. */
  lemma DelimiterLineJoins(c: Client, mode: Mode, name: string, a: char, b: string)
    requires IsName(c, mode, name) && OrdinaryChar(a) && a != mode.delimiter[0] && !c.isLineCommand(name + [a], mode)
    requires b != "" && Simple(b, mode.delimiter[0], mode.delimiter) && mode.delimiter[0] != '\\'
    ensures var lines := [Line(name + [a], false), Line(b + mode.delimiter, false)];
            [Statement(name + [a] + b, mode)] <= Read(c, false, lines, Fresh(mode)).input.log
  {
    var lines := [Line(name + [a], false), Line(b + mode.delimiter, false)];
    NameLine(c, mode, name, a);
    var i := Input(name + [a], NUL, false, mode, []);
    assert ReadLine(c, false, lines[0], Fresh(mode)) == LineResult(i, false);
    NextLine(c, mode, name + [a], b);
    assert lines[1..] == [Line(b + mode.delimiter, false)] && lines[1..][1..] == [];
    assert Read(c, false, lines[1..], i).input == ReadLine(c, false, lines[1], i).input;
  }

  /** A slash and a star. */
  lemma DelimiterLineJoinsMark(c: Client, mode: Mode, name: string)
    requires IsName(c, mode, name) && mode.delimiter[0] !in "/*\\" && !c.isLineCommand(name + ['/'], mode)
    ensures var lines := [Line(name + ['/'], false), Line("*" + mode.delimiter, false)];
            [Statement(name + "/*", mode)] <= Read(c, false, lines, Fresh(mode)).input.log
    ensures BlockAt(mode, name + "/*", |name|)
  {
    DelimiterLineJoins(c, mode, name, '/', "*");
    assert name + ['/'] + "*" == name + "/*";
    OrdinaryIsOutside(mode, name);
    assert (name + "/*")[..|name|] == name;
  }

  /** Two dashes and a space. */
  lemma DelimiterLineJoinsDashes(c: Client, mode: Mode, name: string)
    requires IsName(c, mode, name) && mode.delimiter[0] !in "- 1\\" && c.isSpace(' ')
    requires !c.isLineCommand(name + ['-'], mode)
    ensures var lines := [Line(name + ['-'], false), Line("- 1" + mode.delimiter, false)];
            [Statement(name + "-- 1", mode)] <= Read(c, false, lines, Fresh(mode)).input.log
    ensures DashAt(c, mode, name + "-- 1", |name|)
  {
    DelimiterLineJoins(c, mode, name, '-', "- 1");
    assert name + ['-'] + "- 1" == name + "-- 1";
    OrdinaryIsOutside(mode, name);
    assert (name + "-- 1")[..|name|] == name;
  }
}
