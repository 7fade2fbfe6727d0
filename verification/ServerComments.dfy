/**
 Comments for the server and the delimiter.

 The lexer keeps such a comment as text and looks for delimiters in it as in any
 text. So the comment reaches the server whole exactly if the delimiter does not
 start inside it.
 */
module ServerComments {
  import opened Basics
  import opened LineLexer
  import opened StatementMeaning

  /** Text for the inside of a server comment; it may hold delimiters, but no string, command or comment mark. */
  predicate CodeAt(c: Client, u: string, j: nat)
    requires j + 2 < |u|
  {
    && OrdinaryChar(u[j])
    && !(u[j] == '/' && u[j + 1] == '*') && !(u[j] == '*' && u[j + 1] == '/')
    && !(u[j] == '-' && u[j + 1] == '-' && c.isSpace(u[j + 2]))
  }

  predicate Code(c: Client, t: string) {
    forall j :: 0 <= j < |t| ==> CodeAt(c, t + "*/", j)
  }

  lemma CodeKept(c: Client, d: Delimiter, line: string, p: nat, t: string, j: nat)
    requires Code(c, t) && StartsWith(line, p, t + "*/") && j < |t| && !StartsWith(line, p + j, d)
    ensures Kept(c, d, line, p + j, false) && !MarkAt(line, p + j)
  {
    assert CodeAt(c, t + "*/", j) && (j + 2 < |t| ==> CodeAt(c, t + "*/", j + 2));
    StartsWithAt(line, p, t + "*/", j);
    StartsWithAt(line, p, t + "*/", j + 1);
    StartsWithAt(line, p, t + "*/", j + 2);
  }

  /** Code is plain text as far as no delimiter starts in it. */
  lemma {:induction false} CodeFits(c: Client, d: Delimiter, line: string, p: nat, t: string, j: nat, n: nat, a: Collected)
    requires Code(c, t) && StartsWith(line, p, t + "*/") && j <= n <= |t| && a.text != ""
    requires NoDelimiter(line, d, p, n)
    ensures PlainFits(c, d, line, p + j, n - j, a)
    decreases n - j
  {
    if j == n {
    } else {
      CodeKept(c, d, line, p, t, j);
      CodeFits(c, d, line, p, t, j + 1, n, CollectChar(c, a, line[p + j]));
    }
  }

  lemma {:induction false} CollectVerbatim(c: Client, a: Collected, t: string)
    requires a.text != "" && !a.owed
    ensures CollectPlain(c, a, t) == a.(text := a.text + t)
    decreases |t|
  {
    if t == "" {
      assert a.text + t == a.text;
    } else {
      CollectVerbatim(c, CollectChar(c, a, t[0]), t[1..]);
      assert a.text + [t[0]] + t[1..] == a.text + t;
    }
  }

  lemma CollectMark(c: Client, maria: bool)
    requires !c.isSpace('/')
    ensures Collect(c, Collected("", false, false), Opening(maria)) == Collected(Mark(maria), false, !maria)
  {
    var a := Collected("", false, !maria);
    CollectVerbatim(c, CollectChar(c, a, '/'), Mark(maria)[1..]);
    assert Mark(maria)[0] == '/';
    assert "" + ['/'] + Mark(maria)[1..] == Mark(maria);
  }

  /** A server comment as far as its text goes, and a whole one. */
  function Begun(maria: bool, t: string): seq<Segment> {
    [Opening(maria), Plain(t)]
  }

  function Whole(maria: bool, t: string): seq<Segment> {
    [Opening(maria), Plain(t), Closing]
  }

  lemma OpeningIs(c: Client, maria: bool)
    requires !c.isSpace('/')
    ensures Render([Opening(maria)]) == Mark(maria)
    ensures CollectAll(c, Collected("", false, false), [Opening(maria)]) == Collected(Mark(maria), false, !maria)
  {
    var gs := [Opening(maria)];
    assert gs[..0] == [];
    assert "" + Mark(maria) == Mark(maria);
    CollectMark(c, maria);
  }

  lemma BegunIs(c: Client, maria: bool, t: string)
    requires !c.isSpace('/')
    ensures Render(Begun(maria, t)) == Mark(maria) + t
    ensures CollectAll(c, Collected("", false, false), Begun(maria, t)) == Collected(Mark(maria) + t, false, !maria)
  {
    var gs, a := Begun(maria, t), Collected(Mark(maria), false, !maria);
    assert gs[..1] == [Opening(maria)];
    OpeningIs(c, maria);
    assert CollectAll(c, Collected("", false, false), gs) == Collect(c, a, Plain(t));
    CollectVerbatim(c, a, t);
  }

  lemma WholeIs(c: Client, maria: bool, t: string)
    requires !c.isSpace('/')
    ensures Render(Whole(maria, t)) == Mark(maria) + t + "*/"
    ensures CollectAll(c, Collected("", false, false), Whole(maria, t)).text == Mark(maria) + t + "*/"
  {
    var gs, a := Whole(maria, t), Collected(Mark(maria) + t, false, !maria);
    assert gs[..2] == Begun(maria, t);
    BegunIs(c, maria, t);
    assert CollectAll(c, Collected("", false, false), gs) == Collect(c, a, Closing);
    CollectVerbatim(c, a.(server := false), "*/");
  }

  /** Delimiters that no mark of a server comment can be mistaken for. */
  predicate Apart(d: Delimiter) {
    d[0] != '/' && d[0] != '*' && d[0] != '!' && d[0] != 'M' && d[0] != '\\'
  }

  lemma NoDelimiterInMark(line: string, p: nat, d: Delimiter, mark: string)
    requires StartsWith(line, p, mark) && d[0] !in mark
    ensures NoDelimiter(line, d, p, |mark|)
  {
    forall j | p <= j < p + |mark| ensures !StartsWith(line, j, d) {
      StartsWithAt(line, p, mark, j - p);
      NotDelimiter(line, j, d);
    }
  }

  lemma MarkStands(c: Client, mode: Mode, line: string, maria: bool, t: string)
    requires Apart(mode.delimiter) && !c.isSpace('/') && StartsWith(line, 0, Mark(maria))
    ensures FitsAt(c, mode, line, 0, Collected("", false, false), Begun(maria, t), 0)
  {
    NoDelimiterInMark(line, 0, mode.delimiter, Mark(maria));
    assert Begun(maria, t)[..0] == [];
  }

  lemma CodeStands(c: Client, mode: Mode, line: string, a: Collected, gs: seq<Segment>,
                   t: string, n: nat, m: nat, b: Collected)
    requires |gs| == 2 && n <= |t| && gs[1] == Plain(t[..n]) && m == |Render(gs[..1])| && b == CollectAll(c, a, gs[..1])
    requires Code(c, t) && b.text != "" && StartsWith(line, m, t + "*/") && NoDelimiter(line, mode.delimiter, m, n)
    ensures FitsAt(c, mode, line, 0, a, gs, 1)
  {
    CodeFits(c, mode.delimiter, line, m, t, 0, n, b);
    PlainFitsAt(c, mode, line, 0, a, gs, 1, m, b);
  }

  lemma BegunFits(c: Client, mode: Mode, line: string, maria: bool, t: string, n: nat)
    requires Code(c, t) && Apart(mode.delimiter) && !c.isSpace('/') && n <= |t|
    requires StartsWith(line, 0, Mark(maria)) && StartsWith(line, |Mark(maria)|, t + "*/")
    requires NoDelimiter(line, mode.delimiter, |Mark(maria)|, n)
    ensures FitAll(c, mode, line, 0, Collected("", false, false), Begun(maria, t[..n]))
  {
    var gs, a := Begun(maria, t[..n]), Collected("", false, false);
    MarkStands(c, mode, line, maria, t[..n]);
    assert gs[..1] == [Opening(maria)];
    OpeningIs(c, maria);
    CodeStands(c, mode, line, a, gs, t, n, |Mark(maria)|, Collected(Mark(maria), false, !maria));
  }

  lemma WholeFits(c: Client, mode: Mode, line: string, maria: bool, t: string)
    requires Code(c, t) && Apart(mode.delimiter) && !c.isSpace('/') && !c.isSpace('*')
    requires StartsWith(line, 0, Mark(maria)) && StartsWith(line, |Mark(maria)|, t + "*/")
    requires StartsWith(line, |Mark(maria)| + |t| + 2, mode.delimiter)
    requires NoDelimiter(line, mode.delimiter, |Mark(maria)|, |t|)
    ensures FitAll(c, mode, line, 0, Collected("", false, false), Whole(maria, t))
  {
    var gs, hs, a, m := Whole(maria, t), Begun(maria, t), Collected("", false, false), |Mark(maria)|;
    assert t[..|t|] == t;
    BegunFits(c, mode, line, maria, t, |t|);
    forall k | 0 <= k < 3 ensures FitsAt(c, mode, line, 0, a, gs, k) {
      if k < 2 {
        assert gs[..k] == hs[..k] && FitsAt(c, mode, line, 0, a, hs, k);
      } else {
        assert gs[..2] == hs;
        BegunIs(c, maria, t);
        ClosingFits(c, mode, line, m + |t|, Collected(Mark(maria) + t, false, !maria), t, m);
      }
    }
  }

  lemma ClosingFits(c: Client, mode: Mode, line: string, p: nat, a: Collected, t: string, m: nat)
    requires p == m + |t| && StartsWith(line, m, t + "*/") && StartsWith(line, p + 2, mode.delimiter)
    requires Apart(mode.delimiter) && !c.isSpace('*')
    ensures Fits(c, mode, line, p, a, Closing)
  {
    StartsWithTail(line, m, t, "*/");
    NoDelimiterInMark(line, p, mode.delimiter, "*/");
    StartsWithAt(line, p, "*/", 1);
    StartsWithAt(line, p + 2, mode.delimiter, 0);
  }

  /** The delimiter starts inside the comment, at `k` of its text. */
  predicate Interrupts(d: Delimiter, t: string, k: nat) {
    k < |t| && StartsWith(t + "*/" + d, k, d)
  }

  lemma {:induction false} FirstInterrupt(d: Delimiter, t: string, n: nat) returns (k: nat)
    requires n <= |t|
    ensures k <= n && (forall j :: 0 <= j < k ==> !Interrupts(d, t, j)) && (k < n ==> Interrupts(d, t, k))
  {
    if n == 0 {
      k := 0;
    } else {
      k := FirstInterrupt(d, t, n - 1);
      if k == n - 1 && !Interrupts(d, t, k) {
        k := n;
      }
    }
  }

  function ServerLine(maria: bool, t: string, d: Delimiter, rest: string): string {
    Mark(maria) + (t + "*/" + d) + rest
  }

  lemma ServerLineParts(mark: string, t: string, d: string, rest: string)
    ensures var line, m := mark + (t + "*/" + d) + rest, |mark|;
            && StartsWith(line, 0, mark) && StartsWith(line, m, t + "*/") && StartsWith(line, m + |t| + 2, d)
            && StartsWith(line, m, t + "*/" + d) && line == mark + t + "*/" + d + rest
  {
    var line, u := mark + (t + "*/" + d) + rest, t + "*/" + d;
    StartsWithMiddle(mark, u, rest);
    StartsWithTail(line, |mark|, t + "*/", d);
    assert line[0..|mark|] == mark;
  }

  /** Inside its comment, the line is that comment and the delimiter behind it. */
  lemma SameInside(line: string, m: nat, u: string, d: string, k: nat)
    requires StartsWith(line, m, u) && k + |d| <= |u|
    ensures StartsWith(line, m + k, d) <==> StartsWith(u, k, d)
  {
    var x, y := line[m + k..m + k + |d|], line[m..m + |u|][k..k + |d|];
    assert |x| == |y| && forall j :: 0 <= j < |d| ==> x[j] == y[j];
  }

  lemma NoneInterrupts(line: string, m: nat, t: string, d: Delimiter, n: nat)
    requires StartsWith(line, m, t + "*/" + d) && n <= |t| && forall j :: 0 <= j < n ==> !Interrupts(d, t, j)
    ensures NoDelimiter(line, d, m, n)
  {
    forall j | m <= j < m + n ensures !StartsWith(line, j, d) {
      assert !Interrupts(d, t, j - m);
      SameInside(line, m, t + "*/" + d, d, j - m);
    }
  }

  lemma SentAs(c: Client, gs: seq<Segment>, line: string, rest: string, truncated: bool, mode: Mode, text: string)
    requires line == Render(gs) + mode.delimiter + rest && mode.delimiter[0] != '\\' && text != ""
    requires FitAll(c, mode, line, 0, Collected("", false, false), gs)
    requires CollectAll(c, Collected("", false, false), gs).text == text
    ensures [Statement(text, mode)] <= AddLine(c, line, truncated, Fresh(mode)).input.log
  {
    StatementIsSent(c, gs, rest, truncated, Fresh(mode));
    assert [] + [Statement(text, mode)] == [Statement(text, mode)];
  }

  lemma CutFits(c: Client, mode: Mode, maria: bool, t: string, line: string, k: nat)
    requires Code(c, t) && Apart(mode.delimiter) && !c.isSpace('/')
    requires StartsWith(line, 0, Mark(maria)) && StartsWith(line, |Mark(maria)|, t + "*/")
    requires StartsWith(line, |Mark(maria)|, t + "*/" + mode.delimiter)
    requires Interrupts(mode.delimiter, t, k) && forall j :: 0 <= j < k ==> !Interrupts(mode.delimiter, t, j)
    ensures FitAll(c, mode, line, 0, Collected("", false, false), Begun(maria, t[..k]))
    ensures StartsWith(line, |Mark(maria)| + k, mode.delimiter)
  {
    var d, m := mode.delimiter, |Mark(maria)|;
    SameInside(line, m, t + "*/" + d, d, k);
    NoneInterrupts(line, m, t, d, k);
    BegunFits(c, mode, line, maria, t, k);
  }

  /** What the first delimiter leaves of the comment is what is sent. */
  lemma CutIsSent(c: Client, maria: bool, t: string, rest: string, truncated: bool, mode: Mode, k: nat)
    requires Code(c, t) && Apart(mode.delimiter) && !c.isSpace('/')
    requires Interrupts(mode.delimiter, t, k) && forall j :: 0 <= j < k ==> !Interrupts(mode.delimiter, t, j)
    ensures [Statement(Mark(maria) + t[..k], mode)]
            <= AddLine(c, ServerLine(maria, t, mode.delimiter, rest), truncated, Fresh(mode)).input.log
  {
    var mark, d, line := Mark(maria), mode.delimiter, ServerLine(maria, t, mode.delimiter, rest);
    ServerLineParts(mark, t, d, rest);
    CutFits(c, mode, maria, t, line, k);
    CutLine(line, mark, t, d, k);
    BegunIs(c, maria, t[..k]);
    SentAs(c, Begun(maria, t[..k]), line, line[|mark| + k + |d|..], truncated, mode, mark + t[..k]);
  }

  lemma CutLine(line: string, mark: string, t: string, d: string, k: nat)
    requires k <= |t| && StartsWith(line, 0, mark) && StartsWith(line, |mark|, t + "*/") && StartsWith(line, |mark| + k, d)
    ensures line == mark + t[..k] + d + line[|mark| + k + |d|..]
  {
    var m := |mark|;
    assert line[m..m + k] == line[m..m + |t| + 2][..k] == t[..k];
    assert line == line[..m] + line[m..m + k] + line[m + k..m + k + |d|] + line[m + k + |d|..];
  }

  lemma WholeIsSent(c: Client, maria: bool, t: string, rest: string, truncated: bool, mode: Mode)
    requires Code(c, t) && Apart(mode.delimiter) && !c.isSpace('/') && !c.isSpace('*')
    requires forall j :: 0 <= j < |t| ==> !Interrupts(mode.delimiter, t, j)
    ensures [Statement(Mark(maria) + t + "*/", mode)]
            <= AddLine(c, ServerLine(maria, t, mode.delimiter, rest), truncated, Fresh(mode)).input.log
  {
    var line := ServerLine(maria, t, mode.delimiter, rest);
    ServerLineParts(Mark(maria), t, mode.delimiter, rest);
    WholeIs(c, maria, t);
    NoneInterrupts(line, |Mark(maria)|, t, mode.delimiter, |t|);
    WholeFits(c, mode, line, maria, t);
    SentAs(c, Whole(maria, t), line, rest, truncated, mode, Mark(maria) + t + "*/");
  }

  /**
   A comment for the server, followed by the delimiter: it is sent whole, and
   first, if and only if no delimiter starts inside it.
   */
  lemma ServerCommentIsSentIff(c: Client, maria: bool, t: string, rest: string, truncated: bool, mode: Mode)
    requires Code(c, t) && Apart(mode.delimiter) && !c.isSpace('/') && !c.isSpace('*')
    ensures var log := AddLine(c, ServerLine(maria, t, mode.delimiter, rest), truncated, Fresh(mode)).input.log;
            && log != [] && log[0].Statement?
            && (log[0].text == Mark(maria) + t + "*/" <==> forall k :: 0 <= k < |t| ==> !Interrupts(mode.delimiter, t, k))
  {
    var k := FirstInterrupt(mode.delimiter, t, |t|);
    if k == |t| {
      WholeIsSent(c, maria, t, rest, truncated, mode);
    } else {
      CutIsSent(c, maria, t, rest, truncated, mode, k);
      assert |Mark(maria) + t[..k]| < |Mark(maria) + t + "*/"|;
    }
  }

  /** The plainest case: a semicolon in a comment for the server sends the comment unclosed. */
  lemma SemicolonCutsServerComment(c: Client, mode: Mode, truncated: bool)
    requires mode.delimiter == ";" && !c.isSpace('/')
    ensures [Statement("/*!1", mode)] <= AddLine(c, "/*!1;*/;", truncated, Fresh(mode)).input.log
  {
    assert Code(c, "1;") by {
      assert "1;" + "*/" == "1;*/";
    }
    assert "1;" + "*/" + ";" == "1;*/;" && "1;*/;"[0..1] == "1" && "1;*/;"[1..2] == ";";
    assert !Interrupts(";", "1;", 0) && Interrupts(";", "1;", 1);
    CutIsSent(c, false, "1;", "", truncated, mode, 1);
    assert "1;"[..1] == "1" && "/*!" + "1" == "/*!1";
    assert ServerLine(false, "1;", ";", "") == "/*!1;*/;";
  }

  function NestedPair(x: string, y: string): seq<Segment> {
    [Opening(false), Nested(x, y)]
  }

  lemma NestedPairIs(c: Client, x: string, y: string)
    requires !c.isSpace('/')
    ensures Render(NestedPair(x, y)) == "/*!" + RenderOne(Nested(x, y))
    ensures CollectAll(c, Collected("", false, false), NestedPair(x, y)).text == "/*!"
  {
    var gs := NestedPair(x, y);
    assert gs[..1] == [Opening(false)];
    OpeningIs(c, false);
  }

  lemma NestedPairFits(c: Client, mode: Mode, line: string, x: string, y: string, body: string)
    requires Apart(mode.delimiter) && !c.isSpace('/') && !c.isSpace('*') && CommentText(x) && CommentBodyText("/" + y)
    requires body == RenderOne(Nested(x, y)) && StartsWith(line, 0, "/*!") && StartsWith(line, 3, body)
    ensures FitAll(c, mode, line, 0, Collected("", false, false), NestedPair(x, y))
  {
    var gs, a := NestedPair(x, y), Collected("", false, false);
    NoDelimiterInMark(line, 0, mode.delimiter, "/*!");
    assert gs[..0] == [] && gs[..1] == [Opening(false)];
    assert FitsAt(c, mode, line, 0, a, gs, 0);
    OpeningIs(c, false);
    StartsWithAt(line, 3, body, 0);
    NotDelimiter(line, 3, mode.delimiter);
    assert FitsAt(c, mode, line, 0, a, gs, 1);
  }

  lemma NestedLineParts(mark: string, body: string, d: string, rest: string)
    ensures StartsWith(mark + body + d + rest, 0, mark) && StartsWith(mark + body + d + rest, |mark|, body)
  {
    Assoc(mark + body, d, rest);
    StartsWithMiddle(mark, body, d + rest);
    assert (mark + body + (d + rest))[0..|mark|] == mark;
  }

  /** A comment inside a server comment takes the closing mark of both: the server gets an opening and no end. */
  lemma NestedCommentIsUnclosed(c: Client, mode: Mode, x: string, y: string, rest: string, truncated: bool)
    requires Apart(mode.delimiter) && !c.isSpace('/') && !c.isSpace('*') && CommentText(x) && CommentBodyText("/" + y)
    ensures var line := "/*!" + RenderOne(Nested(x, y)) + mode.delimiter + rest;
            [Statement("/*!", mode)] <= AddLine(c, line, truncated, Fresh(mode)).input.log
  {
    var body := RenderOne(Nested(x, y));
    var line := "/*!" + body + mode.delimiter + rest;
    NestedLineParts("/*!", body, mode.delimiter, rest);
    NestedPairFits(c, mode, line, x, y, body);
    NestedPairIs(c, x, y);
    SentAs(c, NestedPair(x, y), line, rest, truncated, mode, "/*!");
  }
}
