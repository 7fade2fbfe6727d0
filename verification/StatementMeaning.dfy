/**
 What a line means, told without the automaton.

 A line is written as a list of segments: plain text, quoted strings, comments, and
 the marks that open and close a comment for the server. `CollectAll` says what
 text those segments contribute (strings and the marks of server comments verbatim,
 other comments as at most one space), and the lemmas show that lexing the rendered
 line collects exactly that text, delimiters and comment marks inside strings and
 comments notwithstanding. A comment nested in a server comment that the lexer has
 noticed goes on to the second closing mark, and takes that of the server comment
 with it; it is a segment of its own.
 */
module StatementMeaning {
  import opened Basics
  import opened LineLexer
  import opened StatementText

  datatype Segment =
    | Plain(text: string)
    | Quoted(quote: char, text: string)
    | Comment(text: string)
    | Opening(maria: bool)
    | Closing
    | Nested(text: string, lost: string)

  /** The two ways to open a comment for the server. */
  function Mark(maria: bool): string {
    if maria then "/*M!" else "/*!"
  }

  function RenderOne(g: Segment): string {
    match g
    case Plain(t) => t
    case Quoted(q, t) => [q] + t + [q]
    case Comment(t) => "/*" + t + "*/"
    case Opening(maria) => Mark(maria)
    case Closing => "*/"
    case Nested(t, lost) => "/*" + t + "*/" + lost + "*/"
  }

  function Render(gs: seq<Segment>): string {
    if gs == [] then "" else Render(gs[..|gs| - 1]) + RenderOne(gs[|gs| - 1])
  }

  /**
   The text collected so far, whether a removed comment still owes a space, and
   whether the line has an open server comment that the lexer has noticed.
   */
  datatype Collected = Collected(text: string, owed: bool, server: bool)

  /** Whitespace in front of a statement is dropped; an owed space is paid before other text. */
  function CollectChar(c: Client, a: Collected, ch: char): Collected {
    if c.isSpace(ch) && a.text == "" then a
    else a.(text := a.text + (if a.owed && !c.isSpace(ch) then [' ', ch] else [ch]), owed := false)
  }

  function CollectPlain(c: Client, a: Collected, t: string): Collected
    decreases |t|
  {
    if t == "" then a else CollectPlain(c, CollectChar(c, a, t[0]), t[1..])
  }

  /** The lexer takes notice of the first kind of opening only. */
  function Collect(c: Client, a: Collected, g: Segment): Collected {
    match g
    case Plain(t) => CollectPlain(c, a, t)
    case Quoted(q, t) => a.(text := CollectChar(c, a, q).text + t + [q], owed := false)
    case Comment(t) => a.(owed := true)
    case Opening(maria) => CollectPlain(c, a.(server := a.server || !maria), Mark(maria))
    case Closing => CollectPlain(c, a.(server := false), "*/")
    case Nested(_, _) => a.(owed := true, server := false)
  }

  function CollectAll(c: Client, a: Collected, gs: seq<Segment>): Collected {
    if gs == [] then a else Collect(c, CollectAll(c, a, gs[..|gs| - 1]), gs[|gs| - 1])
  }

  // Where a segment may stand.

  predicate OrdinaryChar(ch: char) {
    ch != NUL && ch != '\\' && ch != '#' && !IsQuote(ch)
  }

  /** A character that starts no string, no command, no delimiter and no comment where it stands. */
  predicate Kept(c: Client, d: Delimiter, line: string, p: nat, first: bool)
    requires p < |line|
  {
    && OrdinaryChar(line[p]) && !StartsWith(line, p, d) && !OpensComment(line, p)
    && !(line[p] == '-' && At(line, p + 1) == '-' && (c.isSpace(At(line, p + 2)) || At(line, p + 2) == NUL || first))
  }

  predicate MarkAt(line: string, p: nat) {
    || (At(line, p) == '/' && At(line, p + 1) == '*' && Bang(line, p + 2))
    || (At(line, p) == '*' && At(line, p + 1) == '/')
  }

  /** Text that is kept and holds no mark of a server comment. */
  predicate PlainFits(c: Client, d: Delimiter, line: string, p: nat, n: nat, a: Collected)
    requires p + n <= |line|
    decreases n
  {
    n > 0 ==>
      && Kept(c, d, line, p, a.text == "") && !MarkAt(line, p)
      && PlainFits(c, d, line, p + 1, n - 1, CollectChar(c, a, line[p]))
  }

  /** A string body: the quote occurs only behind a backslash, and none is left dangling. */
  predicate Body(mode: Mode, q: char, t: string) {
    if t == "" then true
    else if t[0] == '\\' && BackslashActive(mode, q) then
      |t| >= 2 && t[1] != NUL && Body(mode, q, t[2..])
    else
      t[0] != q && t[0] != NUL && Body(mode, q, t[1..])
  }

  /** Text that neither closes a comment nor opens another. */
  predicate CommentBodyText(t: string) {
    t != "" ==>
      && t[0] != NUL
      && (t[0] == '*' ==> At(t, 1) != '/')
      && (t[0] == '/' ==> |t| > 1 && t[1] != '*')
      && CommentBodyText(t[1..])
  }

  predicate CommentText(t: string) {
    CommentBodyText(t) && !("!" <= t) && !("M!" <= t)
  }

  predicate NoDelimiter(line: string, d: Delimiter, p: nat, n: nat) {
    forall j :: p <= j < p + n ==> !StartsWith(line, j, d)
  }

  /** The segment at `p` is one where it stands: no delimiter starts in its plain parts, and it opens nothing else. */
  predicate Fits(c: Client, mode: Mode, line: string, p: nat, a: Collected, g: Segment)
    requires p + |RenderOne(g)| <= |line|
  {
    match g
    case Plain(t) => PlainFits(c, mode.delimiter, line, p, |t|, a)
    case Quoted(q, t) => IsQuote(q) && !c.isSpace(q) && Body(mode, q, t) && !StartsWith(line, p, mode.delimiter)
    case Comment(t) =>
      && !a.server && CommentText(t)
      && !c.isSpace('/') && !c.isSpace('*') && !StartsWith(line, p, mode.delimiter)
    case Opening(maria) => !c.isSpace('/') && NoDelimiter(line, mode.delimiter, p, |Mark(maria)|)
    case Closing =>
      && !c.isSpace('*') && NoDelimiter(line, mode.delimiter, p, 2)
      && !OpensComment(line, p + 1) && !MarkAt(line, p + 1)
    case Nested(t, lost) =>
      && a.server && CommentText(t) && CommentBodyText("/" + lost)
      && !c.isSpace('/') && !c.isSpace('*') && !StartsWith(line, p, mode.delimiter)
  }

  /** So is segment `k` of those that start at `p`. */
  predicate FitsAt(c: Client, mode: Mode, line: string, p: nat, a: Collected, gs: seq<Segment>, k: nat)
    requires k < |gs|
  {
    var q := p + |Render(gs[..k])|;
    q + |RenderOne(gs[k])| <= |line| && Fits(c, mode, line, q, CollectAll(c, a, gs[..k]), gs[k])
  }

  predicate FitAll(c: Client, mode: Mode, line: string, p: nat, a: Collected, gs: seq<Segment>) {
    forall k :: 0 <= k < |gs| ==> FitsAt(c, mode, line, p, a, gs, k)
  }

  lemma PlainFitsAt(c: Client, mode: Mode, line: string, p: nat, a: Collected, gs: seq<Segment>, k: nat, q: nat, b: Collected)
    requires k < |gs| && gs[k].Plain? && q == p + |Render(gs[..k])| && b == CollectAll(c, a, gs[..k])
    requires q + |gs[k].text| <= |line| && PlainFits(c, mode.delimiter, line, q, |gs[k].text|, b)
    ensures FitsAt(c, mode, line, p, a, gs, k)
  {
  }

  // Reading.

  /** Outside strings and removed comments. */
  predicate Outside(s: State) {
    s.inString == NUL && !s.mlComment
  }

  function Now(s: State): Collected {
    Collected(s.Accepted(), s.needSpace, s.ssComment)
  }

  /** Going from `s` to `t` the lexer reads `n` characters and calls nobody. */
  ghost predicate Reads(c: Client, line: string, s: State, t: State, n: nat) {
    && s.pos <= |line|
    && t.pos == s.pos + n <= |line|
    && t.mode == s.mode && t.log == s.log
    && Lex(c, line, s) == Lex(c, line, t)
  }

  lemma ReadsOne(c: Client, line: string, s: State, t: State)
    requires s.pos < |line|
    requires Step(c, line, s) == Continue(t) && t.mode == s.mode && t.log == s.log
    ensures Reads(c, line, s, t, t.pos - s.pos)
  {
    StepAdvances(c, line, s);
  }

  lemma StartsWithTail(line: string, i: nat, a: string, b: string)
    requires StartsWith(line, i, a + b)
    ensures StartsWith(line, i, a) && StartsWith(line, i + |a|, b)
  {
    var all := line[i..i + |a + b|];
    assert all[..|a|] == a && all[|a|..] == b;
    assert line[i..i + |a|] == all[..|a|];
    assert line[i + |a|..i + |a| + |b|] == all[|a|..];
  }

  lemma StartsWithRest(line: string, i: nat, t: string, n: nat)
    requires StartsWith(line, i, t) && n <= |t|
    ensures StartsWith(line, i + n, t[n..])
  {
    assert line[i + n..i + |t|] == line[i..i + |t|][n..];
  }

  lemma JoinAt(a: string, t: string, n: nat)
    requires n <= |t|
    ensures a + t[..n] + t[n..] == a + t
  {
  }

  lemma ReadsOn(c: Client, line: string, s: State, t: State, u: State, n: nat, m: nat)
    requires Reads(c, line, s, t, n) && Reads(c, line, t, u, m)
    ensures Reads(c, line, s, u, n + m)
  {
  }

  lemma KeptStep(c: Client, line: string, s: State) returns (t: State)
    requires s.pos < |line| && Outside(s) && Kept(c, s.mode.delimiter, line, s.pos, s.Accepted() == "")
    ensures Reads(c, line, s, t, 1) && Outside(t) && t.buffer == s.buffer
    ensures Now(t) == CollectChar(c, Now(s), line[s.pos]).(server := t.ssComment)
    ensures t.ssComment == if c.isSpace(line[s.pos]) && s.Accepted() == "" then s.ssComment else NextSsComment(line, s)
  {
    var ch := line[s.pos];
    assert s.AtStatementStart() <==> s.Accepted() == "";
    t := Step(c, line, s).s;
    ReadsOne(c, line, s, t);
    if !(c.isSpace(ch) && s.AtStatementStart()) {
      var added := if s.needSpace && !c.isSpace(ch) then [' ', ch] else [ch];
      Assoc(s.buffer, s.tail, added);
    }
  }

  lemma {:induction false} PlainStep(c: Client, line: string, s: State, text: string) returns (t: State)
    requires StartsWith(line, s.pos, text) && Outside(s)
    requires PlainFits(c, s.mode.delimiter, line, s.pos, |text|, Now(s))
    ensures Reads(c, line, s, t, |text|) && Outside(t) && t.buffer == s.buffer
    ensures Now(t) == CollectPlain(c, Now(s), text)
    decreases |text|
  {
    if text == "" {
      t := s;
    } else {
      StartsWithAt(line, s.pos, text, 0);
      var r := KeptStep(c, line, s);
      StartsWithRest(line, s.pos, text, 1);
      t := PlainStep(c, line, r, text[1..]);
      ReadsOn(c, line, s, r, t, 1, |text| - 1);
    }
  }

  /** Inside an open quote that holds some text already. */
  predicate Inside(s: State, q: char) {
    s.inString == q && IsQuote(q) && !s.mlComment && !s.needSpace && s.Accepted() != ""
  }

  lemma BodyStep(c: Client, line: string, s: State, q: char, text: string) returns (t: State, n: nat)
    requires Inside(s, q) && text != "" && Body(s.mode, q, text) && StartsWith(line, s.pos, text)
    ensures 0 < n <= |text| && Body(s.mode, q, text[n..])
    ensures Reads(c, line, s, t, n) && Inside(t, q)
    ensures t.Accepted() == s.Accepted() + text[..n] && t.ssComment == s.ssComment
  {
    StartsWithAt(line, s.pos, text, 0);
    if text[0] == '\\' && BackslashActive(s.mode, q) {
      n := 2;
      StartsWithAt(line, s.pos, text, 1);
      assert text[..2] == ['\\', text[1]];
    } else {
      n := 1;
      assert text[..1] == [text[0]];
    }
    t := Step(c, line, s).s;
    ReadsOne(c, line, s, t);
    assert s.buffer + (s.tail + text[..n]) == s.Accepted() + text[..n];
  }

  lemma {:induction false} QuotedBody(c: Client, line: string, s: State, q: char, text: string) returns (t: State)
    requires Inside(s, q) && Body(s.mode, q, text) && StartsWith(line, s.pos, text)
    ensures Reads(c, line, s, t, |text|) && Inside(t, q)
    ensures t.Accepted() == s.Accepted() + text && t.ssComment == s.ssComment
    decreases |text|
  {
    if text == "" {
      t := s;
    } else {
      var r, n := BodyStep(c, line, s, q, text);
      StartsWithRest(line, s.pos, text, n);
      t := QuotedBody(c, line, r, q, text[n..]);
      ReadsOn(c, line, s, r, t, n, |text| - n);
      JoinAt(s.Accepted(), text, n);
    }
  }

  lemma OpenQuote(c: Client, line: string, s: State, q: char) returns (t: State)
    requires Outside(s) && s.pos < |line| && line[s.pos] == q
    requires IsQuote(q) && !StartsWith(line, s.pos, s.mode.delimiter) && !c.isSpace(q)
    ensures Reads(c, line, s, t, 1) && Inside(t, q)
    ensures t.Accepted() == CollectChar(c, Now(s), q).text && t.ssComment == s.ssComment
  {
    t := Step(c, line, s).s;
    ReadsOne(c, line, s, t);
    var added := if s.needSpace then [' ', q] else [q];
    assert s.buffer + (s.tail + added) == s.Accepted() + added;
  }

  lemma CloseQuote(c: Client, line: string, s: State, q: char) returns (t: State)
    requires Inside(s, q) && s.pos < |line| && line[s.pos] == q
    ensures Reads(c, line, s, t, 1) && Outside(t) && !t.needSpace
    ensures t.Accepted() == s.Accepted() + [q] && t.ssComment == s.ssComment
  {
    t := Step(c, line, s).s;
    ReadsOne(c, line, s, t);
    assert s.buffer + (s.tail + [q]) == s.Accepted() + [q];
  }

  lemma QuotedParts(line: string, p: nat, q: char, text: string)
    requires StartsWith(line, p, [q] + text + [q])
    ensures p + |text| + 2 <= |line| && line[p] == q && line[p + 1 + |text|] == q && StartsWith(line, p + 1, text)
  {
    assert [q] + text + [q] == [q] + (text + [q]);
    StartsWithTail(line, p, [q], text + [q]);
    StartsWithTail(line, p + 1, text, [q]);
    StartsWithAt(line, p, [q], 0);
    StartsWithAt(line, p + 1 + |text|, [q], 0);
  }

  lemma QuotedStep(c: Client, line: string, s: State, q: char, text: string) returns (t: State)
    requires Outside(s) && StartsWith(line, s.pos, [q] + text + [q])
    requires IsQuote(q) && !c.isSpace(q) && Body(s.mode, q, text) && !StartsWith(line, s.pos, s.mode.delimiter)
    ensures Reads(c, line, s, t, |text| + 2) && Outside(t)
    ensures Now(t) == Now(s).(text := CollectChar(c, Now(s), q).text + text + [q], owed := false)
  {
    QuotedParts(line, s.pos, q, text);
    var r := OpenQuote(c, line, s, q);
    var u := QuotedBody(c, line, r, q, text);
    ReadsOn(c, line, s, r, u, 1, |text|);
    t := CloseQuote(c, line, u, q);
    ReadsOn(c, line, s, u, t, 1 + |text|, 1);
  }

  /** Inside a comment. */
  predicate InComment(s: State) {
    s.inString == NUL && s.mlComment && s.tail == ""
  }

  /** Reading on inside a comment: nothing is collected, and the flag stays as it is. */
  ghost predicate ReadsInside(c: Client, line: string, s: State, t: State, n: nat) {
    Reads(c, line, s, t, n) && InComment(t) && t.Accepted() == s.Accepted() && t.ssComment == s.ssComment
  }

  lemma CommentChar(c: Client, line: string, s: State, text: string) returns (t: State)
    requires InComment(s) && text != "" && CommentBodyText(text) && StartsWith(line, s.pos, text + "*/")
    ensures ReadsInside(c, line, s, t, 1)
  {
    StartsWithAt(line, s.pos, text + "*/", 0);
    StartsWithAt(line, s.pos, text + "*/", 1);
    t := Step(c, line, s).s;
    ReadsOne(c, line, s, t);
  }

  lemma {:induction false} CommentChars(c: Client, line: string, s: State, text: string) returns (t: State)
    requires InComment(s) && s.pos <= |line| && CommentBodyText(text) && StartsWith(line, s.pos, text + "*/")
    ensures ReadsInside(c, line, s, t, |text|)
    decreases |text|
  {
    if text == "" {
      t := s;
    } else {
      var r := CommentChar(c, line, s, text);
      assert text + "*/" == [text[0]] + (text[1..] + "*/");
      StartsWithTail(line, s.pos, [text[0]], text[1..] + "*/");
      t := CommentChars(c, line, r, text[1..]);
      ReadsOn(c, line, s, r, t, 1, |text| - 1);
    }
  }

  lemma CommentEnd(c: Client, line: string, s: State) returns (t: State)
    requires InComment(s) && !s.ssComment && StartsWith(line, s.pos, "*/") && !c.isSpace('*')
    ensures Reads(c, line, s, t, 2) && Outside(t) && Now(t) == Collected(s.Accepted(), true, false)
  {
    StartsWithAt(line, s.pos, "*/", 0);
    StartsWithAt(line, s.pos, "*/", 1);
    t := Step(c, line, s).s;
    ReadsOne(c, line, s, t);
  }

  lemma CommentBody(c: Client, line: string, s: State, text: string) returns (t: State)
    requires InComment(s) && !s.ssComment && CommentBodyText(text) && StartsWith(line, s.pos, text + "*/")
    requires s.pos <= |line| && !c.isSpace('*')
    ensures Reads(c, line, s, t, |text| + 2) && Outside(t)
    ensures Now(t) == Collected(s.Accepted(), true, false)
  {
    var r := CommentChars(c, line, s, text);
    StartsWithTail(line, s.pos, text, "*/");
    t := CommentEnd(c, line, r);
    ReadsOn(c, line, s, r, t, |text|, 2);
  }

  /** The first closing mark inside a server comment only ends what the flag remembers. */
  lemma NestedStar(c: Client, line: string, s: State) returns (t: State)
    requires InComment(s) && s.ssComment && StartsWith(line, s.pos, "*/") && !c.isSpace('*')
    ensures Reads(c, line, s, t, 1) && InComment(t) && t.Accepted() == s.Accepted() && !t.ssComment
  {
    StartsWithAt(line, s.pos, "*/", 0);
    StartsWithAt(line, s.pos, "*/", 1);
    t := Step(c, line, s).s;
    ReadsOne(c, line, s, t);
  }

  lemma CommentParts(line: string, p: nat, text: string)
    requires StartsWith(line, p, "/*" + text + "*/") && CommentText(text)
    ensures p + 2 < |line| && OpensComment(line, p) && StartsWith(line, p + 2, text + "*/")
  {
    assert "/*" + text + "*/" == "/*" + (text + "*/");
    StartsWithTail(line, p, "/*", text + "*/");
    StartsWithAt(line, p, "/*", 0);
    StartsWithAt(line, p, "/*", 1);
    StartsWithAt(line, p + 2, text + "*/", 0);
    StartsWithAt(line, p + 2, text + "*/", 1);
  }

  lemma OpenComment(c: Client, line: string, s: State) returns (t: State)
    requires Outside(s) && s.pos + 1 < |line| && OpensComment(line, s.pos)
    requires !c.isSpace('/') && !StartsWith(line, s.pos, s.mode.delimiter)
    ensures ReadsInside(c, line, s, t, 2)
  {
    t := Step(c, line, s).s;
    ReadsOne(c, line, s, t);
    assert t.Accepted() == s.Accepted();
  }

  lemma CommentStep(c: Client, line: string, s: State, text: string) returns (t: State)
    requires Outside(s) && !s.ssComment && StartsWith(line, s.pos, "/*" + text + "*/") && CommentText(text)
    requires !c.isSpace('/') && !c.isSpace('*') && !StartsWith(line, s.pos, s.mode.delimiter)
    ensures Reads(c, line, s, t, |text| + 4) && Outside(t)
    ensures Now(t) == Now(s).(owed := true)
  {
    CommentParts(line, s.pos, text);
    var r := OpenComment(c, line, s);
    t := CommentBody(c, line, r, text);
    ReadsOn(c, line, s, r, t, 2, |text| + 2);
  }

  lemma NestedParts(line: string, p: nat, a: string, b: string)
    requires StartsWith(line, p, a + "*/" + b)
    ensures StartsWith(line, p, a + "*/") && StartsWith(line, p + |a|, "*/")
    ensures StartsWith(line, p + |a| + 1, "/" + b)
  {
    StartsWithTail(line, p, a + "*/", b);
    StartsWithTail(line, p, a, "*/");
    assert a + "*/" + b == (a + "*") + ("/" + b);
    StartsWithTail(line, p, a + "*", "/" + b);
  }

  /** Up to the slash of the first closing mark. */
  lemma NestedFirst(c: Client, line: string, s: State, text: string) returns (t: State)
    requires Outside(s) && s.ssComment && StartsWith(line, s.pos, "/*" + text + "*/") && CommentText(text)
    requires !c.isSpace('/') && !c.isSpace('*') && !StartsWith(line, s.pos, s.mode.delimiter)
    ensures Reads(c, line, s, t, |text| + 3) && InComment(t) && t.Accepted() == s.Accepted() && !t.ssComment
  {
    CommentParts(line, s.pos, text);
    var r := OpenComment(c, line, s);
    var u := CommentChars(c, line, r, text);
    ReadsOn(c, line, s, r, u, 2, |text|);
    StartsWithTail(line, s.pos + 2, text, "*/");
    t := NestedStar(c, line, u);
    ReadsOn(c, line, s, u, t, 2 + |text|, 1);
  }

  /** A comment inside a server comment that the lexer has noticed goes on to the second closing mark. */
  lemma NestedStep(c: Client, line: string, s: State, text: string, lost: string) returns (t: State)
    requires Outside(s) && s.ssComment && CommentText(text) && CommentBodyText("/" + lost)
    requires StartsWith(line, s.pos, "/*" + text + "*/" + lost + "*/")
    requires !c.isSpace('/') && !c.isSpace('*') && !StartsWith(line, s.pos, s.mode.delimiter)
    ensures Reads(c, line, s, t, |text| + |lost| + 6) && Outside(t)
    ensures Now(t) == Now(s).(owed := true, server := false)
  {
    var a := "/*" + text;
    Assoc(a + "*/", lost, "*/");
    Assoc("/", lost, "*/");
    NestedParts(line, s.pos, a, lost + "*/");
    var r := NestedFirst(c, line, s, text);
    t := CommentBody(c, line, r, "/" + lost);
    ReadsOn(c, line, s, r, t, |text| + 3, |lost| + 3);
  }

  /** The marks of a server comment are kept like text; the first kind of opening is noticed. */
  lemma OpeningStep(c: Client, line: string, s: State, maria: bool) returns (t: State)
    requires Outside(s) && StartsWith(line, s.pos, Mark(maria))
    requires !c.isSpace('/') && NoDelimiter(line, s.mode.delimiter, s.pos, |Mark(maria)|)
    ensures Reads(c, line, s, t, |Mark(maria)|) && Outside(t)
    ensures Now(t) == CollectPlain(c, Now(s).(server := s.ssComment || !maria), Mark(maria))
  {
    var mark := Mark(maria);
    var r := OpeningSlash(c, line, s, maria);
    StartsWithRest(line, s.pos, mark, 1);
    MarkFits(c, line, r, maria);
    t := PlainStep(c, line, r, mark[1..]);
    ReadsOn(c, line, s, r, t, 1, |mark| - 1);
  }

  lemma OpeningSlash(c: Client, line: string, s: State, maria: bool) returns (r: State)
    requires Outside(s) && StartsWith(line, s.pos, Mark(maria))
    requires !c.isSpace('/') && NoDelimiter(line, s.mode.delimiter, s.pos, |Mark(maria)|)
    ensures Reads(c, line, s, r, 1) && Outside(r)
    ensures Now(r) == CollectChar(c, Now(s).(server := s.ssComment || !maria), '/')
  {
    MarkIs(line, s.pos, maria);
    r := KeptStep(c, line, s);
  }

  lemma MarkIs(line: string, p: nat, maria: bool)
    requires StartsWith(line, p, Mark(maria))
    ensures p + 2 < |line| && line[p] == '/' && line[p + 1] == '*' && Bang(line, p + 2)
    ensures maria ==> p + 3 < |line| && line[p + 2] == 'M' && line[p + 3] == '!'
    ensures !maria ==> line[p + 2] == '!'
  {
    StartsWithAt(line, p, Mark(maria), 0);
    StartsWithAt(line, p, Mark(maria), 1);
    StartsWithAt(line, p, Mark(maria), 2);
    if maria {
      StartsWithAt(line, p, Mark(maria), 3);
    }
  }

  /** Behind its slash the opening is plain text. */
  lemma MarkFits(c: Client, line: string, r: State, maria: bool)
    requires 1 <= r.pos && StartsWith(line, r.pos - 1, Mark(maria))
    requires NoDelimiter(line, r.mode.delimiter, r.pos - 1, |Mark(maria)|)
    ensures r.pos + |Mark(maria)| - 1 <= |line|
    ensures PlainFits(c, r.mode.delimiter, line, r.pos, |Mark(maria)| - 1, Now(r))
  {
    var d, p, a := r.mode.delimiter, r.pos, Now(r);
    MarkIs(line, p - 1, maria);
    var a1 := CollectChar(c, a, line[p]);
    var a2 := CollectChar(c, a1, line[p + 1]);
    if maria {
      assert PlainFits(c, d, line, p + 2, 1, a2);
    } else {
      assert PlainFits(c, d, line, p + 1, 1, a1);
    }
  }

  lemma ClosingStep(c: Client, line: string, s: State) returns (t: State)
    requires Outside(s) && StartsWith(line, s.pos, "*/") && !OpensComment(line, s.pos + 1) && !MarkAt(line, s.pos + 1)
    requires !c.isSpace('*') && NoDelimiter(line, s.mode.delimiter, s.pos, 2)
    ensures Reads(c, line, s, t, 2) && Outside(t)
    ensures Now(t) == CollectPlain(c, Now(s).(server := false), "*/")
  {
    StartsWithAt(line, s.pos, "*/", 0);
    StartsWithAt(line, s.pos, "*/", 1);
    var r := KeptStep(c, line, s);
    StartsWithRest(line, s.pos, "*/", 1);
    assert "*/"[1..] == "/";
    assert PlainFits(c, s.mode.delimiter, line, r.pos, 1, Now(r));
    t := PlainStep(c, line, r, "/");
    ReadsOn(c, line, s, r, t, 1, 1);
  }

  lemma SegmentStep(c: Client, line: string, s: State, g: Segment) returns (t: State)
    requires Outside(s) && StartsWith(line, s.pos, RenderOne(g)) && Fits(c, s.mode, line, s.pos, Now(s), g)
    ensures Reads(c, line, s, t, |RenderOne(g)|) && Outside(t)
    ensures Now(t) == Collect(c, Now(s), g)
  {
    match g {
      case Plain(x) => t := PlainStep(c, line, s, x);
      case Quoted(q, x) => t := QuotedStep(c, line, s, q, x);
      case Comment(x) => t := CommentStep(c, line, s, x);
      case Opening(maria) => t := OpeningStep(c, line, s, maria);
      case Closing => t := ClosingStep(c, line, s);
      case Nested(x, y) => t := NestedStep(c, line, s, x, y);
    }
  }

  lemma OneMore(c: Client, a: Collected, gs: seq<Segment>, m: nat)
    requires m < |gs|
    ensures Render(gs[..m + 1]) == Render(gs[..m]) + RenderOne(gs[m])
    ensures CollectAll(c, a, gs[..m + 1]) == Collect(c, CollectAll(c, a, gs[..m]), gs[m])
  {
    assert gs[..m + 1][..m] == gs[..m];
  }

  lemma RenderPart(line: string, p: nat, gs: seq<Segment>, m: nat)
    requires m < |gs| && StartsWith(line, p, Render(gs[..m + 1]))
    ensures StartsWith(line, p, Render(gs[..m])) && StartsWith(line, p + |Render(gs[..m])|, RenderOne(gs[m]))
  {
    assert gs[..m + 1][..m] == gs[..m];
    StartsWithTail(line, p, Render(gs[..m]), RenderOne(gs[m]));
  }

  lemma SegmentAt(c: Client, line: string, s: State, r: State, gs: seq<Segment>, k: nat, a: Collected) returns (t: State)
    requires k < |gs| && FitAll(c, s.mode, line, s.pos, Now(s), gs) && Outside(r) && r.mode == s.mode
    requires r.pos == s.pos + |Render(gs[..k])| && a == CollectAll(c, Now(s), gs[..k]) == Now(r)
    requires StartsWith(line, r.pos, RenderOne(gs[k]))
    ensures Reads(c, line, r, t, |RenderOne(gs[k])|) && Outside(t) && Now(t) == Collect(c, a, gs[k])
  {
    assert FitsAt(c, s.mode, line, s.pos, Now(s), gs, k);
    t := SegmentStep(c, line, r, gs[k]);
  }

  lemma NextSegment(c: Client, line: string, s: State, r: State, gs: seq<Segment>, k: nat, p: nat, a: Collected)
    returns (t: State, q: nat, b: Collected)
    requires k < |gs| && FitAll(c, s.mode, line, s.pos, Now(s), gs) && Outside(r) && r.mode == s.mode
    requires p == |Render(gs[..k])| && a == CollectAll(c, Now(s), gs[..k])
    requires r.pos == s.pos + p && Now(r) == a && StartsWith(line, r.pos, RenderOne(gs[k]))
    ensures q == |Render(gs[..k + 1])| && b == CollectAll(c, Now(s), gs[..k + 1])
    ensures q >= p && Reads(c, line, r, t, q - p) && Outside(t) && Now(t) == b
  {
    t := SegmentAt(c, line, s, r, gs, k, a);
    OneMore(c, Now(s), gs, k);
    q, b := p + |RenderOne(gs[k])|, Now(t);
  }

  /** Behind the first `n` segments the text is what they stand for. */
  lemma {:induction false} SegmentsTo(c: Client, line: string, s: State, gs: seq<Segment>, n: nat)
    returns (t: State, p: nat, a: Collected)
    requires n <= |gs| && Outside(s) && s.pos <= |line| && StartsWith(line, s.pos, Render(gs[..n]))
    requires FitAll(c, s.mode, line, s.pos, Now(s), gs)
    ensures p == |Render(gs[..n])| && a == CollectAll(c, Now(s), gs[..n])
    ensures Reads(c, line, s, t, p) && Outside(t) && Now(t) == a
    decreases n
  {
    if n == 0 {
      t, p, a := s, 0, Now(s);
    } else {
      var m := n - 1;
      RenderPart(line, s.pos, gs, m);
      var r, q, b := SegmentsTo(c, line, s, gs, m);
      t, p, a := NextSegment(c, line, s, r, gs, m, q, b);
      ReadsOn(c, line, s, r, t, q, p - q);
    }
  }

  lemma SegmentsStep(c: Client, line: string, s: State, gs: seq<Segment>) returns (t: State)
    requires Outside(s) && s.pos <= |line| && StartsWith(line, s.pos, Render(gs))
    requires FitAll(c, s.mode, line, s.pos, Now(s), gs)
    ensures Reads(c, line, s, t, |Render(gs)|) && Outside(t)
    ensures Now(t) == CollectAll(c, Now(s), gs)
  {
    assert gs[..|gs|] == gs;
    var p, a;
    t, p, a := SegmentsTo(c, line, s, gs, |gs|);
  }

  /** What a line starts from. */
  function Given(i: Input): Collected {
    Collected(i.buffer, false, false)
  }

  /** The newline behind a line's text is dropped only behind a DELIMITER command. */
  lemma NewlineBehind(c: Client, t: State)
    requires Outside(t)
    ensures var a, b := t.Accepted(), Finish(c, false, t).buffer;
            || b == a + "\n" || (a == "" && b == "")
            || (b == a && exists k :: 0 <= k <= |a| && IsDelimiterCommand(c, a[k..]))
  {
    var a := t.Accepted();
    Assoc(t.buffer, t.tail, "\n");
    assert a[|t.buffer|..] == t.tail;
  }

  /**
   A line that only adds segments: the statement grows by the text they stand
   for. The newline behind it is text as well, unless a DELIMITER command ends
   the line.
   */
  lemma LineMeaning(c: Client, gs: seq<Segment>, i: Input)
    requires i.inString == NUL && !i.mlComment
    requires FitAll(c, i.mode, Render(gs), 0, Given(i), gs)
    ensures var a := CollectAll(c, Given(i), gs).text;
            var r := AddLine(c, Render(gs), false, i);
            && !r.quit && r.input == i.(buffer := r.input.buffer)
            && (|| r.input.buffer == a + "\n" || (a == "" && r.input.buffer == "")
                || (r.input.buffer == a && exists k :: 0 <= k <= |a| && IsDelimiterCommand(c, a[k..])))
  {
    var line := Render(gs);
    assert Begin(i).Accepted() == i.buffer;
    assert StartsWith(line, 0, line);
    var t := SegmentsStep(c, line, Begin(i), gs);
    assert Lex(c, line, t) == Break(t);
    NewlineBehind(c, t);
  }

  /** A statement that ends at the cursor is the next entry in the log of the whole line. */
  lemma SentFirst(c: Client, line: string, t: State)
    requires t.pos < |line| && Outside(t) && line[t.pos] != '\\' && StartsWith(line, t.pos, t.mode.delimiter)
    requires c.isSpace(line[t.pos]) ==> t.Accepted() != ""
    ensures t.log + [Statement(t.Accepted(), t.mode)] <= Lex(c, line, t).s.log
  {
    assert t.AtStatementStart() ==> t.Accepted() == "";
    assert Step(c, line, t) == StepDelimiter(c, t);
    StepAdvances(c, line, t);
    var o := StepDelimiter(c, t);
    if o.Continue? {
      LexKeepsText(c, line, o.s);
    }
  }

  /**
   A line whose segments are followed by the delimiter: the first thing it does
   is to hand over exactly the text the segments stand for.
   */
  lemma StatementIsSent(c: Client, gs: seq<Segment>, rest: string, truncated: bool, i: Input)
    requires i.inString == NUL && !i.mlComment && i.mode.delimiter[0] != '\\'
    requires FitAll(c, i.mode, Render(gs) + i.mode.delimiter + rest, 0, Given(i), gs)
    requires c.isSpace(i.mode.delimiter[0]) ==> CollectAll(c, Given(i), gs).text != ""
    ensures var sent := Statement(CollectAll(c, Given(i), gs).text, i.mode);
            i.log + [sent] <= AddLine(c, Render(gs) + i.mode.delimiter + rest, truncated, i).input.log
  {
    var d := i.mode.delimiter;
    var line := Render(gs) + d + rest;
    assert Begin(i).Accepted() == i.buffer;
    assert line[0..|Render(gs)|] == Render(gs);
    var t := SegmentsStep(c, line, Begin(i), gs);
    StartsWithMiddle(Render(gs), d, rest);
    StartsWithAt(line, t.pos, d, 0);
    SentFirst(c, line, t);
  }
}
