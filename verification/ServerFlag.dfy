/**
 The lexer's flag for comments for the server, and the text.

 Inside such a comment the arguments of a command end with the comment, elsewhere
 with the delimiter, so the lexer remembers whether one is open. `InServer` reads
 that off the collected text. The flag agrees with the text only for comments that
 were opened on the same line, and with the first of the two marks: the exact
 condition is `Agrees`.
 */
module ServerFlag {
  import opened Basics
  import opened LineLexer
  import opened StatementText
  import opened StatementMeaning
  import opened ServerComments

  // A text read from scratch.

  /** How far a mark has got, outside a server comment and inside one. */
  datatype Depth = Out | OutSlash | OutStar | OutStarM | In | InStar

  function Leave(ch: char): Depth {
    if ch == '/' then OutSlash else Out
  }

  function NextDepth(k: Depth, ch: char): Depth {
    match k
    case Out => Leave(ch)
    case OutSlash => if ch == '*' then OutStar else Leave(ch)
    case OutStar => if ch == '!' then In else if ch == 'M' then OutStarM else Leave(ch)
    case OutStarM => if ch == '!' then In else Leave(ch)
    case In => if ch == '*' then InStar else In
    case InStar => if ch == '/' then Out else if ch == '*' then InStar else In
  }

  function DepthOf(mode: Mode, text: string): Depth {
    if text == "" then Out
    else
      var n := |text| - 1;
      var k := DepthOf(mode, text[..n]);
      if Rescan(mode, text[..n]) == CLOSED then NextDepth(k, text[n]) else k
  }

  predicate Within(k: Depth) {
    k == In || k == InStar
  }

  /** The text ends inside a comment for the server. */
  predicate InServer(mode: Mode, text: string) {
    Within(DepthOf(mode, text))
  }

  lemma DepthAppend(mode: Mode, text: string, ch: char)
    ensures DepthOf(mode, text + [ch]) ==
            if Rescan(mode, text) == CLOSED then NextDepth(DepthOf(mode, text), ch) else DepthOf(mode, text)
  {
    assert (text + [ch])[..|text|] == text;
  }

  // The segments of a line.

  function OpenAfter(g: Segment, open: bool): bool {
    match g
    case Opening(_) => true
    case Closing => false
    case _ => open
  }

  /** Whether a server comment is open behind the segments, if `was` says so in front of them. */
  function OpenBehind(gs: seq<Segment>, was: bool): bool {
    if gs == [] then was else OpenAfter(gs[|gs| - 1], OpenBehind(gs[..|gs| - 1], was))
  }

  /** The mark among the segments that decides it, if any, is one that the lexer notices. */
  predicate Agrees(gs: seq<Segment>, was: bool) {
    if gs == [] then !was
    else
      match gs[|gs| - 1]
      case Opening(maria) => !maria || Noticed(gs[..|gs| - 1])
      case Closing => true
      case Nested(_, _) => !OpenBehind(gs[..|gs| - 1], was)
      case _ => Agrees(gs[..|gs| - 1], was)
  }

  /** An opening of the first kind stands behind the last closing mark and the last nested comment. */
  predicate Noticed(gs: seq<Segment>) {
    gs != [] &&
    match gs[|gs| - 1]
    case Opening(maria) => !maria || Noticed(gs[..|gs| - 1])
    case Closing => false
    case Nested(_, _) => false
    case _ => Noticed(gs[..|gs| - 1])
  }

  /** Whether a depth is inside a server comment; nothing in the midst of a mark, which `next` may go on. */
  function Stands(k: Depth, owed: bool, next: char): Option<bool> {
    if k == OutStar || k == OutStarM then None
    else if !owed && ((k == OutSlash && next == '*') || (k == InStar && next == '/')) then None
    else Some(Within(k))
  }

  /** Whether the text in front of `p` is; nothing inside quotes either. */
  function Standing(mode: Mode, line: string, p: nat, a: Collected): Option<bool> {
    if Rescan(mode, a.text) != CLOSED then None else Stands(DepthOf(mode, a.text), a.owed, At(line, p))
  }

  predicate Unspaced(c: Client) {
    !c.isSpace('/') && !c.isSpace('*')
  }

  lemma OrdinaryAppend(mode: Mode, a: string, ch: char)
    requires Rescan(mode, a) == CLOSED && (OrdinaryChar(ch) || ch == ' ')
    ensures Rescan(mode, a + [ch]) == CLOSED && DepthOf(mode, a + [ch]) == NextDepth(DepthOf(mode, a), ch)
  {
    RescanAppend(mode, a, ch);
    DepthAppend(mode, a, ch);
  }

  /** What a kept character does to the depth, the owed space in front of it included. */
  lemma CharDepth(c: Client, mode: Mode, a: Collected, ch: char)
    requires Rescan(mode, a.text) == CLOSED && OrdinaryChar(ch) && !(c.isSpace(ch) && a.text == "")
    ensures var b := CollectChar(c, a, ch);
            var k := DepthOf(mode, a.text);
            && Rescan(mode, b.text) == CLOSED && !b.owed && b.text != ""
            && DepthOf(mode, b.text) == NextDepth(if a.owed && !c.isSpace(ch) then NextDepth(k, ' ') else k, ch)
  {
    if a.owed && !c.isSpace(ch) {
      OrdinaryAppend(mode, a.text, ' ');
      OrdinaryAppend(mode, a.text + [' '], ch);
      assert a.text + [' ', ch] == a.text + [' '] + [ch];
    } else {
      OrdinaryAppend(mode, a.text, ch);
    }
  }

  lemma NextStands(k: Depth, owed: bool, spaced: bool, ch: char, next: char, open: bool)
    requires Stands(k, owed, ch) == Some(open) && (spaced ==> owed) && (owed && (ch == '*' || ch == '/') ==> spaced)
    requires !(ch == '/' && next == '*') && !(ch == '*' && next == '/')
    ensures Stands(NextDepth(if spaced then NextDepth(k, ' ') else k, ch), false, next) == Some(open)
  {
  }

  /** A character of plain text opens and closes no server comment. */
  lemma PlainCharLevel(c: Client, d: Delimiter, mode: Mode, line: string, p: nat, a: Collected, open: bool)
    requires p < |line| && Kept(c, d, line, p, a.text == "") && !MarkAt(line, p)
    requires Standing(mode, line, p, a) == Some(open) && Unspaced(c)
    ensures Standing(mode, line, p + 1, CollectChar(c, a, line[p])) == Some(open)
  {
    var ch := line[p];
    if !(c.isSpace(ch) && a.text == "") {
      CharDepth(c, mode, a, ch);
      NextStands(DepthOf(mode, a.text), a.owed, a.owed && !c.isSpace(ch), ch, At(line, p + 1), open);
    }
  }

  lemma {:induction false} PlainLevel(c: Client, d: Delimiter, mode: Mode, line: string, p: nat, t: string,
                                      a: Collected, open: bool)
    requires StartsWith(line, p, t) && PlainFits(c, d, line, p, |t|, a)
    requires Standing(mode, line, p, a) == Some(open) && Unspaced(c)
    ensures Standing(mode, line, p + |t|, CollectPlain(c, a, t)) == Some(open)
    decreases |t|
  {
    if t == "" {
    } else {
      StartsWithAt(line, p, t, 0);
      PlainCharLevel(c, d, mode, line, p, a, open);
      StartsWithRest(line, p, t, 1);
      PlainLevel(c, d, mode, line, p + 1, t[1..], CollectChar(c, a, t[0]), open);
    }
  }

  /** Inside quotes nothing counts. */
  lemma {:induction false} BodyDepth(mode: Mode, a: string, q: char, t: string)
    requires IsQuote(q) && Rescan(mode, a) == Scan(q, false) && Body(mode, q, t)
    ensures Rescan(mode, a + t) == Scan(q, false) && DepthOf(mode, a + t) == DepthOf(mode, a)
    decreases |t|
  {
    if t == "" {
      assert a + t == a;
    } else {
      RescanAppend(mode, a, t[0]);
      DepthAppend(mode, a, t[0]);
      if t[0] == '\\' && BackslashActive(mode, q) {
        var b := a + [t[0]];
        RescanAppend(mode, b, t[1]);
        DepthAppend(mode, b, t[1]);
        BodyDepth(mode, b + [t[1]], q, t[2..]);
        assert b + [t[1]] + t[2..] == a + t;
      } else {
        BodyDepth(mode, a + [t[0]], q, t[1..]);
        assert a + [t[0]] + t[1..] == a + t;
      }
    }
  }

  lemma QuoteDepth(mode: Mode, a: string, q: char)
    requires Rescan(mode, a) == CLOSED && IsQuote(q)
    ensures Rescan(mode, a + [q]) == Scan(q, false)
    ensures DepthOf(mode, a + [q]) == if Within(DepthOf(mode, a)) then In else Out
  {
    RescanAppend(mode, a, q);
    DepthAppend(mode, a, q);
  }

  lemma OpenQuoteDepth(c: Client, mode: Mode, a: Collected, q: char)
    requires Rescan(mode, a.text) == CLOSED && IsQuote(q) && !c.isSpace(q)
    ensures var b := CollectChar(c, a, q).text;
            Rescan(mode, b) == Scan(q, false) && DepthOf(mode, b) == if Within(DepthOf(mode, a.text)) then In else Out
  {
    if a.owed {
      OrdinaryAppend(mode, a.text, ' ');
      QuoteDepth(mode, a.text + [' '], q);
      assert a.text + [' ', q] == a.text + [' '] + [q];
    } else {
      QuoteDepth(mode, a.text, q);
    }
  }

  lemma QuotedDepth(c: Client, mode: Mode, a: Collected, q: char, t: string) returns (x: string)
    requires Rescan(mode, a.text) == CLOSED && IsQuote(q) && !c.isSpace(q) && Body(mode, q, t)
    ensures x == CollectChar(c, a, q).text + t + [q]
    ensures Rescan(mode, x) == CLOSED && DepthOf(mode, x) == if Within(DepthOf(mode, a.text)) then In else Out
  {
    x := CollectChar(c, a, q).text;
    OpenQuoteDepth(c, mode, a, q);
    BodyDepth(mode, x, q, t);
    x := x + t;
    RescanAppend(mode, x, q);
    DepthAppend(mode, x, q);
    x := x + [q];
  }

  lemma QuotedLevel(c: Client, mode: Mode, line: string, p: nat, a: Collected, q: char, t: string, open: bool)
    requires Standing(mode, line, p, a) == Some(open) && IsQuote(q) && !c.isSpace(q) && Body(mode, q, t)
    ensures Standing(mode, line, p + |t| + 2, Collect(c, a, Quoted(q, t))) == Some(open)
  {
    var x := QuotedDepth(c, mode, a, q, t);
    SettledLevel(mode, line, p + |t| + 2, a.(text := x, owed := false), open);
  }

  lemma SettledLevel(mode: Mode, line: string, p: nat, a: Collected, open: bool)
    requires Rescan(mode, a.text) == CLOSED && DepthOf(mode, a.text) == if open then In else Out
    ensures Standing(mode, line, p, a) == Some(open)
  {
  }

  lemma OutLevel(mode: Mode, line: string, p: nat, b: Collected)
    requires Rescan(mode, b.text) == CLOSED && At(line, p) != '*'
    requires DepthOf(mode, b.text) == Out || DepthOf(mode, b.text) == OutSlash
    ensures Standing(mode, line, p, b) == Some(false)
  {
  }

  /** An opening mark leads into a server comment, or stays in one. */
  lemma OpeningDepth(c: Client, mode: Mode, a: Collected, maria: bool) returns (b: Collected)
    requires Rescan(mode, a.text) == CLOSED && !c.isSpace('/') && (!a.owed ==> DepthOf(mode, a.text) != InStar)
    ensures b == CollectPlain(c, a, Mark(maria))
    ensures !b.owed && Rescan(mode, b.text) == CLOSED && DepthOf(mode, b.text) == In
  {
    b := CollectChar(c, a, '/');
    CharDepth(c, mode, a, '/');
    assert DepthOf(mode, b.text) == OutSlash || DepthOf(mode, b.text) == In;
    MarkDepth(mode, b.text, maria);
    CollectVerbatim(c, b, Mark(maria)[1..]);
    b := b.(text := b.text + Mark(maria)[1..]);
  }

  lemma MarkDepth(mode: Mode, b: string, maria: bool)
    requires Rescan(mode, b) == CLOSED && (DepthOf(mode, b) == OutSlash || DepthOf(mode, b) == In)
    ensures Rescan(mode, b + Mark(maria)[1..]) == CLOSED && DepthOf(mode, b + Mark(maria)[1..]) == In
  {
    var b1 := b + ['*'];
    OrdinaryAppend(mode, b, '*');
    if maria {
      OrdinaryAppend(mode, b1, 'M');
      OrdinaryAppend(mode, b1 + ['M'], '!');
      assert b + Mark(maria)[1..] == b1 + ['M'] + ['!'];
    } else {
      OrdinaryAppend(mode, b1, '!');
      assert b + Mark(maria)[1..] == b1 + ['!'];
    }
  }

  /** A closing mark leads out of it, or stays outside. */
  lemma ClosingDepth(c: Client, mode: Mode, a: Collected) returns (b: Collected)
    requires Rescan(mode, a.text) == CLOSED && !c.isSpace('*')
    requires DepthOf(mode, a.text) != OutStar && DepthOf(mode, a.text) != OutStarM
    requires !a.owed ==> DepthOf(mode, a.text) != OutSlash
    ensures b == CollectPlain(c, a, "*/")
    ensures !b.owed && Rescan(mode, b.text) == CLOSED && (DepthOf(mode, b.text) == Out || DepthOf(mode, b.text) == OutSlash)
  {
    b := CollectChar(c, a, '*');
    CharDepth(c, mode, a, '*');
    assert DepthOf(mode, b.text) == InStar || DepthOf(mode, b.text) == Out;
    OrdinaryAppend(mode, b.text, '/');
    assert "*/"[1..] == "/" == ['/'];
    CollectVerbatim(c, b, "/");
    b := b.(text := b.text + ['/']);
  }

  lemma BehindClosing(line: string, p: nat)
    requires StartsWith(line, p, "*/") && !OpensComment(line, p + 1) && !MarkAt(line, p + 1)
    ensures At(line, p) == '*' && At(line, p + 2) != '*'
  {
    StartsWithAt(line, p, "*/", 0);
    StartsWithAt(line, p, "*/", 1);
  }

  // Each segment moves the level as its kind says.

  lemma OpeningLevel(c: Client, mode: Mode, line: string, p: nat, a: Collected, g: Segment, open: bool)
    returns (q: nat, b: Collected, now: bool)
    requires Standing(mode, line, p, a) == Some(open) && Unspaced(c) && g.Opening? && StartsWith(line, p, RenderOne(g))
    ensures q == p + |RenderOne(g)| && b == Collect(c, a, g) && now == OpenAfter(g, open)
    ensures Standing(mode, line, q, b) == Some(now)
  {
    StartsWithAt(line, p, Mark(g.maria), 0);
    q, now := p + |Mark(g.maria)|, true;
    b := OpeningDepth(c, mode, a.(server := a.server || !g.maria), g.maria);
    SettledLevel(mode, line, q, b, true);
  }

  lemma ClosingLevel(c: Client, mode: Mode, line: string, p: nat, a: Collected, g: Segment, open: bool)
    returns (q: nat, b: Collected, now: bool)
    requires Standing(mode, line, p, a) == Some(open) && Unspaced(c) && g == Closing && StartsWith(line, p, RenderOne(g))
    requires !OpensComment(line, p + 1) && !MarkAt(line, p + 1)
    ensures q == p + |RenderOne(g)| && b == Collect(c, a, g) && now == OpenAfter(g, open)
    ensures Standing(mode, line, q, b) == Some(now)
  {
    BehindClosing(line, p);
    q, now := p + 2, false;
    b := ClosingDepth(c, mode, a.(server := false));
    OutLevel(mode, line, q, b);
  }

  lemma TextLevel(c: Client, mode: Mode, line: string, p: nat, a: Collected, g: Segment, open: bool)
    returns (q: nat, b: Collected, now: bool)
    requires Standing(mode, line, p, a) == Some(open) && Unspaced(c) && !g.Opening? && !g.Closing?
    requires StartsWith(line, p, RenderOne(g)) && Fits(c, mode, line, p, a, g)
    ensures q == p + |RenderOne(g)| && b == Collect(c, a, g) && now == OpenAfter(g, open)
    ensures Standing(mode, line, q, b) == Some(now)
  {
    q, b, now := p + |RenderOne(g)|, Collect(c, a, g), open;
    match g {
      case Plain(t) => PlainLevel(c, mode.delimiter, mode, line, p, t, a, open);
      case Quoted(x, t) => QuotedLevel(c, mode, line, p, a, x, t, open);
      case _ =>
    }
  }

  lemma SegmentLevel(c: Client, mode: Mode, line: string, p: nat, a: Collected, g: Segment, open: bool)
    returns (q: nat, b: Collected, now: bool)
    requires Standing(mode, line, p, a) == Some(open) && Unspaced(c) && StartsWith(line, p, RenderOne(g))
    requires Fits(c, mode, line, p, a, g)
    ensures q == p + |RenderOne(g)| && b == Collect(c, a, g) && now == OpenAfter(g, open)
    ensures Standing(mode, line, q, b) == Some(now)
  {
    if g.Opening? {
      q, b, now := OpeningLevel(c, mode, line, p, a, g, open);
    } else if g.Closing? {
      q, b, now := ClosingLevel(c, mode, line, p, a, g, open);
    } else {
      q, b, now := TextLevel(c, mode, line, p, a, g, open);
    }
  }

  lemma OpenMore(gs: seq<Segment>, m: nat, was: bool)
    requires m < |gs|
    ensures OpenBehind(gs[..m + 1], was) == OpenAfter(gs[m], OpenBehind(gs[..m], was))
  {
    assert gs[..m + 1][..m] == gs[..m];
  }

  lemma SegmentLevelAt(c: Client, mode: Mode, line: string, a: Collected, gs: seq<Segment>, m: nat,
                       p: nat, b: Collected, open: bool)
    returns (q: nat, b': Collected, now: bool)
    requires m < |gs| && FitAll(c, mode, line, 0, a, gs) && Unspaced(c)
    requires p == |Render(gs[..m])| && b == CollectAll(c, a, gs[..m])
    requires StartsWith(line, p, RenderOne(gs[m])) && Standing(mode, line, p, b) == Some(open)
    ensures q == |Render(gs[..m + 1])| && b' == CollectAll(c, a, gs[..m + 1]) && now == OpenAfter(gs[m], open)
    ensures Standing(mode, line, q, b') == Some(now)
  {
    OneMore(c, a, gs, m);
    assert FitsAt(c, mode, line, 0, a, gs, m);
    q, b', now := SegmentLevel(c, mode, line, p, b, gs[m], open);
  }

  /** The level behind the first `n` segments. */
  lemma {:induction false} SegmentsLevel(c: Client, mode: Mode, line: string, a: Collected, gs: seq<Segment>,
                                         n: nat, was: bool)
    returns (p: nat, b: Collected, open: bool)
    requires n <= |gs| && Unspaced(c) && Standing(mode, line, 0, a) == Some(was)
    requires StartsWith(line, 0, Render(gs[..n])) && FitAll(c, mode, line, 0, a, gs)
    ensures p == |Render(gs[..n])| && b == CollectAll(c, a, gs[..n]) && open == OpenBehind(gs[..n], was)
    ensures Standing(mode, line, p, b) == Some(open)
    decreases n
  {
    if n == 0 {
      p, b, open := 0, a, was;
    } else {
      var m := n - 1;
      OpenMore(gs, m, was);
      RenderPart(line, 0, gs, m);
      p, b, open := SegmentsLevel(c, mode, line, a, gs, m, was);
      p, b, open := SegmentLevelAt(c, mode, line, a, gs, m, p, b, open);
    }
  }

  lemma {:induction false} CharsKeepFlag(c: Client, a: Collected, t: string)
    ensures CollectPlain(c, a, t).server == a.server
    decreases |t|
  {
    if t == "" {
    } else {
      CharsKeepFlag(c, CollectChar(c, a, t[0]), t[1..]);
    }
  }

  lemma {:induction false} FlagIsNoticed(c: Client, a: Collected, gs: seq<Segment>)
    requires !a.server
    ensures CollectAll(c, a, gs).server == Noticed(gs)
  {
    if gs == [] {
    } else {
      var n := |gs| - 1;
      FlagIsNoticed(c, a, gs[..n]);
      var b := CollectAll(c, a, gs[..n]);
      match gs[n] {
        case Plain(t) => CharsKeepFlag(c, b, t);
        case Opening(maria) => CharsKeepFlag(c, b.(server := b.server || !maria), Mark(maria));
        case Closing => CharsKeepFlag(c, b.(server := false), "*/");
        case _ =>
      }
    }
  }

  lemma {:induction false} NoticedIff(gs: seq<Segment>, was: bool)
    ensures Noticed(gs) == OpenBehind(gs, was) <==> Agrees(gs, was)
  {
    if gs == [] {
    } else {
      NoticedIff(gs[..|gs| - 1], was);
    }
  }

  /**
   On a line that goes on with a statement of whole lines: behind the line's segments
   the flag tells whether the text is inside a server comment, if and only if the
   last mark on the line is a closing one or an opening that the lexer notices, or
   there is none and the text was outside before. Behind a nested comment it never
   does inside a server comment.
   */
  lemma FlagAgreesIff(c: Client, gs: seq<Segment>, i: Input) returns (t: State)
    requires i.inString == NUL && !i.mlComment && Rescan(i.mode, i.buffer) == CLOSED && Unspaced(c)
    requires i.buffer != "" ==> i.buffer[|i.buffer| - 1] == '\n'
    requires FitAll(c, i.mode, Render(gs), 0, Given(i), gs)
    ensures Lex(c, Render(gs), Begin(i)) == Break(t) && t.Accepted() == CollectAll(c, Given(i), gs).text
    ensures t.ssComment == Noticed(gs) && InServer(i.mode, t.Accepted()) == OpenBehind(gs, InServer(i.mode, i.buffer))
    ensures t.ssComment == InServer(i.mode, t.Accepted()) <==> Agrees(gs, InServer(i.mode, i.buffer))
  {
    var line := Render(gs);
    assert Begin(i).Accepted() == i.buffer && gs[..|gs|] == gs && StartsWith(line, 0, line);
    t := SegmentsStep(c, line, Begin(i), gs);
    assert Lex(c, line, t) == Break(t);
    NewlineLevel(i.mode, line, i.buffer);
    var p, b, open := SegmentsLevel(c, i.mode, line, Given(i), gs, |gs|, InServer(i.mode, i.buffer));
    FlagIsNoticed(c, Given(i), gs);
    NoticedIff(gs, InServer(i.mode, i.buffer));
  }

  lemma NewlineLevel(mode: Mode, line: string, text: string)
    requires Rescan(mode, text) == CLOSED && (text != "" ==> text[|text| - 1] == '\n')
    ensures Standing(mode, line, 0, Collected(text, false, false)) == Some(InServer(mode, text))
  {
    if text != "" {
      var n := |text| - 1;
      OpenQuoteIsQuote(mode, text[..n]);
      assert text == text[..n] + ['\n'];
      DepthAppend(mode, text[..n], '\n');
      if Rescan(mode, text[..n]) != CLOSED {
        assert n > 0 && text[..n] == text[..n - 1] + [text[n - 1]];
        RescanAppend(mode, text[..n - 1], text[n - 1]);
        DepthAppend(mode, text[..n - 1], text[n - 1]);
      }
    }
  }

  lemma MarkFitsAlone(c: Client, mode: Mode, maria: bool)
    requires Apart(mode.delimiter) && Unspaced(c)
    ensures FitAll(c, mode, Mark(maria), 0, Given(Fresh(mode)), [Opening(maria)]) && Render([Opening(maria)]) == Mark(maria)
  {
    var gs, mark := [Opening(maria)], Mark(maria);
    OpeningIs(c, maria);
    assert gs[..0] == [] && StartsWith(mark, 0, mark);
    NoDelimiterInMark(mark, 0, mode.delimiter, mark);
    assert FitsAt(c, mode, mark, 0, Given(Fresh(mode)), gs, 0);
  }

  /** The flag misses a comment opened with the second mark ... */
  lemma FlagMissesSecondMark(c: Client, mode: Mode) returns (t: State)
    requires Apart(mode.delimiter) && Unspaced(c)
    ensures Lex(c, "/*M!", Begin(Fresh(mode))) == Break(t) && !t.ssComment && InServer(mode, t.Accepted())
  {
    MarkFitsAlone(c, mode, true);
    t := FlagAgreesIff(c, [Opening(true)], Fresh(mode));
  }

  /** ... and one opened on an earlier line. */
  lemma FlagMissesEarlierLine(c: Client, mode: Mode, i: Input)
    requires i == Input("/*!\n", NUL, false, mode, [])
    ensures !Begin(i).ssComment && InServer(mode, i.buffer)
  {
    OrdinaryAppend(mode, "", '/');
    MarkDepth(mode, "/", false);
    assert "" + ['/'] == "/" && "/" + Mark(false)[1..] == "/*!";
    OrdinaryAppend(mode, "/*!", '\n');
    assert "/*!" + ['\n'] == "/*!\n";
  }
}
