/**
 Where a text opens a comment, read from scratch.

 `BlockAt` and `DashAt` say at which places outside quotes a text opens a comment
 that the server would ignore. `Track` reads a text once, from front to back, and
 keeps how far an opening has got; a text that tracks as quiet has none.
 */
module CommentMarks {
  import opened Basics
  import opened LineLexer
  import opened StatementText

  /** A comment in slashes and stars; one whose opening goes on with `!` or `M!` is code for the server. */
  predicate BlockAt(mode: Mode, text: string, i: nat) {
    i < |text| && Rescan(mode, text[..i]) == CLOSED && OpensComment(text, i)
  }

  /** A comment to the end of the line: a hash, or two dashes and white space. */
  predicate DashAt(c: Client, mode: Mode, text: string, i: nat) {
    && i < |text| && Rescan(mode, text[..i]) == CLOSED
    && (text[i] == '#' || (i + 2 < |text| && text[i] == '-' && text[i + 1] == '-' && c.isSpace(text[i + 2])))
  }

  /** What is looked for: comments in slashes and stars, and also those to the end of the line. */
  datatype Watch = Watch(c: Client, dashes: bool)

  /** How far an opening has got at the end of a text; `Opened` is for good. */
  datatype Opening = Free | Slash | Star | StarM | Dash | Dashes | Opened

  function Start(w: Watch, ch: char): Opening {
    if ch == '/' then Slash
    else if w.dashes && ch == '-' then Dash
    else if w.dashes && ch == '#' then Opened
    else Free
  }

  function NextOpening(w: Watch, k: Opening, ch: char): Opening {
    match k
    case Free => Start(w, ch)
    case Slash => if ch == '*' then Star else Start(w, ch)
    case Star => if ch == '!' then Free else if ch == 'M' then StarM else Opened
    case StarM => if ch == '!' then Free else Opened
    case Dash => if ch == '-' then Dashes else Start(w, ch)
    case Dashes => if w.c.isSpace(ch) then Opened else if ch == '-' then Dashes else Start(w, ch)
    case Opened => Opened
  }

  function Track(w: Watch, mode: Mode, text: string): Opening {
    if text == "" then Free
    else
      var n := |text| - 1;
      var k := Track(w, mode, text[..n]);
      if Rescan(mode, text[..n]) == CLOSED then NextOpening(w, k, text[n]) else k
  }

  /** No comment is open. */
  predicate Quiet(k: Opening) {
    k == Free || k == Slash || k == Dash || k == Dashes
  }

  /** ... and none would be if white space followed. */
  predicate Still(k: Opening) {
    k == Free || k == Slash || k == Dash
  }

  lemma TrackAppend(w: Watch, mode: Mode, text: string, ch: char)
    ensures Track(w, mode, text + [ch]) ==
            if Rescan(mode, text) == CLOSED then NextOpening(w, Track(w, mode, text), ch) else Track(w, mode, text)
  {
    assert (text + [ch])[..|text|] == text;
  }

  lemma TrackPrefix(w: Watch, mode: Mode, text: string, n: nat)
    requires n < |text|
    ensures Track(w, mode, text[..n + 1]) ==
            if Rescan(mode, text[..n]) == CLOSED then NextOpening(w, Track(w, mode, text[..n]), text[n])
            else Track(w, mode, text[..n])
  {
    assert text[..n + 1] == text[..n] + [text[n]];
    TrackAppend(w, mode, text[..n], text[n]);
  }

  lemma {:induction false} OpenedForGood(w: Watch, mode: Mode, text: string, n: nat)
    requires n <= |text| && Track(w, mode, text[..n]) == Opened
    ensures Track(w, mode, text) == Opened
  {
    if n == |text| {
      assert text[..n] == text;
    } else {
      var m := |text| - 1;
      assert text[..m][..n] == text[..n];
      OpenedForGood(w, mode, text[..m], n);
    }
  }

  /** Behind a plain character outside quotes the text is still outside quotes. */
  lemma StaysClosed(mode: Mode, text: string, n: nat)
    requires n < |text| && Rescan(mode, text[..n]) == CLOSED
    requires text[n] != '\\' && text[n] != NUL && !IsQuote(text[n])
    ensures Rescan(mode, text[..n + 1]) == CLOSED
  {
    assert text[..n + 1] == text[..n] + [text[n]];
    RescanAppend(mode, text[..n], text[n]);
  }

  /** Behind a slash and a star an opening is on its way, unless one has been completed. */
  lemma TrackAfterMark(w: Watch, mode: Mode, text: string, i: nat)
    requires BlockAt(mode, text, i)
    ensures Track(w, mode, text[..i + 2]) == Star || Track(w, mode, text[..i + 2]) == Opened
    ensures Rescan(mode, text[..i + 2]) == CLOSED
  {
    TrackPrefix(w, mode, text, i);
    StaysClosed(mode, text, i);
    TrackPrefix(w, mode, text, i + 1);
    StaysClosed(mode, text, i + 1);
  }

  lemma BlockTracks(w: Watch, mode: Mode, text: string, i: nat)
    requires BlockAt(mode, text, i)
    ensures !Quiet(Track(w, mode, text))
  {
    TrackAfterMark(w, mode, text, i);
    if i + 2 == |text| {
      assert text[..i + 2] == text;
    } else {
      TrackPrefix(w, mode, text, i + 2);
      if Track(w, mode, text[..i + 3]) == Opened {
        OpenedForGood(w, mode, text, i + 3);
      } else {
        StaysClosed(mode, text, i + 2);
        if i + 3 == |text| {
          assert text[..i + 3] == text;
        } else {
          TrackPrefix(w, mode, text, i + 3);
          OpenedForGood(w, mode, text, i + 4);
        }
      }
    }
  }

  /** Behind two dashes white space completes an opening. */
  lemma TrackAfterDashes(w: Watch, mode: Mode, text: string, i: nat)
    requires w.dashes && i + 1 < |text| && Rescan(mode, text[..i]) == CLOSED && text[i] == '-' && text[i + 1] == '-'
    ensures Track(w, mode, text[..i + 2]) == Dashes || Track(w, mode, text[..i + 2]) == Opened
    ensures Rescan(mode, text[..i + 2]) == CLOSED
  {
    TrackPrefix(w, mode, text, i);
    StaysClosed(mode, text, i);
    TrackPrefix(w, mode, text, i + 1);
    StaysClosed(mode, text, i + 1);
  }

  lemma SpaceOpens(w: Watch, mode: Mode, text: string, n: nat)
    requires n < |text| && Rescan(mode, text[..n]) == CLOSED && w.c.isSpace(text[n])
    requires Track(w, mode, text[..n]) == Dashes || Track(w, mode, text[..n]) == Opened
    ensures Track(w, mode, text[..n + 1]) == Opened
  {
    TrackPrefix(w, mode, text, n);
  }

  lemma DashTracks(w: Watch, mode: Mode, text: string, i: nat)
    requires w.dashes && DashAt(w.c, mode, text, i)
    ensures Track(w, mode, text) == Opened
  {
    if text[i] == '#' {
      TrackPrefix(w, mode, text, i);
      OpenedForGood(w, mode, text, i + 1);
    } else {
      TrackAfterDashes(w, mode, text, i);
      SpaceOpens(w, mode, text, i + 2);
      OpenedForGood(w, mode, text, i + 3);
    }
  }

  /** A text that tracks as quiet opens no comment anywhere. */
  lemma QuietOpensNothing(w: Watch, mode: Mode, text: string, i: nat)
    requires Quiet(Track(w, mode, text))
    ensures !BlockAt(mode, text, i)
    ensures w.dashes ==> !DashAt(w.c, mode, text, i)
  {
    if BlockAt(mode, text, i) {
      BlockTracks(w, mode, text, i);
    }
    if w.dashes && DashAt(w.c, mode, text, i) {
      DashTracks(w, mode, text, i);
    }
  }

  /** A mark that no text behind it can undo. */
  predicate SettledAt(mode: Mode, text: string, i: nat) {
    BlockAt(mode, text, i) && i + 2 < |text| && (text[i + 2] == 'M' ==> i + 3 < |text|)
  }

  lemma SettledOn(w: Watch, mode: Mode, text: string, i: nat, ch: char)
    requires SettledAt(mode, text, i) || (w.dashes && DashAt(w.c, mode, text, i))
    ensures SettledAt(mode, text + [ch], i) || (w.dashes && DashAt(w.c, mode, text + [ch], i))
  {
    assert (text + [ch])[..i] == text[..i];
  }

  /** Outside quotes a step of the tracking is a step of the automaton. */
  lemma TrackLast(w: Watch, mode: Mode, text: string)
    requires text != "" && Track(w, mode, text) != Free && Track(w, mode, text) != Opened
    ensures var n := |text| - 1;
            Rescan(mode, text[..n]) == CLOSED && Track(w, mode, text) == NextOpening(w, Track(w, mode, text[..n]), text[n])
  {
    TrackShape(w, mode, text[..|text| - 1]);
  }

  lemma SlashEnds(w: Watch, mode: Mode, text: string)
    requires Track(w, mode, text) == Slash
    ensures text != "" && text[|text| - 1] == '/' && Rescan(mode, text[..|text| - 1]) == CLOSED
  {
    TrackLast(w, mode, text);
  }

  lemma StarEnds(w: Watch, mode: Mode, text: string)
    requires Track(w, mode, text) == Star
    ensures |text| >= 2 && text[|text| - 2] == '/' && text[|text| - 1] == '*'
    ensures Rescan(mode, text[..|text| - 2]) == CLOSED
  {
    var n := |text| - 1;
    TrackLast(w, mode, text);
    SlashEnds(w, mode, text[..n]);
    assert text[..n][..n - 1] == text[..n - 1];
  }

  lemma StarMEnds(w: Watch, mode: Mode, text: string)
    requires Track(w, mode, text) == StarM
    ensures |text| >= 3 && text[|text| - 3] == '/' && text[|text| - 2] == '*' && text[|text| - 1] == 'M'
    ensures Rescan(mode, text[..|text| - 3]) == CLOSED
  {
    var n := |text| - 1;
    TrackLast(w, mode, text);
    StarEnds(w, mode, text[..n]);
    assert text[..n][..n - 2] == text[..n - 2];
  }

  lemma DashesEnd(w: Watch, mode: Mode, text: string)
    requires Track(w, mode, text) == Dashes
    ensures |text| >= 2 && text[|text| - 2] == '-' && text[|text| - 1] == '-'
    ensures Rescan(mode, text[..|text| - 2]) == CLOSED
  {
    var n := |text| - 1;
    TrackLast(w, mode, text);
    TrackLast(w, mode, text[..n]);
    TrackShape(w, mode, text[..n]);
    assert text[..n][..n - 1] == text[..n - 1];
  }

  /** The place of a mark that the last character completes. */
  lemma CompletedAt(w: Watch, mode: Mode, text: string, ch: char) returns (i: nat)
    requires Rescan(mode, text) == CLOSED && Track(w, mode, text) != Opened
    requires NextOpening(w, Track(w, mode, text), ch) == Opened
    ensures SettledAt(mode, text + [ch], i) || (w.dashes && DashAt(w.c, mode, text + [ch], i))
  {
    var n := |text|;
    i := n;
    assert (text + [ch])[..n] == text;
    match Track(w, mode, text) {
      case Star =>
        StarEnds(w, mode, text);
        i := n - 2;
        assert (text + [ch])[..i] == text[..i];
      case StarM =>
        StarMEnds(w, mode, text);
        i := n - 3;
        assert (text + [ch])[..i] == text[..i];
      case Dashes =>
        TrackShape(w, mode, text);
        if w.c.isSpace(ch) {
          DashesEnd(w, mode, text);
          i := n - 2;
          assert (text + [ch])[..i] == text[..i];
        }
      case _ =>
    }
  }

  lemma {:induction false} OpenedSomewhere(w: Watch, mode: Mode, text: string) returns (i: nat)
    requires Track(w, mode, text) == Opened
    ensures SettledAt(mode, text, i) || (w.dashes && DashAt(w.c, mode, text, i))
  {
    var n := |text| - 1;
    assert text == text[..n] + [text[n]];
    if Track(w, mode, text[..n]) == Opened {
      i := OpenedSomewhere(w, mode, text[..n]);
      SettledOn(w, mode, text[..n], i, text[n]);
    } else {
      i := CompletedAt(w, mode, text[..n], text[n]);
    }
  }

  /** A text that does not track as quiet opens a comment somewhere. */
  lemma LoudOpensSomething(w: Watch, mode: Mode, text: string) returns (i: nat)
    requires !Quiet(Track(w, mode, text))
    ensures BlockAt(mode, text, i) || (w.dashes && DashAt(w.c, mode, text, i))
  {
    match Track(w, mode, text) {
      case Star =>
        StarEnds(w, mode, text);
        i := |text| - 2;
      case StarM =>
        StarMEnds(w, mode, text);
        i := |text| - 3;
      case Opened =>
        i := OpenedSomewhere(w, mode, text);
    }
  }

  /** A text opens no comment of the kind looked for, anywhere outside its quotes. */
  ghost predicate Bare(w: Watch, mode: Mode, text: string) {
    forall i :: !BlockAt(mode, text, i) && (w.dashes ==> !DashAt(w.c, mode, text, i))
  }

  /** One pass over the text decides it. */
  lemma QuietIffBare(w: Watch, mode: Mode, text: string)
    ensures Quiet(Track(w, mode, text)) <==> Bare(w, mode, text)
  {
    if Quiet(Track(w, mode, text)) {
      forall i ensures !BlockAt(mode, text, i) && (w.dashes ==> !DashAt(w.c, mode, text, i)) {
        QuietOpensNothing(w, mode, text, i);
      }
    } else {
      var i := LoudOpensSomething(w, mode, text);
    }
  }

  lemma {:induction false} TrackDependsOnEscapes(w: Watch, m: Mode, n: Mode, text: string)
    requires SameEscapes(m, n)
    ensures Track(w, m, text) == Track(w, n, text)
  {
    if text == "" {
    } else {
      TrackDependsOnEscapes(w, m, n, text[..|text| - 1]);
      RescanDependsOnEscapes(m, n, text[..|text| - 1]);
    }
  }

  /** Inside quotes nothing is on its way, and a slash or a dash is only on its way right behind it. */
  lemma {:induction false} TrackShape(w: Watch, mode: Mode, text: string)
    ensures Rescan(mode, text) != CLOSED ==> Track(w, mode, text) == Free || Track(w, mode, text) == Opened
    ensures Track(w, mode, text) == Slash ==> text != "" && text[|text| - 1] == '/'
    ensures Track(w, mode, text) == Dash || Track(w, mode, text) == Dashes ==>
              w.dashes && text != "" && text[|text| - 1] == '-'
  {
    if text == "" {
    } else {
      TrackShape(w, mode, text[..|text| - 1]);
    }
  }

  /** Text inside an open quote changes nothing. */
  lemma QuotedTracks(w: Watch, mode: Mode, a: string, q: char, ch: char, added: string)
    requires Rescan(mode, a) == Scan(q, false) && q != NUL && (added == [ch] || added == [' ', ch])
    ensures Track(w, mode, a + added) == Track(w, mode, a)
  {
    if added == [ch] {
      TrackAppend(w, mode, a, ch);
    } else {
      OpenQuoteIsQuote(mode, a);
      TrackAppend(w, mode, a, ' ');
      RescanAppend(mode, a, ' ');
      TrackAppend(w, mode, a + [' '], ch);
      AppendTwo(a, ' ', ch);
    }
  }

  lemma AppendTwo(a: string, x: char, y: char)
    ensures a + [x, y] == a + [x] + [y]
  {
  }

  /** A space before it, and a character starts anew. */
  lemma SpacedTracks(w: Watch, mode: Mode, a: string, ch: char)
    requires Rescan(mode, a) == CLOSED && Still(Track(w, mode, a))
    ensures Track(w, mode, a + [' ', ch]) == Start(w, ch)
  {
    TrackAppend(w, mode, a, ' ');
    RescanAppend(mode, a, ' ');
    TrackAppend(w, mode, a + [' '], ch);
    AppendTwo(a, ' ', ch);
  }

  /** A backslash and what it escapes start nothing. */
  lemma EscapedTracks(w: Watch, mode: Mode, a: string, q: char, next: char)
    requires Rescan(mode, a) == Scan(q, false) && BackslashActive(mode, q)
    requires Quiet(Track(w, mode, a)) && (Track(w, mode, a) == Dashes ==> !w.c.isSpace('\\'))
    ensures Track(w, mode, a + ['\\', next]) == Free
  {
    TrackShape(w, mode, a);
    TrackAppend(w, mode, a, '\\');
    RescanAppend(mode, a, '\\');
    TrackAppend(w, mode, a + ['\\'], next);
    AppendTwo(a, '\\', next);
  }

  lemma NewlineTracks(w: Watch, mode: Mode, text: string)
    requires Still(Track(w, mode, text))
    ensures Track(w, mode, text + ['\n']) == Free
  {
    TrackShape(w, mode, text);
    TrackAppend(w, mode, text, '\n');
  }
}
