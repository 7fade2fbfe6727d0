/**
 How the text pending on a line relates to the line itself.

 The pending text is copied from the line, except for the spaces that stand in
 for removed comments. So its first word stands in the line, and its last
 character is the one last read. That tells which lines can lose their newline.
 */
module LineCopies {
  import opened Basics
  import opened LineLexer

  /** A text up to its first space. */
  function Word(t: string): string {
    if t == "" || t[0] == ' ' then "" else [t[0]] + Word(t[1..])
  }

  lemma {:induction false} WordIsPrefix(t: string)
    ensures Word(t) <= t && ' ' !in Word(t)
    ensures Word(t) != t ==> |Word(t)| < |t| && t[|Word(t)|] == ' '
  {
    if t == "" {
    } else {
      WordIsPrefix(t[1..]);
    }
  }

  lemma {:induction false} WordHolds(t: string, n: nat)
    requires n <= |t| && forall i :: 0 <= i < n ==> t[i] != ' '
    ensures n <= |Word(t)|
  {
    if n == 0 {
    } else {
      WordHolds(t[1..], n - 1);
    }
  }

  lemma {:induction false} WordOn(t: string, u: string)
    ensures Word(t + u) == if Word(t) == t then t + Word(u) else Word(t)
  {
    if t == "" {
      assert t + u == u;
    } else if t[0] == ' ' {
      assert (t + u)[0] == ' ';
    } else {
      WordOn(t[1..], u);
      WordOfMore(t, u);
    }
  }

  lemma WordOfMore(t: string, u: string)
    requires t != "" && t[0] != ' '
    ensures Word(t + u) == [t[0]] + Word(t[1..] + u) && Word(t) == [t[0]] + Word(t[1..])
    ensures Word(t) == t <==> Word(t[1..]) == t[1..]
    ensures t + Word(u) == [t[0]] + (t[1..] + Word(u))
  {
    assert (t + u)[1..] == t[1..] + u;
    assert t == [t[0]] + t[1..];
    assert Word(t)[1..] == Word(t[1..]);
  }

  /** The first word of the pending text stands in the line, and right before the cursor if it is all there is. */
  ghost predicate WordRead(line: string, tail: string, pos: nat) {
    if Word(tail) == tail then |tail| <= pos <= |line| && line[pos - |tail|..pos] == tail
    else exists k: nat :: StartsWith(line, k, Word(tail))
  }

  lemma WholeRead(line: string, k: nat, tail: string, u: string)
    requires StartsWith(line, k, tail) && StartsWith(line, k + |tail|, u)
    ensures StartsWith(line, k, tail + u) && StartsWith(line, k, tail + Word(u))
  {
    StartsWithBoth(line, k, tail, u);
    WordIsPrefix(u);
    StartsWithPrefix(line, k, tail + u, tail + Word(u));
  }

  /** A word in the line, which other text follows. */
  lemma WordStands(line: string, k: nat, t: string)
    requires StartsWith(line, k, Word(t)) && Word(t) != t
    ensures forall pos :: WordRead(line, t, pos)
  {
  }

  lemma WordReadOn(line: string, tail: string, pos: nat, u: string)
    requires WordRead(line, tail, pos) && StartsWith(line, pos, u)
    ensures WordRead(line, tail + u, pos + |u|)
  {
    WordOn(tail, u);
    if Word(tail) == tail {
      var k := pos - |tail|;
      WholeRead(line, k, tail, u);
      if Word(tail + u) != tail + u {
        WordStands(line, k, tail + u);
      }
    } else {
      WordIsPrefix(tail);
      var k: nat :| StartsWith(line, k, Word(tail));
      WordStands(line, k, tail + u);
    }
  }

  lemma WordReadSpaced(line: string, tail: string, pos: nat, ch: char)
    requires WordRead(line, tail, pos)
    ensures WordRead(line, tail + [' ', ch], pos + 1)
  {
    var u := [' ', ch];
    WordOn(tail, u);
    WordIsPrefix(tail);
    assert Word(u) == "";
    if Word(tail) == tail {
      assert tail + "" == tail;
      assert StartsWith(line, pos - |tail|, tail);
    }
  }

  ghost predicate Copied(line: string, s: State) {
    && (s.mlComment ==> s.tail == "")
    && WordRead(line, s.tail, s.pos)
    && (s.tail != "" ==> 0 < s.pos <= |line| && s.tail[|s.tail| - 1] == line[s.pos - 1])
  }

  lemma NothingPending(line: string, s: State)
    requires s.tail == "" && s.pos <= |line|
    ensures Copied(line, s)
  {
  }

  /** Copying what comes next keeps the text a copy. */
  lemma CopiesOn(line: string, s: State, u: string, t: State)
    requires Copied(line, s) && StartsWith(line, s.pos, u) && u != ""
    requires t.tail == s.tail + u && t.pos == s.pos + |u| && !t.mlComment
    ensures Copied(line, t)
  {
    WordReadOn(line, s.tail, s.pos, u);
    assert line[s.pos..s.pos + |u|][|u| - 1] == line[t.pos - 1];
  }

  lemma CopiesChar(line: string, s: State, t: State)
    requires Copied(line, s) && s.pos < |line|
    requires t.tail == s.tail + [line[s.pos]] && t.pos == s.pos + 1 && !t.mlComment
    ensures Copied(line, t)
  {
    assert line[s.pos..s.pos + 1] == [line[s.pos]];
    CopiesOn(line, s, [line[s.pos]], t);
  }

  lemma CopiesSpaced(line: string, s: State, t: State)
    requires Copied(line, s) && s.pos < |line|
    requires t.tail == s.tail + [' ', line[s.pos]] && t.pos == s.pos + 1 && !t.mlComment
    ensures Copied(line, t)
  {
    WordReadSpaced(line, s.tail, s.pos, line[s.pos]);
  }

  lemma BackslashCopies(c: Client, line: string, s: State)
    requires s.pos < |line| && line[s.pos] == '\\' && Copied(line, s) && !s.mlComment
    ensures var o := StepBackslash(c, line, s); !o.Quit? ==> Copied(line, o.s)
  {
    var o := StepBackslash(c, line, s);
    var next := At(line, s.pos + 1);
    if next == NUL || o.Quit? {
    } else if s.inString == NUL && next != 'N' && c.isShortCommand(next) {
      NothingPending(line, o.s);
    } else {
      StartsWithTwo(line, s.pos);
      CopiesOn(line, s, ['\\', next], o.s);
    }
  }

  lemma CharCopies(c: Client, line: string, s: State)
    requires s.pos < |line| && Copied(line, s)
    ensures Copied(line, StepChar(c, line, s))
  {
    var ch := line[s.pos];
    var t := StepChar(c, line, s);
    if s.mlComment {
      NothingPending(line, t);
    } else if s.needSpace && !c.isSpace(ch) {
      CopiesSpaced(line, s, t);
    } else {
      CopiesChar(line, s, t);
    }
  }

  lemma StepCopies(c: Client, line: string, s: State)
    requires s.pos < |line| && Copied(line, s)
    ensures var o := Step(c, line, s); !o.Quit? ==> Copied(line, o.s)
  {
    StepAdvances(c, line, s);
    if c.isSpace(line[s.pos]) && s.AtStatementStart() {
      NothingPending(line, s.(pos := s.pos + 1));
    } else if !s.mlComment && line[s.pos] == '\\' && BackslashActive(s.mode, s.inString) {
      BackslashCopies(c, line, s);
    } else if !s.mlComment && s.inString == NUL && StartsWith(line, s.pos, s.mode.delimiter) {
    } else {
      CharCopies(c, line, s);
    }
  }

  /** Where a line can end: behind its last character, at a lone backslash, or at a comment. */
  predicate AtEnd(line: string, s: State) {
    s.pos == |line| || (s.pos + 1 == |line| && line[s.pos] == '\\') || (s.pos < |line| && s.tail == "")
  }

  lemma {:induction false} LexCopies(c: Client, line: string, s: State)
    requires s.pos <= |line| && NUL !in line && Copied(line, s)
    ensures var o := Lex(c, line, s); o.Break? ==> Copied(line, o.s) && AtEnd(line, o.s)
    decreases |line| - s.pos
  {
    if s.pos == |line| {
    } else {
      StepCopies(c, line, s);
      StepAdvances(c, line, s);
      var o := Step(c, line, s);
      if o.Continue? {
        LexCopies(c, line, o.s);
      }
    }
  }

  /** A DELIMITER command may start somewhere in the line. */
  ghost predicate Mentions(c: Client, line: string) {
    exists k: nat :: k <= |line| && IsDelimiterCommand(c, line[k..])
  }

  /** No name of the DELIMITER command holds a space. */
  ghost predicate Named(c: Client) {
    forall t: string :: c.isDelimiterName(t) ==> ' ' !in t
  }

  /** The character that a line leaves without a newline behind it, if it can; NUL if it cannot. */
  ghost function Dangling(c: Client, line: string): char {
    if line == "" || !Mentions(c, line) then NUL
    else if line[|line| - 1] == '\\' && |line| > 1 then line[|line| - 2]
    else line[|line| - 1]
  }

  lemma WordHasCommand(c: Client, tail: string)
    requires Named(c) && IsDelimiterCommand(c, tail)
    ensures IsDelimiterCommand(c, Word(tail))
  {
    WordIsPrefix(tail);
    var w, n := Word(tail), |"delimiter"|;
    forall i | 0 <= i < n ensures tail[i] != ' ' {
      assert tail[..n][i] == tail[i];
    }
    WordHolds(tail, n);
    assert w[..n] == tail[..n];
  }

  lemma CommandInLine(c: Client, line: string, k: nat, w: string)
    requires StartsWith(line, k, w) && IsDelimiterCommand(c, w)
    ensures Mentions(c, line)
  {
    var n := |"delimiter"|;
    assert line[k..][..n] == line[k..k + |w|][..n];
    assert IsDelimiterCommand(c, line[k..]);
  }

  lemma PendingCommand(c: Client, line: string, tail: string, pos: nat)
    requires Named(c) && WordRead(line, tail, pos) && IsDelimiterCommand(c, tail)
    ensures Mentions(c, line)
  {
    WordHasCommand(c, tail);
    var w := Word(tail);
    if w == tail {
      CommandInLine(c, line, pos - |tail|, w);
    } else {
      var k: nat :| StartsWith(line, k, w);
      CommandInLine(c, line, k, w);
    }
  }

  /** The end of a line drops its newline only behind a DELIMITER command. */
  lemma DroppedNewline(c: Client, line: string, s: State)
    requires Named(c) && Copied(line, s) && AtEnd(line, s) && IsDelimiterCommand(c, s.tail)
    ensures s.tail != "" && (s.tail[|s.tail| - 1] != '\\' ==> Dangling(c, line) == s.tail[|s.tail| - 1])
  {
    PendingCommand(c, line, s.tail, s.pos);
  }
}
