/**
 The client's own way of lexing a line: two cursors over one mutable buffer.

 `pos` reads and `out` writes behind it in the same array, and the text between
 the start of the line and `out` is what has been accepted but not yet flushed
 to the statement buffer. `Represents` is the invariant that makes this safe:
 `out` stays behind `pos`, with one byte to spare while a space is owed, and
 nothing from `pos` on has been touched.
 */
module LineReader {
  import opened Basics
  import opened LineLexer
  import opened CommandEnds

  datatype Verdict = Go | Stop | Exit

  class Reader {
    const client: Client
    var buffer: string
    var inString: char
    var mlComment: bool
    var mode: Mode
    var log: seq<Request>

    // The cursors and flags of the line being read.
    var pos: nat
    var out: nat
    var needSpace: bool
    var ssComment: bool

    constructor (client: Client, mode: Mode)
      ensures this.client == client
      ensures Value() == Input("", NUL, false, mode, [])
    {
      this.client := client;
      buffer, inString, mlComment, this.mode, log := "", NUL, false, mode, [];
      pos, out, needSpace, ssComment := 0, 0, false, false;
    }

    ghost function Value(): Input
      reads this
    {
      Input(buffer, inString, mlComment, mode, log)
    }

    /** The automaton state that the fields and the edited line stand for. */
    ghost function Abstract(line: array<char>): State
      requires out <= line.Length
      reads this, line
    {
      State(pos, buffer, line[..out], inString, mlComment, ssComment, needSpace, mode, log)
    }

    /** `line` is `text` with its terminator, edited in place up to `out`. */
    ghost predicate Represents(line: array<char>, text: string)
      reads this, line
    {
      && |text| < line.Length
      && NUL !in text
      && pos <= |text|
      && out + (if needSpace then 1 else 0) <= pos
      && (forall i :: pos <= i < |text| ==> line[i] == text[i])
      && line[|text|] == NUL
    }

    ghost predicate Matches(verdict: Verdict, line: array<char>, o: Outcome)
      requires out <= line.Length
      reads this, line
    {
      match verdict
      case Go => o == Continue(Abstract(line))
      case Stop => o == Break(Abstract(line))
      case Exit => o == Quit(Abstract(line))
    }

    method Flush(line: array<char>)
      requires out <= line.Length
      modifies this`buffer, this`out
      ensures out <= line.Length && out == 0
      ensures Abstract(line) == old(Abstract(line)).Flush()
    {
      if out != 0 {
        buffer := buffer + line[..out];
        out := 0;
      }
    }

    method Put(line: array<char>, ch: char)
      requires out < line.Length
      modifies this`out, line
      ensures out == old(out) + 1
      ensures line[..out] == old(line[..out]) + [ch]
      ensures forall i :: out <= i < line.Length ==> line[i] == old(line[i])
    {
      line[out] := ch;
      out := out + 1;
    }

    /** Copies a backslash and the character behind it. */
    method PutEscaped(line: array<char>, ghost text: string, ch: char)
      requires Represents(line, text) && pos + 2 <= |text|
      modifies this`out, this`pos, line
      ensures Represents(line, text)
      ensures Abstract(line) == old(Abstract(line)).(tail := old(Abstract(line)).tail + ['\\', ch], pos := old(pos) + 2)
      ensures forall i :: |text| <= i < line.Length ==> line[i] == old(line[i])
    {
      Put(line, '\\');
      Put(line, ch);
      pos := pos + 2;
    }

    method IsPrefixAt(line: array<char>, k: nat, d: Delimiter, ghost text: string) returns (b: bool)
      requires |text| < line.Length && NUL !in text && k <= |text| && line[|text|] == NUL
      requires forall i :: k <= i < |text| ==> line[i] == text[i]
      ensures b == StartsWith(text, k, d)
    {
      var i := 0;
      while i < |d|
        invariant i <= |d| && k + i <= |text|
        invariant text[k..k + i] == d[..i]
      {
        if line[k + i] != d[i] {
          return false;
        }
        i := i + 1;
      }
      b := true;
    }

    method SkipParameters(line: array<char>, ghost text: string)
      requires Represents(line, text) && pos + 2 <= |text|
      modifies this`pos
      ensures pos == SkipParams(text, old(pos) + 2, mode.delimiter)
      ensures IsParamsEnd(text, old(pos) + 2, mode.delimiter, pos)
    {
      ParamsEnd(text, pos + 2, mode.delimiter);
      var k := pos + 2;
      while line[k] != NUL
        invariant pos == old(pos) && pos + 2 <= k <= |text|
        invariant SkipParams(text, k, mode.delimiter) == SkipParams(text, pos + 2, mode.delimiter)
        decreases |text| - k
      {
        var found := IsPrefixAt(line, k, mode.delimiter, text);
        if found {
          pos := k + |mode.delimiter|;
          return;
        }
        k := k + 1;
      }
      pos := k;
    }

    method SkipToCommentEnd(line: array<char>, ghost text: string)
      requires Represents(line, text) && pos + 2 <= |text|
      modifies this`pos
      ensures pos == SkipComment(text, old(pos) + 2)
      ensures IsCommentEnd(text, old(pos) + 2, pos)
    {
      CommentEnd(text, pos + 2);
      var k := pos + 2;
      while line[k] != NUL && (line[k] != '*' || line[k + 1] != '/')
        invariant pos == old(pos) && pos + 2 <= k <= |text|
        invariant SkipComment(text, k) == SkipComment(text, pos + 2)
        decreases |text| - k
      {
        k := k + 1;
      }
      pos := k;
    }

    /** A character behind a backslash that is no command. */
    method Unknown(line: array<char>, ghost text: string, ch: char) returns (verdict: Verdict)
      requires Represents(line, text) && pos + 2 <= |text|
      modifies this`log, this`out, this`pos, line
      ensures Represents(line, text)
      ensures log == old(log) + [UnknownCommand(mode, ch)]
      ensures if client.handle(log).quit then
                verdict == Exit && Abstract(line) == old(Abstract(line)).(log := log)
              else
                verdict == Go &&
                Abstract(line) == old(Abstract(line)).(tail := old(Abstract(line)).tail + ['\\', ch],
                                                      pos := old(pos) + 2, log := log)
      ensures forall i :: |text| <= i < line.Length ==> line[i] == old(line[i])
    {
      log := log + [UnknownCommand(mode, ch)];
      if client.handle(log).quit {
        return Exit;
      }
      PutEscaped(line, text, ch);
      return Go;
    }

    /** A one-letter command: what was accepted is flushed first. */
    method FlushAndCommand(line: array<char>, ghost text: string, ch: char) returns (verdict: Verdict)
      requires Represents(line, text) && pos + 1 < |text|
      modifies this
      ensures Represents(line, text)
      ensures Matches(verdict, line, StepCommand(client, text, old(Abstract(line)).Flush(), ch))
    {
      Flush(line);
      verdict := Command(line, text, ch);
    }

    /** A character behind an active backslash. */
    method Backslash(line: array<char>, ghost text: string) returns (verdict: Verdict)
      requires Represents(line, text) && pos < |text|
      modifies this, line
      ensures Represents(line, text)
      ensures Matches(verdict, line, StepBackslash(client, text, old(Abstract(line))))
      ensures forall i :: |text| <= i < line.Length ==> line[i] == old(line[i])
    {
      var ch := line[pos + 1];
      if ch == NUL {
        return Stop;
      }
      if inString != NUL || ch == 'N' {
        PutEscaped(line, text, ch);
        return Go;
      }
      if client.isShortCommand(ch) {
        verdict := FlushAndCommand(line, text, ch);
      } else {
        verdict := Unknown(line, text, ch);
      }
    }

    /** The unread part of the line, as a command sees it. */
    method Rest(line: array<char>, ghost text: string) returns (rest: string)
      requires Represents(line, text)
      ensures rest == text[pos..]
    {
      var k := pos;
      while line[k] != NUL
        invariant pos <= k <= |text|
        decreases |text| - k
      {
        k := k + 1;
      }
      rest := line[pos..k];
    }

    /** Moves behind a command and its parameters. */
    method SkipCommand(line: array<char>, ghost text: string, cmd: char)
      requires Represents(line, text) && pos + 1 < |text| && out == 0
      modifies this`pos
      ensures Represents(line, text)
      ensures pos == if !client.takesParams(cmd) then old(pos) + 2
                     else if ssComment then SkipComment(text, old(pos) + 2)
                     else SkipParams(text, old(pos) + 2, mode.delimiter)
    {
      if !client.takesParams(cmd) {
        pos := pos + 2;
      } else if ssComment {
        SkipToCommentEnd(line, text);
      } else {
        SkipParameters(line, text);
      }
    }

    method Command(line: array<char>, ghost text: string, cmd: char) returns (verdict: Verdict)
      requires Represents(line, text) && pos + 1 < |text| && out == 0
      modifies this
      ensures Represents(line, text)
      ensures Matches(verdict, line, StepCommand(client, text, old(Abstract(line)), cmd))
    {
      ghost var s := Abstract(line);
      var rest := Rest(line, text);
      log := log + [ShortCommand(buffer, mode, cmd, rest)];
      var reply := client.handle(log);
      buffer, mode := reply.buffer, reply.mode;
      if reply.quit {
        return Exit;
      }
      SkipCommand(line, text, cmd);
      assert Abstract(line) == s.(buffer := buffer, mode := mode, log := log, pos := pos);
      return Go;
    }

    method EndStatement(line: array<char>, ghost text: string) returns (verdict: Verdict)
      requires Represents(line, text) && StartsWith(text, pos, mode.delimiter)
      modifies this
      ensures Represents(line, text)
      ensures Matches(verdict, line, StepDelimiter(client, old(Abstract(line))))
      ensures log == old(log) + [Statement(old(Abstract(line)).Accepted(), old(mode))] && mode == client.handle(log).mode
      ensures verdict == (if client.handle(log).quit then Exit else Go)
      ensures verdict == Go ==> buffer == "" && out == 0 && pos == old(pos) + |old(mode).delimiter|
    {
      var next := pos + |mode.delimiter|;
      Flush(line);
      log := log + [Statement(buffer, mode)];
      var reply := client.handle(log);
      buffer, mode := reply.buffer, reply.mode;
      if reply.quit {
        return Exit;
      }
      buffer := "";
      pos := next;
      return Go;
    }

    /** The quote and server-comment flags behind an ordinary character. */
    method TrackFlags(line: array<char>, ghost text: string)
      requires Represents(line, text) && pos < |text|
      modifies this`ssComment, this`inString
      ensures ssComment == NextSsComment(text, old(Abstract(line)))
      ensures inString == NextInString(text[pos], old(Abstract(line)))
    {
      var ch := line[pos];
      if inString == NUL && ch == '/' && line[pos + 1] == '*' && line[pos + 2] == '!' {
        ssComment := true;
      } else if inString == NUL && ssComment && ch == '*' && line[pos + 1] == '/' {
        ssComment := false;
      }
      if ch == inString {
        inString := NUL;
      } else if !mlComment && inString == NUL && IsQuote(ch) {
        inString := ch;
      }
    }

    /** Writes a character, with the space owed before it: it fits into what has been read. */
    method PutOwed(line: array<char>, ghost text: string, ch: char)
      requires Represents(line, text) && pos < |text|
      modifies this`needSpace, this`out, line
      ensures !needSpace && out <= pos + 1 && out <= line.Length
      ensures line[..out] == old(line[..out]) + if old(needSpace) && !client.isSpace(ch) then [' ', ch] else [ch]
      ensures forall i :: pos < i < line.Length ==> line[i] == old(line[i])
    {
      if needSpace && !client.isSpace(ch) {
        Put(line, ' ');
      }
      needSpace := false;
      Put(line, ch);
    }

    /** An ordinary character, kept unless it is inside a comment. */
    method Keep(line: array<char>, ghost text: string)
      requires Represents(line, text) && pos < |text|
      modifies this`ssComment, this`inString, this`needSpace, this`out, this`pos, line
      ensures Represents(line, text)
      ensures Abstract(line) == StepChar(client, text, old(Abstract(line)))
      ensures forall i :: |text| <= i < line.Length ==> line[i] == old(line[i])
    {
      var ch := line[pos];
      TrackFlags(line, text);
      if !mlComment {
        PutOwed(line, text, ch);
      }
      pos := pos + 1;
    }

    /** Whether a comment to the end of the line, or one to be closed, starts at `pos`. */
    method LooksLikeComment(line: array<char>, ghost text: string) returns (lineComment: bool, opens: bool)
      requires Represents(line, text) && pos < |text|
      ensures lineComment == IsLineComment(client, text, Abstract(line))
      ensures opens == OpensComment(text, pos)
    {
      var ch := line[pos];
      lineComment :=
        ch == '#' || (ch == '-' && line[pos + 1] == '-' &&
                      ((client.isSpace(line[pos + 2]) || line[pos + 2] == NUL) || (buffer == "" && out == 0)));
      opens :=
        ch == '/' && line[pos + 1] == '*' &&
        !(line[pos + 2] == '!' || (line[pos + 2] == 'M' && line[pos + 3] == '!'));
    }

    /** Goes over a mark that opens or closes a comment. */
    method CrossMark(line: array<char>, ghost text: string, opens: bool)
      requires Represents(line, text) && pos + 2 <= |text|
      modifies this`buffer, this`out, this`pos, this`mlComment, this`needSpace
      ensures Represents(line, text)
      ensures Abstract(line) == old(Abstract(line)).Flush().(pos := old(pos) + 2, mlComment := opens,
                                                            needSpace := old(needSpace) || !opens)
    {
      Flush(line);
      pos := pos + 2;
      mlComment := opens;
      if !opens {
        needSpace := true;
      }
    }

    method TextInPlace(line: array<char>, ghost text: string) returns (verdict: Verdict)
      requires Represents(line, text) && pos < |text|
      modifies this, line
      ensures Represents(line, text)
      ensures Matches(verdict, line, StepText(client, text, old(Abstract(line))))
      ensures forall i :: |text| <= i < line.Length ==> line[i] == old(line[i])
    {
      var lineComment, opens := LooksLikeComment(line, text);
      if !mlComment && inString == NUL && lineComment {
        Flush(line);
        return Stop;
      }
      if inString == NUL && opens {
        CrossMark(line, text, true);
        return Go;
      }
      if mlComment && !ssComment && line[pos] == '*' && line[pos + 1] == '/' {
        CrossMark(line, text, false);
        return Go;
      }
      Keep(line, text);
      return Go;
    }

    method StepInPlace(line: array<char>, ghost text: string) returns (verdict: Verdict)
      requires Represents(line, text) && pos < |text|
      modifies this, line
      ensures Represents(line, text)
      ensures Matches(verdict, line, Step(client, text, old(Abstract(line))))
      ensures forall i :: |text| <= i < line.Length ==> line[i] == old(line[i])
    {
      var ch := line[pos];
      if client.isSpace(ch) && out == 0 && buffer == "" {
        pos := pos + 1;
        return Go;
      }
      if !mlComment && ch == '\\' && BackslashActive(mode, inString) {
        verdict := Backslash(line, text);
        return;
      }
      var ends := IsPrefixAt(line, pos, mode.delimiter, text);
      if !mlComment && inString == NUL && ends {
        verdict := EndStatement(line, text);
        return;
      }
      verdict := TextInPlace(line, text);
    }

    /** The last flush of a line; the newline may land on the terminator, never behind it. */
    method FinishInPlace(line: array<char>, ghost text: string, truncated: bool)
      requires Represents(line, text)
      modifies this`buffer, this`out, line
      ensures Value() == Finish(client, truncated, old(Abstract(line)))
      ensures forall i :: |text| < i < line.Length ==> line[i] == old(line[i])
    {
      if out != 0 || buffer != "" {
        var isDelimiter := out >= |"delimiter"| && client.isDelimiterName(line[..|"delimiter"|]);
        assert out >= |"delimiter"| ==> line[..out][..|"delimiter"|] == line[..|"delimiter"|];
        if !truncated && (!isDelimiter || inString != NUL || mlComment) {
          Put(line, '\n');
        }
        if !mlComment {
          buffer := buffer + line[..out];
        }
      }
    }

    method AddLineInPlace(line: array<char>, lineLength: nat, truncated: bool) returns (quit: bool)
      requires lineLength < line.Length && line[lineLength] == NUL && NUL !in line[..lineLength]
      modifies this, line
      ensures LineResult(Value(), quit) == AddLine(client, old(line[..lineLength]), truncated, old(Value()))
      ensures forall i :: lineLength < i < line.Length ==> line[i] == old(line[i])
    {
      if line[0] == NUL && buffer == "" {
        return false;
      }
      ghost var text := line[..lineLength];
      pos, out, needSpace, ssComment := 0, 0, false, false;
      ghost var start := Abstract(line);
      assert start == Begin(old(Value()));
      var verdict := Go;
      while verdict == Go && pos < lineLength
        invariant Represents(line, text)
        invariant verdict == Go ==> Lex(client, text, Abstract(line)) == Lex(client, text, start)
        invariant verdict != Go ==> Matches(verdict, line, Lex(client, text, start))
        invariant forall i :: lineLength < i < line.Length ==> line[i] == old(line[i])
        decreases verdict == Go, lineLength - pos
      {
        ghost var before := Abstract(line);
        StepAdvances(client, text, before);
        verdict := StepInPlace(line, text);
      }
      if verdict == Exit {
        return true;
      }
      FinishInPlace(line, text, truncated);
      return false;
    }
  }
}
