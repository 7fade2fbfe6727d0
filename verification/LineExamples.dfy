/**
 Two lines, written out: reading goes on behind the whole of a delimiter, and behind
 the parameters of a command.
 */
module LineExamples {
  import opened Basics
  import opened LineLexer
  import opened StatementText
  import opened StatementMeaning
  import opened LineParts

  predicate Letter(c: Client, ch: char) {
    OrdinaryChar(ch) && ch != '/' && ch != '-' && ch != '*' && !c.isSpace(ch)
  }

  /** A letter stands there, with the delimiter behind it. */
  predicate LetterAt(c: Client, line: string, k: nat, ch: char, d: Delimiter) {
    && k + 1 < |line| && line[k] == ch && line[k + 1] != '\\' && Letter(c, ch) && d[0] != ch
    && StartsWith(line, k + 1, d)
  }

  lemma LetterFits(c: Client, line: string, k: nat, ch: char, d: Delimiter, a: Collected)
    requires LetterAt(c, line, k, ch, d)
    ensures PlainFits(c, d, line, k, 1, a)
  {
    assert !StartsWith(line, k, d);
    assert PlainFits(c, d, line, k + 1, 0, CollectChar(c, a, ch));
  }

  lemma LetterIs(c: Client, a: Collected, ch: char)
    requires Letter(c, ch) && !a.owed
    ensures Render([Plain([ch])]) == [ch]
    ensures CollectAll(c, a, [Plain([ch])]) == a.(text := a.text + [ch])
  {
    assert [Plain([ch])][..0] == [] && "" + [ch] == [ch];
    assert CollectPlain(c, a, [ch]) == CollectChar(c, a, ch);
  }

  lemma LetterRead(c: Client, line: string, r: Reading, ch: char)
    requires LetterAt(c, line, r.pos, ch, r.mode.delimiter) && !r.a.owed
    ensures TextStands(c, line, r, [Plain([ch])])
    ensures TextRead(c, r, [Plain([ch])]) == r.(pos := r.pos + 1, a := r.a.(text := r.a.text + [ch]))
  {
    LetterIs(c, r.a, ch);
    LetterFits(c, line, r.pos, ch, r.mode.delimiter, r.a);
    assert line[r.pos..r.pos + 1] == [ch];
    assert [Plain([ch])][..0] == [];
    PlainFitsAt(c, r.mode, line, r.pos, r.a, [Plain([ch])], 0, r.pos, r.a);
  }

  /** Such a letter is a statement. */
  lemma LetterStands(c: Client, line: string, r: Reading, ch: char, log: seq<Request>)
    requires LetterAt(c, line, r.pos, ch, r.mode.delimiter) && !r.a.owed
    requires log == r.log + [Statement(r.a.text + [ch], r.mode)] && !c.handle(log).quit
    ensures Stands(c, line, r, Ended([Plain([ch])]))
    ensures After(c, line, r, Ended([Plain([ch])])) ==
            Reading(r.pos + 1 + |r.mode.delimiter|, r.a.(text := ""), c.handle(log).mode, log)
  {
    LetterRead(c, line, r, ch);
  }

  /** A line of two parts. */
  lemma TwoParts(c: Client, line: string, i: Input, first: Part, second: Part, q: Reading)
    requires i.inString == NUL && !i.mlComment && NUL !in line
    requires var r := Started(i, Outright);
             Stands(c, line, r, first) && q == After(c, line, r, first) && Stands(c, line, q, second)
    requires After(c, line, q, second).pos == |line|
    ensures AddLine(c, line, false, i).input.log == After(c, line, q, second).log
  {
    var r, parts := Started(i, Outright), [first, second];
    assert parts[..0] == [] && parts[..1] == [first];
    assert AfterAll(c, line, r, [first]) == q by {
      assert [first][..0] == [];
    }
    assert StandsAt(c, line, r, parts, 0) && StandsAt(c, line, r, parts, 1);
    LogOfParts(c, line, i, parts);
  }

  /** Two letters with the delimiters of their statements. */
  lemma TwoLetters(c: Client, line: string, mode: Mode, mode': Mode, x: char, y: char, k: nat)
    requires NUL !in line && LetterAt(c, line, 0, x, mode.delimiter) && k == 1 + |mode.delimiter|
    requires LetterAt(c, line, k, y, mode'.delimiter) && k + 1 + |mode'.delimiter| == |line|
    requires !c.handle([Statement([x], mode)]).quit && mode' == c.handle([Statement([x], mode)]).mode
    requires !c.handle([Statement([x], mode), Statement([y], mode')]).quit
    ensures AddLine(c, line, false, Fresh(mode)).input.log == [Statement([x], mode), Statement([y], mode')]
  {
    var a, b := Statement([x], mode), Statement([y], mode');
    var r := Started(Fresh(mode), Outright);
    assert "" + [x] == [x] && "" + [y] == [y] && [] + [a] == [a] && [a] + [b] == [a, b];
    LetterStands(c, line, r, x, [a]);
    var q := Reading(k, Collected("", false, false), mode', [a]);
    LetterStands(c, line, q, y, [a, b]);
    TwoParts(c, line, Fresh(mode), Ended([Plain([x])]), Ended([Plain([y])]), q);
  }

  /** `1//2//` sends `1` and `2`. */
  lemma TwoOnALine(c: Client, mode: Mode)
    requires mode.delimiter == "//" && !c.isSpace('1') && !c.isSpace('2')
    requires var reply := c.handle([Statement("1", mode)]);
             && !reply.quit && reply.mode.delimiter == "//"
             && !c.handle([Statement("1", mode), Statement("2", reply.mode)]).quit
    ensures AddLine(c, "1//2//", false, Fresh(mode)).input.log
              == [Statement("1", mode), Statement("2", c.handle([Statement("1", mode)]).mode)]
  {
    assert "1//2//"[1..3] == "//" && "1//2//"[4..6] == "//";
    TwoLetters(c, "1//2//", mode, c.handle([Statement("1", mode)]).mode, '1', '2', 3);
  }

  /** A command without text before it: reading goes on behind the delimiter that ends its parameters. */
  lemma CallStands(c: Client, line: string, r: Reading, cmd: char, call: Request, k: nat)
    requires r.pos == 0 && 2 <= k && k < |line| && line[0] == '\\' && line[1] == cmd && cmd != 'N' && cmd != NUL
    requires !c.isSpace('\\') && c.isShortCommand(cmd) && c.takesParams(cmd) && !r.a.server
    requires call == ShortCommand(r.a.text, r.mode, cmd, line) && !c.handle(r.log + [call]).quit
    requires SkipParams(line, 2, c.handle(r.log + [call]).mode.delimiter) == k
    ensures Stands(c, line, r, Called([], cmd))
    ensures After(c, line, r, Called([], cmd)) ==
            var reply := c.handle(r.log + [call]);
            Reading(k, r.a.(text := reply.buffer), reply.mode, r.log + [call])
  {
    assert line[0..0] == "" && line[0..] == line;
  }

  lemma SkipsTwo(line: string, d: Delimiter)
    requires |line| == 7 && |d| == 1 && line[2] != d[0] && line[3] != d[0] && line[4] == d[0]
    ensures SkipParams(line, 2, d) == 5
  {
    assert line[4..5] == d;
    assert SkipParams(line, 4, d) == 5;
    assert SkipParams(line, 3, d) == 5;
  }

  lemma CallAndLetter(c: Client, line: string, mode: Mode, mode': Mode, cmd: char, call: Request, k: nat, x: char)
    requires NUL !in line && 2 <= k < |line| && line[0] == '\\' && line[1] == cmd && cmd != 'N'
    requires !c.isSpace('\\') && c.isShortCommand(cmd) && c.takesParams(cmd)
    requires call == ShortCommand("", mode, cmd, line) && SkipParams(line, 2, mode'.delimiter) == k
    requires !c.handle([call]).quit && c.handle([call]).buffer == "" && mode' == c.handle([call]).mode
    requires LetterAt(c, line, k, x, mode'.delimiter) && k + 1 + |mode'.delimiter| == |line|
    requires !c.handle([call, Statement([x], mode')]).quit
    ensures AddLine(c, line, false, Fresh(mode)).input.log == [call, Statement([x], mode')]
  {
    var b, r := Statement([x], mode'), Started(Fresh(mode), Outright);
    assert "" + [x] == [x] && [] + [call] == [call] && [call] + [b] == [call, b];
    CallStands(c, line, r, cmd, call, k);
    var q := Reading(k, Collected("", false, false), mode', [call]);
    LetterStands(c, line, q, x, [call, b]);
    TwoParts(c, line, Fresh(mode), Called([], cmd), Ended([Plain([x])]), q);
  }

  /** Behind the delimiter that ends the parameters of a command the line goes on: `\u t;1;` sends `1`. */
  lemma StatementBehindCommand(c: Client, mode: Mode)
    requires !c.isSpace('1') && !c.isSpace('\\') && c.isShortCommand('u') && c.takesParams('u')
    requires var call := ShortCommand("", mode, 'u', "\\u t;1;");
             var reply := c.handle([call]);
             && !reply.quit && reply.buffer == "" && reply.mode.delimiter == ";"
             && !c.handle([call, Statement("1", reply.mode)]).quit
    ensures var call := ShortCommand("", mode, 'u', "\\u t;1;");
            AddLine(c, "\\u t;1;", false, Fresh(mode)).input.log == [call, Statement("1", c.handle([call]).mode)]
  {
    var line := "\\u t;1;";
    var call := ShortCommand("", mode, 'u', line);
    SkipsTwo(line, ";");
    assert line[6..7] == ";";
    CallAndLetter(c, line, mode, c.handle([call]).mode, 'u', call, 5, '1');
  }
}
