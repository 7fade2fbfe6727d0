/**
 What the lexer hands to a one-letter command has the shape that reading its
 argument relies on: a backslash with a letter behind it.
 */
module CommandArguments {
  import opened Basics
  import opened LineLexer
  import opened StatementText
  import Identifiers

  predicate Lettered(r: Request) {
    r.ShortCommand? ==> |r.rest| >= 2 && r.rest[0] == '\\'
  }

  predicate AllLettered(log: seq<Request>) {
    forall i :: 0 <= i < |log| ==> Lettered(log[i])
  }

  lemma LetteredOn(log: seq<Request>, r: Request)
    requires AllLettered(log) && Lettered(r)
    ensures AllLettered(log + [r])
  {
  }

  lemma BackslashLettered(c: Client, line: string, s: State)
    requires s.pos < |line| && line[s.pos] == '\\' && AllLettered(s.log)
    ensures AllLettered(StepBackslash(c, line, s).s.log)
  {
    var next := At(line, s.pos + 1);
    if next != NUL {
      LetteredOn(s.log, UnknownCommand(s.mode, next));
      LetteredOn(s.log, ShortCommand(s.Accepted(), s.mode, next, line[s.pos..]));
      CommandState(c, line, s.Flush(), next);
    }
  }

  lemma StepLettered(c: Client, line: string, s: State)
    requires s.pos < |line| && AllLettered(s.log)
    ensures AllLettered(Step(c, line, s).s.log)
  {
    if c.isSpace(line[s.pos]) && s.AtStatementStart() {
    } else if !s.mlComment && line[s.pos] == '\\' && BackslashActive(s.mode, s.inString) {
      BackslashLettered(c, line, s);
    } else if !s.mlComment && s.inString == NUL && StartsWith(line, s.pos, s.mode.delimiter) {
      LetteredOn(s.log, Statement(s.Accepted(), s.mode));
    } else {
      assert StepText(c, line, s).s.log == s.log;
    }
  }

  lemma {:induction false} LexLettered(c: Client, line: string, s: State)
    requires s.pos <= |line| && AllLettered(s.log)
    ensures AllLettered(Lex(c, line, s).s.log)
    decreases |line| - s.pos
  {
    if s.pos == |line| {
    } else {
      StepLettered(c, line, s);
      StepAdvances(c, line, s);
      var o := Step(c, line, s);
      if o.Continue? {
        LexLettered(c, line, o.s);
      }
    }
  }

  lemma {:induction false} ReadLettered(c: Client, namedCommands: bool, lines: seq<Line>, i: Input)
    requires AllLettered(i.log)
    ensures AllLettered(Read(c, namedCommands, lines, i).input.log)
  {
    if lines == [] {
    } else {
      var r := ReadLine(c, namedCommands, lines[0], i);
      LexLettered(c, lines[0].text, Begin(i));
      assert AllLettered(r.input.log);
      if !r.quit {
        ReadLettered(c, namedCommands, lines[1..], r.input);
      }
    }
  }

  /** Over any lines: every one-letter command can read its argument. */
  lemma ShortCommandsCanReadArguments(c: Client, namedCommands: bool, lines: seq<Line>, mode: Mode, n: nat)
    requires !c.isSpace('\\')
    ensures var log := Read(c, namedCommands, lines, Input("", NUL, false, mode, [])).input.log;
            n < |log| && log[n].ShortCommand? ==> Identifiers.Command(c.isSpace, log[n].rest)
  {
    ReadLettered(c, namedCommands, lines, Input("", NUL, false, mode, []));
    var log := Read(c, namedCommands, lines, Input("", NUL, false, mode, [])).input.log;
    if n < |log| && log[n].ShortCommand? {
      assert Lettered(log[n]);
      assert Identifiers.SkipSpaces(c.isSpace, log[n].rest, 0) == 0;
    }
  }
}
