/**
 The dump tool's quoting of names for a LIKE pattern and for a comparison, and
 the quoting of field terminators in the dump and import tools.
 */
module Quoting {
  import opened Basics
  import opened SqlLiterals

  // Names for SHOW TABLES LIKE and for comparisons.

  function LikeChar(c: char): string {
    if c == '\\' then "\\\\\\\\"
    else if c == '\'' || c == '_' || c == '%' then ['\\', c]
    else [c]
  }

  function LikeBody(name: string): string {
    if name == "" then "" else LikeChar(name[0]) + LikeBody(name[1..])
  }

  function PatternChar(c: char): string {
    if c == '\\' || c == '_' || c == '%' then ['\\', c] else [c]
  }

  /** The pattern that the literal stands for. */
  function Pattern(name: string): string {
    if name == "" then "" else PatternChar(name[0]) + Pattern(name[1..])
  }

  lemma LikeCharReads(c: char, tail: string)
    ensures ReadBody(LikeChar(c) + tail) == Prefixed(PatternChar(c), ReadBody(tail))
  {
    if c == '\\' {
      assert LikeChar(c) + tail == ['\\', '\\'] + (['\\', '\\'] + tail);
      ReadEscape('\\', ['\\', '\\'] + tail);
      ReadEscape('\\', tail);
      if ReadBody(tail).Some? {
        var v := ReadBody(tail).value.value;
        assert "\\" + ("\\" + v) == PatternChar(c) + v;
      }
    } else if c == '\'' || c == '_' || c == '%' {
      ReadEscape(c, tail);
    } else {
      ReadPlain(c, tail);
    }
  }

  lemma {:induction false} LikeBodyReads(name: string, rest: string)
    requires EndsLiteral(rest)
    ensures ReadBody(LikeBody(name) + "'" + rest) == Some(Literal(Pattern(name), rest))
  {
    if name == "" {
      ReadClosing(rest);
      assert LikeBody(name) + "'" + rest == "'" + rest;
    } else {
      var c := name[0];
      var tail := LikeBody(name[1..]) + "'" + rest;
      LikeBodyReads(name[1..], rest);
      Regroup(LikeChar(c), LikeBody(name[1..]), "'", rest);
      LikeCharReads(c, tail);
    }
  }

  lemma Regroup(a: string, b: string, c: string, d: string)
    ensures a + b + c + d == a + (b + c + d)
  {
  }

  lemma QuoteTail(body: string, rest: string)
    ensures var text := "'" + body + "'" + rest; text[0] == '\'' && text[1..] == body + "'" + rest
  {
  }

  lemma {:induction false} PatternMatches(name: string, s: string)
    ensures Like(Pattern(name), s) <==> s == name
    decreases |name|
  {
    if name == "" {
    } else {
      var p := Pattern(name);
      assert p[|PatternChar(name[0])|..] == Pattern(name[1..]);
      if s != "" {
        PatternMatches(name[1..], s[1..]);
        assert s == [s[0]] + s[1..] && name == [name[0]] + name[1..];
      }
    }
  }

  /**
   Through both of its decoders the quoted name is exact: the literal ends where
   it should, and its pattern matches the name and nothing else.
   */
  lemma QuotedForLikeIsExact(name: string, rest: string)
    requires EndsLiteral(rest)
    ensures var l := ReadLiteral("'" + LikeBody(name) + "'" + rest);
            l.Some? && l.value.rest == rest && forall s :: Like(l.value.value, s) <==> s == name
  {
    QuoteTail(LikeBody(name), rest);
    LikeBodyReads(name, rest);
    forall s ensures Like(Pattern(name), s) <==> s == name {
      PatternMatches(name, s);
    }
  }

  function EqualChar(c: char): string {
    if c == '\\' || c == '\'' then [c, c] else [c]
  }

  function EqualBody(name: string): string {
    if name == "" then "" else EqualChar(name[0]) + EqualBody(name[1..])
  }

  lemma EqualCharReads(c: char, tail: string)
    ensures ReadBody(EqualChar(c) + tail) == Prefixed([c], ReadBody(tail))
  {
    if c == '\\' {
      ReadEscape(c, tail);
    } else if c == '\'' {
      ReadDoubledQuote(tail);
    } else {
      ReadPlain(c, tail);
    }
  }

  lemma {:induction false} EqualBodyReads(name: string, rest: string)
    requires EndsLiteral(rest)
    ensures ReadBody(EqualBody(name) + "'" + rest) == Some(Literal(name, rest))
  {
    if name == "" {
      ReadClosing(rest);
      assert EqualBody(name) + "'" + rest == "'" + rest;
    } else {
      var tail := EqualBody(name[1..]) + "'" + rest;
      EqualBodyReads(name[1..], rest);
      Regroup(EqualChar(name[0]), EqualBody(name[1..]), "'", rest);
      EqualCharReads(name[0], tail);
      assert name == [name[0]] + name[1..];
    }
  }

  /** A name quoted for a comparison reads back as itself. */
  lemma QuotedForEqualReadsBack(name: string, rest: string)
    requires EndsLiteral(rest)
    ensures ReadLiteral("'" + EqualBody(name) + "'" + rest) == Some(Literal(name, rest))
  {
    QuoteTail(EqualBody(name), rest);
    EqualBodyReads(name, rest);
  }

  // Field terminators, given by the user with escapes of their own.

  /** Quotes are doubled unless a backslash escapes them; a dangling backslash is completed. */
  function Escaped(from: string, odd: bool): string {
    if from == "" then (if odd then "\\" else "")
    else if from[0] == '\\' then "\\" + Escaped(from[1..], !odd)
    else if from[0] == '\'' && !odd then "''" + Escaped(from[1..], false)
    else [from[0]] + Escaped(from[1..], false)
  }

  /** How many characters of the user's text belong together, and what they mean. */
  function HeadSize(from: string): nat
    requires from != ""
  {
    if from[0] == '\\' && |from| > 1 then 2 else 1
  }

  function HeadMeaning(from: string): string
    requires from != ""
  {
    if from[0] == '\\' && |from| > 1 then Escape(from[1]) else [from[0]]
  }

  /** What the user means: escapes are read, a quote and a dangling backslash stand for themselves. */
  function Meaning(from: string): string {
    if from == "" then "" else HeadMeaning(from) + Meaning(from[HeadSize(from)..])
  }

  /** What is written for the head of the text. */
  function HeadEscaped(from: string): string
    requires from != ""
  {
    if from[0] == '\\' then ['\\', if |from| > 1 then from[1] else '\\']
    else if from[0] == '\'' then "''"
    else [from[0]]
  }

  lemma EscapedHead(from: string)
    requires from != ""
    ensures Escaped(from, false) == HeadEscaped(from) + Escaped(from[HeadSize(from)..], false)
  {
    if from[0] == '\\' {
      assert Escaped(from, false) == "\\" + Escaped(from[1..], true);
      if |from| > 1 {
        assert from[1..][1..] == from[2..];
      }
    }
  }

  lemma HeadReads(from: string, tail: string)
    requires from != ""
    ensures ReadBody(HeadEscaped(from) + tail) == Prefixed(HeadMeaning(from), ReadBody(tail))
  {
    if from[0] == '\\' {
      ReadEscape(if |from| > 1 then from[1] else '\\', tail);
    } else if from[0] == '\'' {
      ReadDoubledQuote(tail);
    } else {
      ReadPlain(from[0], tail);
    }
  }

  lemma EscapedReadsHead(from: string, close: string)
    requires from != ""
    ensures ReadBody(Escaped(from, false) + close)
              == Prefixed(HeadMeaning(from), ReadBody(Escaped(from[HeadSize(from)..], false) + close))
  {
    var tail := Escaped(from[HeadSize(from)..], false) + close;
    EscapedHead(from);
    HeadReads(from, tail);
    assert Escaped(from, false) + close == HeadEscaped(from) + tail;
  }

  lemma {:induction false} EscapedReads(from: string, close: string, rest: string)
    requires ReadBody(close) == Some(Literal("", rest))
    ensures ReadBody(Escaped(from, false) + close) == Some(Literal(Meaning(from), rest))
    decreases |from|
  {
    if from == "" {
      assert Escaped(from, false) + close == close;
    } else {
      EscapedReads(from[HeadSize(from)..], close, rest);
      EscapedReadsHead(from, close);
    }
  }

  /** For every input the quoted text is one literal, closed where it is meant to be, and means what the user wrote. */
  lemma FieldEscapeIsOneLiteral(from: string, rest: string)
    requires EndsLiteral(rest)
    ensures ReadLiteral("'" + Escaped(from, false) + "'" + rest) == Some(Literal(Meaning(from), rest))
  {
    var text := "'" + Escaped(from, false) + "'" + rest;
    assert text[1..] == Escaped(from, false) + ("'" + rest);
    ReadClosing(rest);
    EscapedReads(from, "'" + rest, rest);
  }

  // The loops that write the quoted text through a moving pointer.

  lemma {:induction false} LikeBodyOn(a: string, c: char)
    ensures LikeBody(a + [c]) == LikeBody(a) + LikeChar(c)
    ensures |LikeBody(a)| <= 4 * |a|
  {
    if a == "" {
      assert a + [c] == [c];
    } else {
      LikeBodyOn(a[1..], c);
      assert (a + [c])[1..] == a[1..] + [c];
    }
  }

  lemma {:induction false} EqualBodyOn(a: string, c: char)
    ensures EqualBody(a + [c]) == EqualBody(a) + EqualChar(c)
    ensures |EqualBody(a)| <= 2 * |a|
  {
    if a == "" {
      assert a + [c] == [c];
    } else {
      EqualBodyOn(a[1..], c);
      assert (a + [c])[1..] == a[1..] + [c];
    }
  }

  /** Writes a text at `to` and moves on. */
  method Put(buff: array<char>, to: nat, s: string) returns (next: nat)
    requires to + |s| <= buff.Length
    modifies buff
    ensures next == to + |s| && buff[..next] == old(buff[..to]) + s
  {
    for i := 0 to |s|
      invariant buff[..to + i] == old(buff[..to]) + s[..i]
    {
      buff[to + i] := s[i];
      assert buff[..to + i + 1] == buff[..to + i] + [s[i]];
    }
    next := to + |s|;
    assert s[..|s|] == s;
  }

  method PutLikeChar(buff: array<char>, to: nat, c: char) returns (next: nat)
    requires to + 4 <= buff.Length
    modifies buff
    ensures next == to + |LikeChar(c)| && buff[..next] == old(buff[..to]) + LikeChar(c)
  {
    next := to;
    if c == '\\' {
      next := Put(buff, next, "\\\\\\");
    } else if c == '\'' || c == '_' || c == '%' {
      next := Put(buff, next, "\\");
    }
    next := Put(buff, next, [c]);
  }

  method QuoteForLike(name: string, buff: array<char>) returns (n: nat)
    requires 4 * |name| + 3 <= buff.Length
    modifies buff
    ensures n < buff.Length && buff[..n] == "'" + LikeBody(name) + "'" && buff[n] == NUL
  {
    var to := Put(buff, 0, "'");
    for i := 0 to |name|
      invariant to <= 4 * i + 1 && buff[..to] == "'" + LikeBody(name[..i])
    {
      LikeBodyOn(name[..i], name[i]);
      assert name[..i + 1] == name[..i] + [name[i]];
      Assoc("'", LikeBody(name[..i]), LikeChar(name[i]));
      to := PutLikeChar(buff, to, name[i]);
    }
    assert name[..|name|] == name;
    n := Put(buff, to, "'");
    buff[n] := NUL;
  }

  method PutEqualChar(buff: array<char>, to: nat, c: char) returns (next: nat)
    requires to + 2 <= buff.Length
    modifies buff
    ensures next == to + |EqualChar(c)| && buff[..next] == old(buff[..to]) + EqualChar(c)
  {
    next := to;
    if c == '\\' {
      next := Put(buff, next, "\\");
    }
    if c == '\'' {
      next := Put(buff, next, "'");
    }
    next := Put(buff, next, [c]);
  }

  method QuoteForEqual(name: string, buff: array<char>) returns (n: nat)
    requires 2 * |name| + 3 <= buff.Length
    modifies buff
    ensures n < buff.Length && buff[..n] == "'" + EqualBody(name) + "'" && buff[n] == NUL
  {
    var to := Put(buff, 0, "'");
    for i := 0 to |name|
      invariant to <= 2 * i + 1 && buff[..to] == "'" + EqualBody(name[..i])
    {
      EqualBodyOn(name[..i], name[i]);
      assert name[..i + 1] == name[..i] + [name[i]];
      Assoc("'", EqualBody(name[..i]), EqualChar(name[i]));
      to := PutEqualChar(buff, to, name[i]);
    }
    assert name[..|name|] == name;
    n := Put(buff, to, "'");
    buff[n] := NUL;
  }

  function EscapedChar(ch: char, odd: bool): string {
    if ch == '\'' && !odd then "''" else [ch]
  }

  function NextOdd(ch: char, odd: bool): bool {
    ch == '\\' && !odd
  }

  lemma EscapedFirst(from: string, i: nat, odd: bool)
    requires i < |from|
    ensures Escaped(from[i..], odd) == EscapedChar(from[i], odd) + Escaped(from[i + 1..], NextOdd(from[i], odd))
  {
    assert from[i..][1..] == from[i + 1..];
  }

  /** The dump tool's version: the quoted text, appended to a string that grows. */
  method FieldEscapeDump(from: string) returns (text: string)
    ensures text == "'" + Escaped(from, false) + "'"
  {
    text := "'";
    var odd := false;
    for i := 0 to |from|
      invariant text + Escaped(from[i..], odd) == "'" + Escaped(from, false)
    {
      assert from[i..][1..] == from[i + 1..];
      text := text + [from[i]];
      if from[i] == '\\' {
        odd := !odd;
      } else {
        if from[i] == '\'' && !odd {
          text := text + "'";
        }
        odd := false;
      }
    }
    if odd {
      text := text + "\\";
    }
    text := text + "'";
  }

  /** Writes one character of the text. */
  method PutEscapedChar(buff: array<char>, to: nat, ch: char, odd: bool) returns (next: nat, odd': bool)
    requires to + 2 <= buff.Length
    modifies buff
    ensures next == to + |EscapedChar(ch, odd)| && buff[..next] == old(buff[..to]) + EscapedChar(ch, odd)
    ensures odd' == NextOdd(ch, odd)
  {
    next := Put(buff, to, [ch]);
    if ch == '\\' {
      odd' := !odd;
    } else {
      if ch == '\'' && !odd {
        next := Put(buff, next, [ch]);
      }
      odd' := false;
    }
  }

  /** The import tool's version: the text between the quotes, written through a pointer. */
  method FieldEscapeImport(buff: array<char>, to: nat, from: string) returns (next: nat)
    requires to + 2 * |from| + 1 <= buff.Length
    modifies buff
    ensures next <= buff.Length && buff[..next] == old(buff[..to]) + Escaped(from, false)
  {
    next := to;
    var odd := false;
    for i := 0 to |from|
      invariant next <= to + 2 * i
      invariant buff[..next] + Escaped(from[i..], odd) == old(buff[..to]) + Escaped(from, false)
    {
      EscapedFirst(from, i, odd);
      Assoc(buff[..next], EscapedChar(from[i], odd), Escaped(from[i + 1..], NextOdd(from[i], odd)));
      next, odd := PutEscapedChar(buff, next, from[i], odd);
    }
    if odd {
      next := Put(buff, next, "\\");
    }
  }
}
