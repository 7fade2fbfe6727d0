/**
 The consumer of quoted text: how the server reads a string literal with
 backslash escapes, and how it matches a LIKE pattern.
 */
module SqlLiterals {
  import opened Basics

  /** What a backslash and a character stand for; a wildcard keeps its backslash. */
  function Escape(c: char): string {
    match c
    case 'n' => "\n"
    case 't' => "\t"
    case 'r' => "\r"
    case 'b' => [8 as char]
    case '0' => [0 as char]
    case 'Z' => [26 as char]
    case '_' => "\\_"
    case '%' => "\\%"
    case _ => [c]
  }

  /** A literal's value, and the text behind its closing quote. */
  datatype Literal = Literal(value: string, rest: string)

  function Prefixed(s: string, r: Option<Literal>): Option<Literal> {
    match r
    case None => None
    case Some(l) => Some(l.(value := s + l.value))
  }

  /** Reads on from inside a literal; None if the text ends before the literal does. */
  function ReadBody(s: string): Option<Literal> {
    if s == "" then None
    else if s[0] == '\\' then
      if |s| == 1 then None else Prefixed(Escape(s[1]), ReadBody(s[2..]))
    else if s[0] == '\'' then
      if |s| > 1 && s[1] == '\'' then Prefixed("'", ReadBody(s[2..])) else Some(Literal("", s[1..]))
    else
      Prefixed([s[0]], ReadBody(s[1..]))
  }

  /** Reads a literal that starts the text. */
  function ReadLiteral(s: string): Option<Literal> {
    if s != "" && s[0] == '\'' then ReadBody(s[1..]) else None
  }

  /** Whether a text matches a LIKE pattern with backslash as the escape character. */
  predicate Like(pattern: string, s: string)
    decreases |pattern|, |s|
  {
    if pattern == "" then s == ""
    else if pattern[0] == '%' then
      Like(pattern[1..], s) || (s != "" && Like(pattern, s[1..]))
    else if pattern[0] == '_' then
      s != "" && Like(pattern[1..], s[1..])
    else if pattern[0] == '\\' && |pattern| > 1 then
      s != "" && s[0] == pattern[1] && Like(pattern[2..], s[1..])
    else
      s != "" && s[0] == pattern[0] && Like(pattern[1..], s[1..])
  }

  /** Text that does not continue a literal that has just been closed. */
  predicate EndsLiteral(rest: string) {
    rest == "" || rest[0] != '\''
  }

  // Steps of the reader, as its writers see them.

  lemma ReadPlain(c: char, s: string)
    requires c != '\\' && c != '\''
    ensures ReadBody([c] + s) == Prefixed([c], ReadBody(s))
  {
    assert ([c] + s)[1..] == s;
  }

  lemma ReadEscape(c: char, s: string)
    ensures ReadBody(['\\', c] + s) == Prefixed(Escape(c), ReadBody(s))
  {
    assert (['\\', c] + s)[2..] == s;
  }

  lemma ReadDoubledQuote(s: string)
    ensures ReadBody("''" + s) == Prefixed("'", ReadBody(s))
  {
    assert ("''" + s)[2..] == s;
  }

  lemma ReadClosing(rest: string)
    requires EndsLiteral(rest)
    ensures ReadBody("'" + rest) == Some(Literal("", rest))
  {
    assert ("'" + rest)[1..] == rest;
  }
}
