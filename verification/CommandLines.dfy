/**
 The argument of a client command, read back from any line it may be written on.

 A line is a command, white space and an argument: a short command is a backslash
 and a letter, any other a word. The argument may be in quotes. Characters may be
 escaped by a backslash or, for words, by doubling the quote.
 */
module CommandLines {
  import opened Basics
  import opened Identifiers

  predicate AllSpace(isSpace: char -> bool, s: string) {
    forall i :: 0 <= i < |s| ==> isSpace(s[i])
  }

  predicate NoSpace(isSpace: char -> bool, s: string) {
    forall i :: 0 <= i < |s| ==> !isSpace(s[i])
  }

  /** `w` writes `name`, inside quote `q` (NUL: none), by the rules of short commands or of others. */
  predicate Writes(w: string, name: string, q: char, short: bool)
    decreases |w|
  {
    if w == "" then name == ""
    else if w[0] == '\\' && (short || q != '`') then
      |w| > 1 && name != "" && name[0] == w[1] && Writes(w[2..], name[1..], q, short)
    else if !short && q != NUL && w[0] == q then
      |w| > 1 && w[1] == q && name != "" && name[0] == q && Writes(w[2..], name[1..], q, short)
    else
      && w[0] != (if q == NUL then ' ' else q)
      && name != "" && name[0] == w[0] && Writes(w[1..], name[1..], q, short)
  }

  /** What ends an argument: a space or the end of the line, or the quote. */
  predicate Closes(tail: string, q: char, short: bool) {
    if q == NUL then tail == "" || tail[0] == ' '
    else tail != "" && tail[0] == q && (short || |tail| == 1 || tail[1] != q)
  }

  /** A command: a backslash and a letter, or a word that white space follows. */
  predicate IsCommand(isSpace: char -> bool, word: string, gap: string, short: bool) {
    if short then |word| == 2 && word[0] == '\\'
    else word != "" && word[0] != '\\' && NoSpace(isSpace, word) && gap != ""
  }

  function Opening(q: char): string {
    if q == NUL then "" else [q]
  }

  /** An escaped character, however it is escaped. */
  predicate EscapedFirst(w: string, q: char, short: bool) {
    w != "" && ((w[0] == '\\' && (short || q != '`')) || (!short && q != NUL && w[0] == q))
  }

  lemma WrittenEscape(w: string, name: string, q: char, short: bool, tail: string)
    requires Writes(w, name, q, short) && EscapedFirst(w, q, short) && (q == NUL || IsQuote(q))
    ensures |w| > 1 && name != "" && Writes(w[2..], name[1..], q, short)
    ensures ScanFrom(w + tail, q, short) == Onto([name[0]], ScanFrom(w[2..] + tail, q, short))
  {
    assert w + tail == [w[0], w[1]] + (w[2..] + tail);
    ScanEscaped(w[0], w[1], w[2..] + tail, q, short);
  }

  lemma WrittenPlain(w: string, name: string, q: char, short: bool, tail: string)
    requires w != "" && Writes(w, name, q, short) && !EscapedFirst(w, q, short) && (q == NUL || IsQuote(q))
    ensures name != "" && Writes(w[1..], name[1..], q, short)
    ensures ScanFrom(w + tail, q, short) == Onto([name[0]], ScanFrom(w[1..] + tail, q, short))
  {
    assert w + tail == [w[0]] + (w[1..] + tail);
    ScanPlain(w[0], w[1..] + tail, q, short);
  }

  /** The first character of the argument, and how much of the writing it takes. */
  lemma WrittenFirst(w: string, name: string, q: char, short: bool, tail: string) returns (n: nat)
    requires w != "" && Writes(w, name, q, short) && (q == NUL || IsQuote(q))
    ensures 0 < n <= |w| && name != "" && Writes(w[n..], name[1..], q, short)
    ensures ScanFrom(w + tail, q, short) == Onto([name[0]], ScanFrom(w[n..] + tail, q, short))
  {
    if EscapedFirst(w, q, short) {
      n := 2;
      WrittenEscape(w, name, q, short, tail);
    } else {
      n := 1;
      WrittenPlain(w, name, q, short, tail);
    }
  }

  lemma ScanTail(tail: string, q: char, short: bool)
    requires (q == NUL || IsQuote(q)) && (tail == "" || Closes(tail, q, short))
    ensures ScanFrom(tail, q, short) == Scan("", tail != "")
  {
  }

  /** The scan reads what is written, and then whatever ends or does not end the argument. */
  lemma {:induction false} ScanWritten(w: string, name: string, q: char, short: bool, tail: string)
    requires Writes(w, name, q, short) && (q == NUL || IsQuote(q)) && (tail == "" || Closes(tail, q, short))
    ensures ScanFrom(w + tail, q, short) == Scan(name, tail != "")
    decreases |w|
  {
    if w == "" {
      assert w + tail == tail;
      ScanTail(tail, q, short);
    } else {
      var n := WrittenFirst(w, name, q, short, tail);
      ScanWritten(w[n..], name[1..], q, short, tail);
      assert name == [name[0]] + name[1..];
    }
  }

  lemma {:induction false} SpacesSkipped(isSpace: char -> bool, a: string, gap: string, rest: string, k: nat)
    requires AllSpace(isSpace, gap) && (rest == "" || !isSpace(rest[0])) && k <= |gap|
    ensures SkipSpaces(isSpace, a + gap + rest, |a| + k) == |a| + |gap|
    decreases |gap| - k
  {
    var s := a + gap + rest;
    if k == |gap| {
      assert rest != "" ==> s[|a| + k] == rest[0];
    } else {
      assert s[|a| + k] == gap[k];
      SpacesSkipped(isSpace, a, gap, rest, k + 1);
    }
  }

  lemma {:induction false} WordSkipped(isSpace: char -> bool, a: string, word: string, rest: string, k: nat)
    requires NoSpace(isSpace, word) && rest != "" && isSpace(rest[0]) && k <= |word|
    ensures SkipWord(isSpace, a + word + rest, |a| + k) == |a| + |word|
    decreases |word| - k
  {
    var s := a + word + rest;
    if k == |word| {
      assert s[|a| + k] == rest[0];
    } else {
      assert s[|a| + k] == word[k];
      WordSkipped(isSpace, a, word, rest, k + 1);
    }
  }

  /** Behind leading white space and the command the argument begins. */
  lemma CommandSkipped(isSpace: char -> bool, lead: string, word: string, gap: string, rest: string, short: bool)
    requires AllSpace(isSpace, lead) && AllSpace(isSpace, gap) && IsCommand(isSpace, word, gap, short) && !isSpace('\\')
    ensures var s := lead + word + (gap + rest);
            && Command(isSpace, s) && IsShort(isSpace, s) == short
            && AfterCommand(isSpace, s) == |lead| + |word|
  {
    var s := lead + word + (gap + rest);
    assert s == "" + lead + (word + (gap + rest)) && word[0] == (word + (gap + rest))[0];
    SpacesSkipped(isSpace, "", lead, word + (gap + rest), 0);
    assert s[|lead|] == word[0] && (short ==> s[|lead| + 1] == word[1]);
    if !short {
      WordSkipped(isSpace, lead, word, gap + rest, 0);
    }
  }

  lemma GapSkipped(isSpace: char -> bool, front: string, gap: string, rest: string)
    requires AllSpace(isSpace, gap) && rest != "" && !isSpace(rest[0])
    ensures var s := front + (gap + rest);
            SkipSpaces(isSpace, s, |front|) == |front| + |gap| && s[|front| + |gap|] == rest[0] && s[|front| + |gap|..] == rest
  {
    Assoc(front, gap, rest);
    SpacesSkipped(isSpace, front, gap, rest, 0);
    Behind(front + gap, rest);
  }

  lemma Behind(a: string, b: string)
    requires b != ""
    ensures (a + b)[|a|] == b[0] && (a + b)[|a|..] == b
  {
  }

  /** The line of a command and an argument. */
  function CommandLine(lead: string, word: string, gap: string, q: char, w: string, tail: string): string {
    lead + word + (gap + (Opening(q) + (w + tail)))
  }

  /** Where the argument is found, and its quote. */
  lemma ArgumentAt(isSpace: char -> bool, lead: string, word: string, gap: string, short: bool, q: char, rest: string)
    requires AllSpace(isSpace, lead) && AllSpace(isSpace, gap) && IsCommand(isSpace, word, gap, short) && !isSpace('\\')
    requires if q == NUL then rest != "" && !IsQuote(rest[0]) && !isSpace(rest[0]) else IsQuote(q) && !isSpace(q)
    ensures var s := lead + word + (gap + (Opening(q) + rest));
            && Command(isSpace, s) && IsShort(isSpace, s) == short && AfterCommand(isSpace, s) < |s|
            && ArgQuote(isSpace, s) == q && s[ArgStart(isSpace, s)..] == rest
  {
    var arg := Opening(q) + rest;
    CommandSkipped(isSpace, lead, word, gap, arg, short);
    GapSkipped(isSpace, lead + word, gap, arg);
    OpeningBefore(q, rest);
  }

  lemma OpeningBefore(q: char, rest: string)
    requires q != NUL || rest != ""
    ensures (Opening(q) + rest)[0] == (if q == NUL then rest[0] else q) && (Opening(q) + rest)[|Opening(q)|..] == rest
  {
  }

  /** What the command reads is the argument as it was written, whatever follows it. */
  lemma ArgumentIs(isSpace: char -> bool, lead: string, word: string, gap: string, short: bool,
                   q: char, w: string, name: string, tail: string)
    requires AllSpace(isSpace, lead) && AllSpace(isSpace, gap) && IsCommand(isSpace, word, gap, short) && !isSpace('\\')
    requires w != "" && name != "" && Writes(w, name, q, short) && Closes(tail, q, short)
    requires if q == NUL then !IsQuote(w[0]) && !isSpace(w[0]) else IsQuote(q) && !isSpace(q)
    ensures var s := CommandLine(lead, word, gap, q, w, tail);
            Command(isSpace, s) && Argument(isSpace, s) == Some(name)
  {
    ArgumentAt(isSpace, lead, word, gap, short, q, w + tail);
    ScanWritten(w, name, q, short, tail);
  }

  /** Nothing is read where a quote is not closed, or nothing is written. */
  lemma NoArgument(isSpace: char -> bool, lead: string, word: string, gap: string, short: bool,
                   q: char, w: string, name: string, tail: string)
    requires AllSpace(isSpace, lead) && AllSpace(isSpace, gap) && IsCommand(isSpace, word, gap, short) && !isSpace('\\')
    requires IsQuote(q) && !isSpace(q) && Writes(w, name, q, short)
    requires tail == "" || (name == "" && Closes(tail, q, short))
    ensures var s := CommandLine(lead, word, gap, q, w, tail);
            Command(isSpace, s) && Argument(isSpace, s).None?
  {
    ArgumentAt(isSpace, lead, word, gap, short, q, w + tail);
    ScanWritten(w, name, q, short, tail);
  }

  /** A line that ends with its command has no argument. */
  lemma BareCommand(isSpace: char -> bool, lead: string, word: string, gap: string, short: bool)
    requires AllSpace(isSpace, lead) && AllSpace(isSpace, gap) && IsCommand(isSpace, word, gap, short) && !isSpace('\\')
    ensures var s := lead + word + (gap + ""); Command(isSpace, s) && Argument(isSpace, s).None?
  {
    CommandSkipped(isSpace, lead, word, gap, "", short);
    assert lead + word + (gap + "") == lead + word + gap + "";
    SpacesSkipped(isSpace, lead + word, gap, "", 0);
  }
}
