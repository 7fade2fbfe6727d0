/**
 Identifiers across tools: the dump tool writes a name in quotes, and the client
 reads it back as the argument of a command such as USE.
 */
module Identifiers {
  import opened Basics

  // The dump tool's side.

  function Doubled(name: string, q: char): string {
    if name == "" then ""
    else (if name[0] == q then [q, q] else [name[0]]) + Doubled(name[1..], q)
  }

  function Quoted(name: string, q: char): string {
    [q] + Doubled(name, q) + [q]
  }

  // The client's side.

  /** Whether a character at the start of `s` is escaped by the one before it, by historical or by SQL rules. */
  predicate Escapes(s: string, q: char, short: bool) {
    && |s| > 1
    && if short then s[0] == '\\'
       else (s[0] == '\\' && q != '`') || (q != NUL && s[0] == q && s[1] == q)
  }

  function Terminator(q: char): char {
    if q != NUL then q else ' '
  }

  /** An argument, and whether its terminator was found. */
  datatype Scan = Scan(value: string, closed: bool)

  function ScanFrom(s: string, q: char, short: bool): Scan {
    if s == "" then Scan("", false)
    else if Escapes(s, q, short) then
      var r := ScanFrom(s[2..], q, short);
      r.(value := [s[1]] + r.value)
    else if s[0] == Terminator(q) then Scan("", true)
    else
      var r := ScanFrom(s[1..], q, short);
      r.(value := [s[0]] + r.value)
  }

  function SkipSpaces(isSpace: char -> bool, s: string, k: nat): (r: nat)
    requires k <= |s|
    ensures k <= r <= |s|
    decreases |s| - k
  {
    if k < |s| && isSpace(s[k]) then SkipSpaces(isSpace, s, k + 1) else k
  }

  function SkipWord(isSpace: char -> bool, s: string, k: nat): (r: nat)
    requires k <= |s|
    ensures k <= r <= |s|
    decreases |s| - k
  {
    if k < |s| && !isSpace(s[k]) then SkipWord(isSpace, s, k + 1) else k
  }

  /** A short command has its letter: a lone backslash is never looked at for arguments. */
  predicate Command(isSpace: char -> bool, s: string) {
    var k := SkipSpaces(isSpace, s, 0);
    k < |s| && s[k] == '\\' ==> k + 1 < |s|
  }

  predicate IsShort(isSpace: char -> bool, s: string) {
    var k := SkipSpaces(isSpace, s, 0);
    k < |s| && s[k] == '\\'
  }

  function AfterCommand(isSpace: char -> bool, s: string): (r: nat)
    requires Command(isSpace, s)
    ensures r <= |s|
  {
    var k := SkipSpaces(isSpace, s, 0);
    if IsShort(isSpace, s) then k + 2 else SkipWord(isSpace, s, k)
  }

  /** Where the argument starts, behind an opening quote if there is one. */
  function ArgStart(isSpace: char -> bool, s: string): (r: nat)
    requires Command(isSpace, s)
    ensures r <= |s|
  {
    var k := SkipSpaces(isSpace, s, AfterCommand(isSpace, s));
    if k < |s| && IsQuote(s[k]) then k + 1 else k
  }

  function ArgQuote(isSpace: char -> bool, s: string): char
    requires Command(isSpace, s)
  {
    var k := SkipSpaces(isSpace, s, AfterCommand(isSpace, s));
    if k < |s| && IsQuote(s[k]) then s[k] else NUL
  }

  /** The first argument of a command line. */
  function Argument(isSpace: char -> bool, s: string): Option<string>
    requires Command(isSpace, s)
  {
    if AfterCommand(isSpace, s) == |s| then None
    else
      var q := ArgQuote(isSpace, s);
      var r := ScanFrom(s[ArgStart(isSpace, s)..], q, IsShort(isSpace, s));
      if r.value != "" && (q == NUL || r.closed) then Some(r.value) else None
  }

  // The round trip.

  function Onto(v: string, r: Scan): Scan {
    r.(value := v + r.value)
  }

  lemma ScanPlain(c: char, tail: string, q: char, short: bool)
    requires !Escapes([c] + tail, q, short) && c != Terminator(q)
    ensures ScanFrom([c] + tail, q, short) == Onto([c], ScanFrom(tail, q, short))
  {
    assert ([c] + tail)[1..] == tail;
  }

  lemma ScanEscaped(a: char, b: char, tail: string, q: char, short: bool)
    requires Escapes([a, b] + tail, q, short)
    ensures ScanFrom([a, b] + tail, q, short) == Onto([b], ScanFrom(tail, q, short))
  {
    assert ([a, b] + tail)[2..] == tail;
  }

  /** The rest of a quoted name, its closing quote included. */
  function Body(name: string, q: char): string {
    Doubled(name, q) + [q]
  }

  lemma BodyHead(name: string, q: char)
    requires name != ""
    ensures Body(name, q) == (if name[0] == q then [q, q] else [name[0]]) + Body(name[1..], q)
  {
  }

  /** Where a quoted name ends in a text is no question: the quote behind it is not doubled. */
  lemma {:induction false} BodyEnds(a: string, b: string, q: char, s: string, t: string)
    requires Body(a, q) + s == Body(b, q) + t && (s == "" || s[0] != q) && (t == "" || t[0] != q)
    ensures a == b && s == t
  {
    if a == "" && b == "" {
      assert (Body(a, q) + s)[1..] == s && (Body(b, q) + t)[1..] == t;
    } else if a == "" {
      BodyHead(b, q);
      EmptyBody(q, s, b, t);
    } else if b == "" {
      BodyHead(a, q);
      EmptyBody(q, t, a, s);
    } else {
      BodyHead(a, q);
      BodyHead(b, q);
      var h := if a[0] == q then [q, q] else [a[0]];
      assert (Body(a, q) + s)[0] == a[0] && (Body(b, q) + t)[0] == b[0];
      BodyTail(h, Body(a[1..], q), s);
      BodyTail(h, Body(b[1..], q), t);
      BodyEnds(a[1..], b[1..], q, s, t);
      assert a == [a[0]] + a[1..] && b == [b[0]] + b[1..];
    }
  }

  lemma BodyTail(h: string, body: string, s: string)
    ensures (h + body + s)[|h|..] == body + s
  {
  }

  lemma EmptyBody(q: char, s: string, b: string, t: string)
    requires b != "" && (s == "" || s[0] != q)
    ensures Body("", q) + s != Body(b, q) + t
  {
    BodyHead(b, q);
    var u, v := Body("", q) + s, Body(b, q) + t;
    assert u[0] == q && u[1..] == s;
    assert v[0] == b[0];
    if b[0] == q {
      assert v[1] == q;
    }
  }

  /** A quoted name is read back, unless a backslash in it means something. */
  lemma {:induction false} BodyScan(name: string, q: char)
    requires q == '`' || (q == '"' && '\\' !in name)
    ensures ScanFrom(Body(name, q), q, false) == Scan(name, true)
  {
    if name == "" {
      assert Body(name, q) == [q];
    } else {
      BodyHead(name, q);
      BodyScan(name[1..], q);
      var tail := Body(name[1..], q);
      if name[0] == q {
        ScanEscaped(q, q, tail, q, false);
      } else {
        ScanPlain(name[0], tail, q, false);
      }
      assert name == [name[0]] + name[1..];
    }
  }

  /** The characters that the commands below are made of are no white space, and a blank is. */
  predicate Sane(isSpace: char -> bool) {
    isSpace(' ') && !isSpace('U') && !isSpace('S') && !isSpace('E') && !isSpace('`') && !isSpace('"')
  }

  lemma UseArgument(isSpace: char -> bool, q: char, body: string)
    requires Sane(isSpace) && (q == '`' || q == '"')
    ensures var s := "USE " + [q] + body;
            && Command(isSpace, s)
            && Argument(isSpace, s) == (var r := ScanFrom(body, q, false);
                                        if r.value != "" && r.closed then Some(r.value) else None)
  {
    var s := "USE " + [q] + body;
    assert s[0] == 'U' && s[1] == 'S' && s[2] == 'E' && s[3] == ' ' && s[4] == q;
    assert SkipSpaces(isSpace, s, 0) == 0;
    assert SkipWord(isSpace, s, 3) == 3;
    assert SkipWord(isSpace, s, 2) == 3;
    assert SkipWord(isSpace, s, 1) == 3;
    assert SkipWord(isSpace, s, 0) == 3;
    assert SkipSpaces(isSpace, s, 4) == 4;
    assert SkipSpaces(isSpace, s, 3) == 4;
    assert s[5..] == body;
  }

  lemma UseQuoted(isSpace: char -> bool, name: string, q: char)
    requires Sane(isSpace) && (q == '`' || q == '"')
    ensures Command(isSpace, "USE " + Quoted(name, q))
    ensures Argument(isSpace, "USE " + Quoted(name, q)) == (var r := ScanFrom(Body(name, q), q, false);
                                                            if r.value != "" && r.closed then Some(r.value) else None)
  {
    assert "USE " + Quoted(name, q) == "USE " + [q] + Body(name, q);
    UseArgument(isSpace, q, Body(name, q));
  }

  /** Every non-empty name survives the trip in backticks. */
  lemma BacktickRoundTrip(isSpace: char -> bool, name: string)
    requires Sane(isSpace) && name != ""
    ensures Command(isSpace, "USE " + Quoted(name, '`'))
    ensures Argument(isSpace, "USE " + Quoted(name, '`')) == Some(name)
  {
    UseQuoted(isSpace, name, '`');
    BodyScan(name, '`');
  }

  // In double quotes, as in ANSI mode, a backslash escapes.

  /** A scan that starts on the second of two quotes, behind a backslash that took the first. */
  lemma {:induction false} ScanBoundOff(name: string)
    ensures var r := ScanFrom(['"'] + Body(name, '"'), '"', false);
            r.closed ==> |r.value| <= |name| + 1
  {
    var body := Body(name, '"');
    if name != "" && name[0] == '"' {
      BodyHead(name, '"');
      var tail := ['"'] + Body(name[1..], '"');
      ScanBoundOff(name[1..]);
      assert ['"'] + body == ['"', '"'] + tail;
      ScanEscaped('"', '"', tail, '"', false);
    } else if name == "" {
      assert ['"'] + body == ['"', '"'] + "";
      ScanEscaped('"', '"', "", '"', false);
    } else {
      BodyHead(name, '"');
      assert !Escapes(['"'] + body, '"', false);
    }
  }

  lemma ScanBoundBackslash(name: string)
    requires |name| > 1 && name[0] == '\\'
    ensures var tail := (if name[1] == '"' then ['"'] else []) + Body(name[2..], '"');
            ScanFrom(Body(name, '"'), '"', false) == Onto([name[1]], ScanFrom(tail, '"', false))
  {
    BodyHead(name, '"');
    BodyHead(name[1..], '"');
    var tail := (if name[1] == '"' then ['"'] else []) + Body(name[2..], '"');
    assert name[1..][1..] == name[2..];
    assert Body(name, '"') == ['\\', name[1]] + tail;
    ScanEscaped('\\', name[1], tail, '"', false);
  }

  lemma ScanLoneBackslash(name: string)
    requires name == "\\"
    ensures !ScanFrom(Body(name, '"'), '"', false).closed
  {
    BodyHead(name, '"');
    assert Body(name, '"') == ['\\', '"'] + "";
    ScanEscaped('\\', '"', "", '"', false);
  }

  lemma ScanHead(name: string)
    requires name != "" && name[0] != '\\'
    ensures ScanFrom(Body(name, '"'), '"', false) == Onto([name[0]], ScanFrom(Body(name[1..], '"'), '"', false))
  {
    BodyHead(name, '"');
    if name[0] == '"' {
      ScanEscaped('"', '"', Body(name[1..], '"'), '"', false);
    } else {
      ScanPlain(name[0], Body(name[1..], '"'), '"', false);
    }
  }

  /** What comes back is never longer than the name. */
  lemma {:induction false} ScanBound(name: string)
    ensures var r := ScanFrom(Body(name, '"'), '"', false);
            r.closed ==> |r.value| <= |name|
    decreases |name|
  {
    if name == "" {
      assert Body(name, '"') == ['"'];
    } else if name[0] != '\\' {
      ScanHead(name);
      ScanBound(name[1..]);
    } else if |name| == 1 {
      ScanLoneBackslash(name);
    } else {
      ScanBoundBackslash(name);
      if name[1] == '"' {
        ScanBoundOff(name[2..]);
      } else {
        assert [] + Body(name[2..], '"') == Body(name[2..], '"');
        ScanBound(name[2..]);
      }
    }
  }

  lemma {:induction false} ScanLosesBackslash(name: string)
    requires '\\' in name
    ensures ScanFrom(Body(name, '"'), '"', false) != Scan(name, true)
    decreases |name|
  {
    assert name == [name[0]] + name[1..];
    if name[0] != '\\' {
      ScanHead(name);
      ScanLosesBackslash(name[1..]);
    } else if |name| == 1 {
      ScanLoneBackslash(name);
    } else {
      ScanBoundBackslash(name);
      if name[1] == '\\' {
        assert [] + Body(name[2..], '"') == Body(name[2..], '"');
        ScanBound(name[2..]);
      }
    }
  }

  /** In double quotes a name survives the trip exactly if it has no backslash. */
  lemma AnsiRoundTripIff(isSpace: char -> bool, name: string)
    requires Sane(isSpace) && name != ""
    ensures Command(isSpace, "USE " + Quoted(name, '"'))
    ensures Argument(isSpace, "USE " + Quoted(name, '"')) == Some(name) <==> '\\' !in name
  {
    UseQuoted(isSpace, name, '"');
    if '\\' in name {
      ScanLosesBackslash(name);
    } else {
      BodyScan(name, '"');
    }
  }

  // The loops, over buffers with a terminator.

  ghost predicate Holds(line: array<char>, s: string)
    reads line
  {
    |s| < line.Length && NUL !in s && line[..|s|] == s && line[|s|] == NUL
  }

  method SkipSpacesFrom(isSpace: char -> bool, line: array<char>, ghost s: string, k: nat) returns (r: nat)
    requires Holds(line, s) && k <= |s| && !isSpace(NUL)
    ensures r == SkipSpaces(isSpace, s, k)
  {
    r := k;
    while isSpace(line[r])
      invariant k <= r <= |s| && SkipSpaces(isSpace, s, r) == SkipSpaces(isSpace, s, k)
      decreases |s| - r
    {
      assert line[r] == s[r];
      r := r + 1;
    }
    assert r < |s| ==> line[r] == s[r];
  }

  /** Where the argument starts, its quote, and whether the command was a short one; nothing if the line ends first. */
  method FindStart(isSpace: char -> bool, line: array<char>, ghost s: string)
    returns (more: bool, start: nat, q: char, short: bool)
    requires Holds(line, s) && !isSpace(NUL) && Command(isSpace, s)
    ensures short == IsShort(isSpace, s)
    ensures more <==> AfterCommand(isSpace, s) < |s|
    ensures more ==> start == ArgStart(isSpace, s) && q == ArgQuote(isSpace, s)
  {
    q := NUL;
    start := SkipSpacesFrom(isSpace, line, s, 0);
    assert start < |s| ==> line[start] == s[start];
    short := line[start] == '\\';
    if short {
      start := start + 2;
    } else {
      ghost var from := start;
      while line[start] != NUL && !isSpace(line[start])
        invariant from <= start <= |s| && SkipWord(isSpace, s, start) == SkipWord(isSpace, s, from)
        decreases |s| - start
      {
        assert line[start] == s[start];
        start := start + 1;
      }
      assert start < |s| ==> line[start] == s[start];
    }
    more := line[start] != NUL;
    assert start < |s| ==> line[start] == s[start];
    if more {
      start := SkipSpacesFrom(isSpace, line, s, start);
      assert start < |s| ==> line[start] == s[start];
      if IsQuote(line[start]) {
        q, start := line[start], start + 1;
      }
    }
  }

  /** Moves the rest of the line, terminator included, one place to the left. */
  method ShiftLeft(line: array<char>, ptr: nat, ghost s: string)
    requires Holds(line, s) && ptr < |s|
    modifies line
    ensures Holds(line, s[..ptr] + s[ptr + 1..])
  {
    var i := ptr;
    while line[i + 1] != NUL
      invariant ptr <= i < |s|
      invariant forall j :: 0 <= j < ptr ==> line[j] == s[j]
      invariant forall j :: ptr <= j < i ==> line[j] == s[j + 1]
      invariant forall j :: i < j < |s| ==> line[j] == s[j]
      invariant line[|s|] == NUL
      decreases |s| - i
    {
      line[i] := line[i + 1];
      i := i + 1;
    }
    line[i] := NUL;
    assert i == |s| - 1;
    ghost var t := s[..ptr] + s[ptr + 1..];
    assert forall j :: 0 <= j < |t| ==> line[j] == t[j];
  }

  /** The scan's test for an escape, on the buffer. */
  method EscapesAt(line: array<char>, ghost s: string, ptr: nat, q: char, short: bool) returns (b: bool)
    requires Holds(line, s) && ptr < |s|
    ensures b == Escapes(s[ptr..], q, short)
  {
    assert line[ptr] == s[ptr] && (ptr + 1 < |s| ==> line[ptr + 1] == s[ptr + 1]);
    b := if short then line[ptr] == '\\' && line[ptr + 1] != NUL
         else (line[ptr] == '\\' && line[ptr + 1] != NUL && q != '`') ||
              (q != NUL && line[ptr] == q && line[ptr + 1] == q);
  }

  /** The string with the character at `ptr` closed up. */
  function Without(s: string, ptr: nat): string
    requires ptr < |s|
  {
    s[..ptr] + s[ptr + 1..]
  }

  /** The line holds `cur`, and from `start` to `ptr` the argument as far as it has been read. */
  predicate Reading(s: string, cur: string, start: nat, ptr: nat, q: char, short: bool)
    requires start <= |s|
  {
    start <= ptr <= |cur| && Onto(cur[start..ptr], ScanFrom(cur[ptr..], q, short)) == ScanFrom(s[start..], q, short)
  }

  lemma ReadEscape(s: string, cur: string, start: nat, ptr: nat, q: char, short: bool)
    requires start <= |s| && Reading(s, cur, start, ptr, q, short) && Escapes(cur[ptr..], q, short)
    ensures Reading(s, Without(cur, ptr), start, ptr + 1, q, short)
  {
    var t := Without(cur, ptr);
    assert t[ptr + 1..] == cur[ptr..][2..];
    assert t[start..ptr + 1] == cur[start..ptr] + [cur[ptr + 1]];
  }

  lemma ReadOn(s: string, cur: string, start: nat, ptr: nat, q: char, short: bool)
    requires start <= |s| && Reading(s, cur, start, ptr, q, short) && ptr < |cur|
    requires !Escapes(cur[ptr..], q, short) && cur[ptr] != Terminator(q)
    ensures Reading(s, cur, start, ptr + 1, q, short)
  {
    assert cur[ptr + 1..] == cur[ptr..][1..];
    assert cur[start..ptr + 1] == cur[start..ptr] + [cur[ptr]];
  }

  lemma ReadEnd(s: string, cur: string, start: nat, ptr: nat, q: char, short: bool)
    requires start <= |s| && Reading(s, cur, start, ptr, q, short)
    requires ptr < |cur| ==> !Escapes(cur[ptr..], q, short) && cur[ptr] == Terminator(q)
    ensures Scan(cur[start..ptr], ptr < |cur|) == ScanFrom(s[start..], q, short)
  {
  }

  /** One turn of the scan in place: an escape is closed up. */
  method ReadInPlace(line: array<char>, ghost s: string, ghost cur: string, ghost start: nat, ptr: nat, q: char, short: bool)
    returns (done: bool, ghost cur': string)
    requires Holds(line, cur) && start <= |s| && Reading(s, cur, start, ptr, q, short) && ptr < |cur|
    modifies line
    ensures Holds(line, cur')
    ensures done ==> cur' == cur && Scan(cur[start..ptr], true) == ScanFrom(s[start..], q, short)
    ensures !done ==> Reading(s, cur', start, ptr + 1, q, short) && |cur'| <= |cur|
  {
    var escape := EscapesAt(line, cur, ptr, q, short);
    assert line[ptr] == cur[ptr];
    done, cur' := false, cur;
    if escape {
      ReadEscape(s, cur, start, ptr, q, short);
      ShiftLeft(line, ptr, cur);
      cur' := Without(cur, ptr);
    } else if line[ptr] == Terminator(q) {
      ReadEnd(s, cur, start, ptr, q, short);
      done := true;
    } else {
      ReadOn(s, cur, start, ptr, q, short);
    }
  }

  /** Ends the string at `end`. */
  method Terminate(line: array<char>, ghost cur: string, ghost start: nat, end: nat)
    requires Holds(line, cur) && start <= end <= |cur|
    modifies line
    ensures line[end] == NUL && line[start..end] == cur[start..end]
  {
    line[end] := NUL;
    assert forall j :: start <= j < end ==> line[j] == cur[j];
  }

  /** Reads the argument in place; its terminator becomes the end of the string. */
  method ScanInPlace(line: array<char>, ghost s: string, start: nat, q: char, short: bool) returns (end: nat, closed: bool)
    requires Holds(line, s) && start <= |s|
    modifies line
    ensures start <= end < line.Length && line[end] == NUL
    ensures Scan(line[start..end], closed) == ScanFrom(s[start..], q, short)
  {
    end, closed := start, false;
    ghost var cur := s;
    while line[end] != NUL && !closed
      invariant Holds(line, cur) && start <= end <= |cur|
      invariant closed ==> Scan(cur[start..end], true) == ScanFrom(s[start..], q, short)
      invariant !closed ==> Reading(s, cur, start, end, q, short)
      decreases |cur| - end, !closed
    {
      closed, cur := ReadInPlace(line, s, cur, start, end, q, short);
      if !closed {
        end := end + 1;
      }
    }
    if !closed {
      ReadEnd(s, cur, start, end, q, short);
    }
    Terminate(line, cur, start, end);
  }

  /** The first argument of a command, in place: where its string starts. */
  method GetArg(isSpace: char -> bool, line: array<char>, ghost s: string) returns (r: Option<nat>, ghost end: nat)
    requires Holds(line, s) && !isSpace(NUL) && Command(isSpace, s)
    modifies line
    ensures r.Some? <==> Argument(isSpace, s).Some?
    ensures r.Some? ==> r.value <= end < line.Length && line[end] == NUL
                        && line[r.value..end] == Argument(isSpace, s).value
  {
    var more, start, q, short := FindStart(isSpace, line, s);
    if !more {
      return None, 0;
    }
    var ptr, closed := ScanInPlace(line, s, start, q, short);
    end := ptr;
    r := if ptr != start && (q == NUL || closed) then Some(start) else None;
  }

  /** Walks over the argument without touching the line: an escape is stepped over. */
  method ScanOver(line: array<char>, ghost s: string, start: nat, q: char, short: bool) returns (end: nat, closed: bool)
    requires Holds(line, s) && start <= |s|
    ensures closed == ScanFrom(s[start..], q, short).closed
    ensures end != start <==> ScanFrom(s[start..], q, short).value != ""
  {
    end, closed := start, false;
    while line[end] != NUL
      invariant start <= end <= |s|
      invariant ScanFrom(s[start..], q, short).closed == ScanFrom(s[end..], q, short).closed
      invariant end != start ==> ScanFrom(s[start..], q, short).value != ""
      decreases |s| - end
    {
      assert line[end] == s[end];
      var escape := EscapesAt(line, s, end, q, short);
      if escape {
        assert s[end..][2..] == s[end + 2..];
        end := end + 2;
      } else if line[end] == Terminator(q) {
        return end, true;
      } else {
        assert s[end..][1..] == s[end + 1..];
        end := end + 1;
      }
    }
  }

  /** The same question without touching the line. */
  method CheckArg(isSpace: char -> bool, line: array<char>, ghost s: string) returns (found: bool)
    requires Holds(line, s) && !isSpace(NUL) && Command(isSpace, s)
    ensures found <==> Argument(isSpace, s).Some?
  {
    var more, start, q, short := FindStart(isSpace, line, s);
    if !more {
      return false;
    }
    var ptr, closed := ScanOver(line, s, start, q, short);
    found := ptr != start && (q == NUL || closed);
  }

  lemma {:induction false} DoubledOn(a: string, c: char, q: char)
    ensures Doubled(a + [c], q) == Doubled(a, q) + if c == q then [q, q] else [c]
    ensures |Doubled(a, q)| <= 2 * |a|
  {
    var d := if c == q then [q, q] else [c];
    if a == "" {
      assert a + [c] == [c];
      assert d + "" == d;
    } else {
      DoubledOn(a[1..], c, q);
      assert (a + [c])[1..] == a[1..] + [c];
      Assoc(if a[0] == q then [q, q] else [a[0]], Doubled(a[1..], q), d);
    }
  }

  /** Writes one character of a name. */
  method PutDoubled(buff: array<char>, to: nat, ch: char, q: char) returns (next: nat)
    requires to + 2 <= buff.Length
    modifies buff
    ensures to < next <= to + 2
    ensures buff[..next] == old(buff[..to]) + if ch == q then [q, q] else [ch]
  {
    next := to;
    if ch == q {
      buff[next] := q;
      next := next + 1;
    }
    buff[next] := ch;
    next := next + 1;
  }

  /** Writes a quoted name, with its terminator, through a moving pointer. */
  method QuoteName(name: string, buff: array<char>, q: char) returns (n: nat)
    requires 2 * |name| + 3 <= buff.Length
    modifies buff
    ensures n < buff.Length && buff[..n] == Quoted(name, q) && buff[n] == NUL
  {
    buff[0] := q;
    var to := 1;
    for i := 0 to |name|
      invariant 1 <= to <= 2 * i + 1 && buff[..to] == [q] + Doubled(name[..i], q)
    {
      DoubledOn(name[..i], name[i], q);
      assert name[..i + 1] == name[..i] + [name[i]];
      Assoc([q], Doubled(name[..i], q), if name[i] == q then [q, q] else [name[i]]);
      to := PutDoubled(buff, to, name[i], q);
    }
    assert name[..|name|] == name;
    buff[to] := q;
    buff[to + 1] := NUL;
    n := to + 1;
  }
}
