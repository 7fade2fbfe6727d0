/**
 Triggers in a dump: the dump tool frames each trigger in DELIMITER commands, and
 the import tool finds the frames again, takes the triggers out and keeps the
 rest of the script.
 */
module TriggerExtraction {
  import opened Basics

  const PREFIX: string := "\nDELIMITER ;;\n"
  const SUFFIX: string := ";;\nDELIMITER ;\n"

  // Searching, as std::string::find does it.

  ghost predicate Occurs(text: string, t: string) {
    exists i: nat :: StartsWith(text, i, t)
  }

  /** The first occurrence at or behind `from`; the length of the text if there is none. */
  function Find(text: string, t: string, from: nat): (r: nat)
    requires from <= |text| && t != ""
    ensures from <= r <= |text|
    ensures r < |text| ==> StartsWith(text, r, t)
    decreases |text| - from
  {
    if from == |text| || StartsWith(text, from, t) then from else Find(text, t, from + 1)
  }

  lemma {:induction false} FindIsFirst(text: string, t: string, from: nat)
    requires from <= |text| && t != ""
    ensures forall i :: from <= i < Find(text, t, from) ==> !StartsWith(text, i, t)
    decreases |text| - from
  {
    if from == |text| {
    } else {
      FindIsFirst(text, t, from + 1);
    }
  }

  lemma {:induction false} FindUnique(text: string, t: string, from: nat, r: nat)
    requires from <= r <= |text| && t != "" && (r < |text| ==> StartsWith(text, r, t))
    requires forall i :: from <= i < r ==> !StartsWith(text, i, t)
    ensures Find(text, t, from) == r
    decreases r - from
  {
    if from == r {
    } else {
      FindUnique(text, t, from + 1, r);
    }
  }

  lemma FindIs(text: string, t: string, from: nat, r: nat)
    requires from <= r < |text| && t != ""
    ensures Find(text, t, from) == r <==>
            StartsWith(text, r, t) && forall i :: from <= i < r ==> !StartsWith(text, i, t)
  {
    FindIsFirst(text, t, from);
    if StartsWith(text, r, t) && forall i :: from <= i < r ==> !StartsWith(text, i, t) {
      FindUnique(text, t, from, r);
    }
  }

  // The import tool.

  datatype Parsed = Parsed(text: string, triggers: seq<string>)

  /** The text between two marks, the first one `size` long; marks that overlap give everything behind the first. */
  function Between(size: nat, text: string, pos: nat, end: nat): string
    requires pos + size <= |text| && end <= |text|
  {
    if pos + size <= end then text[pos + size..end] else text[pos + size..]
  }

  datatype Extracted = Nothing | One(trigger: string, rest: string)

  /** The first text between two marks, and the script without it and the marks. */
  function ExtractBetween(prefix: string, suffix: string, text: string): (r: Extracted)
    requires prefix != "" && suffix != ""
    ensures r.One? ==> |r.rest| < |text|
  {
    var pos := Find(text, prefix, 0);
    if pos == |text| then Nothing
    else
      var end := Find(text, suffix, pos);
      if end == |text| then Nothing
      else One(Between(|prefix|, text, pos, end), text[..pos] + text[end + |suffix|..])
  }

  /** The first framed trigger, and the script without it and its frame. */
  function ExtractFirst(text: string): (r: Extracted)
    ensures r.One? ==> |r.rest| < |text|
  {
    ExtractBetween(PREFIX, SUFFIX, text)
  }

  function Parse(text: string): Parsed
    decreases |text|
  {
    match ExtractFirst(text)
    case Nothing => Parsed(text, [])
    case One(trigger, rest) =>
      var p := Parse(rest);
      Parsed(p.text, [trigger] + p.triggers)
  }

  method FindFrom(text: string, t: string, from: nat) returns (r: nat)
    requires from <= |text| && t != ""
    ensures r == Find(text, t, from)
  {
    r := from;
    while r < |text| && !(r + |t| <= |text| && text[r..r + |t|] == t)
      invariant from <= r <= |text| && Find(text, t, r) == Find(text, t, from)
    {
      r := r + 1;
    }
  }

  method ExtractOne(text: string) returns (r: Extracted)
    ensures r == ExtractFirst(text)
  {
    var pos := FindFrom(text, PREFIX, 0);
    if pos == |text| {
      return Nothing;
    }
    var end := FindFrom(text, SUFFIX, pos);
    if end == |text| {
      return Nothing;
    }
    return One(Between(|PREFIX|, text, pos, end), text[..pos] + text[end + |SUFFIX|..]);
  }

  /** Erases one framed trigger after another from the script; every erasure shortens it. */
  method ParseSqlScript(script: string) returns (text: string, triggers: seq<string>)
    ensures Parsed(text, triggers) == Parse(script)
  {
    text, triggers := script, [];
    var r := ExtractOne(text);
    while r.One?
      invariant r == ExtractFirst(text)
      invariant Parse(script) == Parsed(Parse(text).text, triggers + Parse(text).triggers)
      decreases |text|
    {
      triggers := triggers + [r.trigger];
      text := r.rest;
      r := ExtractOne(text);
    }
  }

  // The dump tool.

  /** A trigger's statement as the dump writes it. */
  function Wrapped(statement: string): string {
    "/*!50003 " + statement + " */"
  }

  /** Plain text and triggers in turn; the newline in front of a frame ends the plain text. */
  function Script(plain: seq<string>, bodies: seq<string>): string
    requires |plain| == |bodies| + 1
  {
    if bodies == [] then plain[0]
    else plain[0] + (PREFIX + (bodies[0] + (SUFFIX + Script(plain[1..], bodies[1..]))))
  }

  /** No mark ends, and none starts early, inside the body. */
  ghost predicate BodyOk(body: string) {
    !Occurs(body, SUFFIX) && !("DELIMITER ;\n" <= body + SUFFIX)
  }

  lemma OccursInFront(a: string, b: string, t: string, i: nat)
    requires i + |t| <= |a|
    ensures StartsWith(a + b, i, t) <==> StartsWith(a, i, t)
  {
    assert (a + b)[i..i + |t|] == a[i..i + |t|];
  }

  lemma OccursBehind(a: string, b: string, t: string, i: nat)
    requires |a| <= i
    ensures StartsWith(a + b, i, t) <==> StartsWith(b, i - |a|, t)
  {
    if i + |t| <= |a + b| {
      assert (a + b)[i..i + |t|] == b[i - |a|..i - |a| + |t|];
    }
  }

  /** A mark whose first character comes back only at its end stands before another only if it ends with its start. */
  lemma MarkBefore(plain: string, mark: string, rest: string, i: nat)
    requires |mark| >= 2 && forall k :: 0 < k < |mark| - 1 ==> mark[k] != mark[0]
    requires i < |plain|
    ensures StartsWith(plain + (mark + rest), i, mark) <==> StartsWith(plain + [mark[0]], i, mark)
  {
    var text, front := plain + (mark + rest), plain + [mark[0]];
    assert text == front + (mark[1..] + rest);
    assert text[|plain|] == mark[0];
    if i + |mark| <= |plain| + 1 {
      OccursInFront(front, mark[1..] + rest, mark, i);
    } else if StartsWith(text, i, mark) {
      StartsWithAt(text, i, mark, |plain| - i);
    }
  }

  /** So it is found where it was put, or a part of it is older. */
  lemma MarkFound(plain: string, mark: string, rest: string)
    requires |mark| >= 2 && forall k :: 0 < k < |mark| - 1 ==> mark[k] != mark[0]
    ensures Find(plain + (mark + rest), mark, 0) == |plain| <==> !Occurs(plain + [mark[0]], mark)
  {
    var text, front := plain + (mark + rest), plain + [mark[0]];
    Slices(plain, mark, rest);
    FindIs(text, mark, 0, |plain|);
    forall i: nat | i < |plain|
      ensures StartsWith(text, i, mark) <==> StartsWith(front, i, mark)
    {
      MarkBefore(plain, mark, rest, i);
    }
    if Occurs(front, mark) {
      var i: nat :| StartsWith(front, i, mark);
      assert i < |plain|;
    }
  }

  /** The opening mark is found where it was put exactly if the plain text has no such line. */
  lemma PrefixFound(plain: string, rest: string)
    ensures Find(plain + (PREFIX + rest), PREFIX, 0) == |plain| <==> !Occurs(plain + "\n", PREFIX)
  {
    MarkFound(plain, PREFIX, rest);
  }

  /** The closing mark's own characters keep it from overlapping itself. */
  lemma SuffixInBody(body: string, rest: string, i: nat)
    requires i < |body|
    ensures StartsWith(body + (SUFFIX + rest), i, SUFFIX) <==> StartsWith(body, i, SUFFIX)
  {
    var inner := body + (SUFFIX + rest);
    assert inner[|body|] == SUFFIX[0] && inner[|body| + 1] == SUFFIX[1];
    if i + |SUFFIX| <= |body| {
      OccursInFront(body, SUFFIX + rest, SUFFIX, i);
    } else if StartsWith(inner, i, SUFFIX) {
      var d := |body| - i;
      if d + 1 < |SUFFIX| {
        StartsWithAt(inner, i, SUFFIX, d + 1);
      }
      StartsWithAt(inner, i, SUFFIX, d);
    }
  }

  /** Inside the opening mark a closing mark can only start at its two semicolons. */
  lemma SuffixInPrefix(inner: string, k: nat)
    requires k < |PREFIX| && 12 <= |inner|
    ensures StartsWith(PREFIX + inner, k, SUFFIX) <==> k == 11 && inner[..12] == "DELIMITER ;\n"
  {
    if k == 11 {
      var found := (PREFIX + inner)[11..11 + |SUFFIX|];
      assert found == ";;\n" + inner[..12] && SUFFIX == ";;\n" + "DELIMITER ;\n";
      assert found[3..] == inner[..12] && SUFFIX[3..] == "DELIMITER ;\n";
    } else if StartsWith(PREFIX + inner, k, SUFFIX) {
      StartsWithAt(PREFIX + inner, k, SUFFIX, 0);
      StartsWithAt(PREFIX + inner, k, SUFFIX, 1);
    }
  }

  /** A closing mark in front of the one that was put there. */
  ghost predicate Early(body: string, rest: string) {
    exists i: nat :: i < |PREFIX| + |body| && StartsWith(PREFIX + (body + (SUFFIX + rest)), i, SUFFIX)
  }

  lemma EarlyIff(body: string, rest: string)
    ensures Early(body, rest) <==> !BodyOk(body)
  {
    var inner := body + (SUFFIX + rest);
    assert inner[..12] == (body + SUFFIX)[..12];
    assert "DELIMITER ;\n" <= body + SUFFIX <==> inner[..12] == "DELIMITER ;\n";
    if Early(body, rest) {
      var i: nat :| i < |PREFIX| + |body| && StartsWith(PREFIX + inner, i, SUFFIX);
      if i < |PREFIX| {
        SuffixInPrefix(inner, i);
      } else {
        OccursBehind(PREFIX, inner, SUFFIX, i);
        SuffixInBody(body, rest, i - |PREFIX|);
      }
    }
    if inner[..12] == "DELIMITER ;\n" {
      SuffixInPrefix(inner, 11);
    }
    if Occurs(body, SUFFIX) {
      var i: nat :| StartsWith(body, i, SUFFIX);
      SuffixInBody(body, rest, i);
      OccursBehind(PREFIX, inner, SUFFIX, i + |PREFIX|);
    }
  }

  /** Searching behind a text is searching what follows it. */
  lemma FindBehind(plain: string, framed: string, t: string, k: nat)
    requires t != "" && k <= |framed|
    ensures Find(plain + framed, t, |plain| + k) == |plain| + Find(framed, t, k)
  {
    var text, r := plain + framed, Find(framed, t, k);
    FindIsFirst(framed, t, k);
    OccursBehind(plain, framed, t, |plain| + r);
    forall i | |plain| + k <= i < |plain| + r ensures !StartsWith(text, i, t) {
      OccursBehind(plain, framed, t, i);
      assert !StartsWith(framed, i - |plain|, t);
    }
    FindUnique(text, t, |plain| + k, |plain| + r);
  }

  lemma Slices(a: string, m: string, r: string)
    ensures var s := a + (m + r);
            s[..|a|] == a && s[|a|..|a| + |m|] == m && s[|a| + |m|..] == r && StartsWith(s, |a|, m)
  {
  }

  lemma MarkAt(prefix: string, body: string, suffix: string, rest: string)
    ensures StartsWith(prefix + (body + (suffix + rest)), |prefix| + |body|, suffix)
  {
    assert prefix + (body + (suffix + rest)) == (prefix + body) + (suffix + rest);
    Slices(prefix + body, suffix, rest);
  }

  lemma FindNotEarly(framed: string, t: string, k: nat)
    requires t != "" && k < |framed| && StartsWith(framed, k, t)
    ensures Find(framed, t, 0) == k <==> !exists i: nat :: i < k && StartsWith(framed, i, t)
  {
    FindIs(framed, t, 0, k);
  }

  /** The closing mark is found where it was put exactly if the body holds none and starts none. */
  lemma SuffixFound(plain: string, body: string, rest: string)
    ensures var text := plain + (PREFIX + (body + (SUFFIX + rest)));
            Find(text, SUFFIX, |plain|) == |plain| + (|PREFIX| + |body|) <==> BodyOk(body)
  {
    var framed := PREFIX + (body + (SUFFIX + rest));
    MarkAt(PREFIX, body, SUFFIX, rest);
    FindNotEarly(framed, SUFFIX, |PREFIX| + |body|);
    FindBehind(plain, framed, SUFFIX, 0);
    EarlyIff(body, rest);
  }

  /** What an extraction leaves, for marks found where they were put. */
  lemma Extraction(plain: string, prefix: string, body: string, suffix: string, rest: string)
    ensures var text := plain + (prefix + (body + (suffix + rest)));
            var from := |plain| + |prefix|;
            var end := |plain| + (|prefix| + |body|);
            && from <= end <= end + |suffix| <= |text|
            && text[..|plain|] == plain && text[from..end] == body && text[end + |suffix|..] == rest
  {
    Slices(plain, prefix, body + (suffix + rest));
    Slices(plain + prefix, body, suffix + rest);
    Slices(plain + prefix + body, suffix, rest);
    Assoc(plain, prefix, body + (suffix + rest));
    Assoc(plain + prefix, body, suffix + rest);
  }

  lemma ExtractsAt(text: string, p: string, s: string, front: string, body: string, rest: string)
    requires p != "" && s != "" && text == front + (p + (body + (s + rest)))
    requires Find(text, p, 0) == |front| && Find(text, s, |front|) == |front| + (|p| + |body|)
    ensures ExtractBetween(p, s, text) == One(body, front + rest)
  {
    Extraction(front, p, body, s, rest);
  }

  lemma FramedFound(plain: string, body: string, rest: string)
    requires !Occurs(plain + "\n", PREFIX) && BodyOk(body)
    ensures var text := plain + (PREFIX + (body + (SUFFIX + rest)));
            Find(text, PREFIX, 0) == |plain| && Find(text, SUFFIX, |plain|) == |plain| + (|PREFIX| + |body|)
  {
    PrefixFound(plain, body + (SUFFIX + rest));
    SuffixFound(plain, body, rest);
  }

  /**
   One extraction takes out the framed body and leaves the two texts around it
   joined, if neither the plain text nor the body forms a mark of its own.
   */
  lemma ExtractsFramed(plain: string, body: string, rest: string)
    requires !Occurs(plain + "\n", PREFIX) && BodyOk(body)
    ensures ExtractFirst(plain + (PREFIX + (body + (SUFFIX + rest)))) == One(body, plain + rest)
  {
    FramedFound(plain, body, rest);
    ExtractsAt(plain + (PREFIX + (body + (SUFFIX + rest))), PREFIX, SUFFIX, plain, body, rest);
  }

  /**
   The marks of a script are where they were put: neither the plain text joined so
   far, nor any body, forms one of its own, and the text that remains holds no
   frame.
   */
  ghost predicate MarksKept(joined: string, plain: seq<string>, bodies: seq<string>)
    requires |plain| == |bodies| + 1
    decreases |bodies|
  {
    var text := joined + plain[0];
    if bodies == [] then ExtractFirst(text).Nothing?
    else !Occurs(text + "\n", PREFIX) && BodyOk(bodies[0]) && MarksKept(text, plain[1..], bodies[1..])
  }

  /** The parser, going through a script, finds every mark where it was put, and no other. */
  ghost predicate FoundAsPut(joined: string, plain: seq<string>, bodies: seq<string>)
    requires |plain| == |bodies| + 1
    decreases |bodies|
  {
    var text := joined + plain[0];
    if bodies == [] then ExtractFirst(text).Nothing?
    else
      var script := text + (PREFIX + (bodies[0] + (SUFFIX + Script(plain[1..], bodies[1..]))));
      && Find(script, PREFIX, 0) == |text|
      && Find(script, SUFFIX, |text|) == |text| + (|PREFIX| + |bodies[0]|)
      && FoundAsPut(text, plain[1..], bodies[1..])
  }

  lemma {:induction false} FoundIffKept(joined: string, plain: seq<string>, bodies: seq<string>)
    requires |plain| == |bodies| + 1
    ensures FoundAsPut(joined, plain, bodies) <==> MarksKept(joined, plain, bodies)
    decreases |bodies|
  {
    var text := joined + plain[0];
    if bodies == [] {
    } else {
      var rest := Script(plain[1..], bodies[1..]);
      PrefixFound(text, bodies[0] + (SUFFIX + rest));
      SuffixFound(text, bodies[0], rest);
      FoundIffKept(text, plain[1..], bodies[1..]);
    }
  }

  lemma NoPrefixMeansDone(text: string)
    requires !Occurs(text, PREFIX)
    ensures Parse(text) == Parsed(text, [])
  {
    assert !StartsWith(text, Find(text, PREFIX, 0), PREFIX);
  }

  /** One framed trigger comes first, and then the rest of the script is parsed with the texts joined. */
  lemma ParseFramed(plain: string, body: string, rest: string)
    requires !Occurs(plain + "\n", PREFIX) && BodyOk(body)
    ensures var p := Parse(plain + rest);
            Parse(plain + (PREFIX + (body + (SUFFIX + rest)))) == Parsed(p.text, [body] + p.triggers)
  {
    ExtractsFramed(plain, body, rest);
  }

  /** The import tool gets back every trigger, in order, and the plain text around them. */
  lemma {:induction false} ParseInvertsDump(joined: string, plain: seq<string>, bodies: seq<string>)
    requires |plain| == |bodies| + 1 && MarksKept(joined, plain, bodies)
    ensures Parse(joined + Script(plain, bodies)) == Parsed(joined + Concat(plain), bodies)
    decreases |bodies|
  {
    var text := joined + plain[0];
    ConcatFirst(plain);
    Assoc(joined, plain[0], Concat(plain[1..]));
    if bodies == [] {
    } else {
      var rest := Script(plain[1..], bodies[1..]);
      Assoc(joined, plain[0], PREFIX + (bodies[0] + (SUFFIX + rest)));
      ParseInvertsDump(text, plain[1..], bodies[1..]);
      ParseFramed(text, bodies[0], rest);
    }
  }

  // When a dump keeps its marks.

  const DELIMITER_LINE: string := "\nDELIMITER ;"

  /** What a dump writes: statements that end with a semicolon in front of every trigger, and no DELIMITER line. */
  predicate StatementText(t: string) {
    t != "" && t[|t| - 1] == ';'
  }

  lemma LineInPrefix(text: string, i: nat)
    requires StartsWith(text + "\n", i, PREFIX)
    ensures StartsWith(text, i, DELIMITER_LINE)
  {
    assert PREFIX[..12] == DELIMITER_LINE;
    StartsWithPrefix(text + "\n", i, PREFIX, DELIMITER_LINE);
    OccursInFront(text, "\n", DELIMITER_LINE, i);
  }

  /** Text that ends with a semicolon starts no DELIMITER line that other text could finish. */
  lemma JoinHasNoLine(a: string, b: string)
    requires !Occurs(a, DELIMITER_LINE) && !Occurs(b, DELIMITER_LINE) && (a == "" || a[|a| - 1] == ';')
    ensures !Occurs(a + b, DELIMITER_LINE)
  {
    if Occurs(a + b, DELIMITER_LINE) {
      var i: nat :| StartsWith(a + b, i, DELIMITER_LINE);
      if |a| <= i {
        OccursBehind(a, b, DELIMITER_LINE, i);
      } else if i + |DELIMITER_LINE| <= |a| {
        OccursInFront(a, b, DELIMITER_LINE, i);
      } else {
        StartsWithAt(a + b, i, DELIMITER_LINE, |a| - 1 - i);
      }
    }
  }

  lemma NoLineNoPrefix(text: string)
    requires !Occurs(text, DELIMITER_LINE)
    ensures !Occurs(text + "\n", PREFIX) && !Occurs(text, PREFIX)
  {
    if Occurs(text + "\n", PREFIX) {
      var i: nat :| StartsWith(text + "\n", i, PREFIX);
      LineInPrefix(text, i);
    }
    if Occurs(text, PREFIX) {
      var i: nat :| StartsWith(text, i, PREFIX);
      OccursInFront(text, "\n", PREFIX, i);
      LineInPrefix(text, i);
    }
  }

  lemma {:induction false} DumpKeepsMarks(joined: string, plain: seq<string>, statements: seq<string>)
    requires |plain| == |statements| + 1
    requires !Occurs(joined, DELIMITER_LINE) && (joined == "" || joined[|joined| - 1] == ';')
    requires forall i :: 0 <= i < |plain| ==> !Occurs(plain[i], DELIMITER_LINE)
    requires forall i :: 0 <= i < |statements| ==> StatementText(plain[i]) && !Occurs(Wrapped(statements[i]), SUFFIX)
    ensures MarksKept(joined, plain, AllWrapped(statements))
    decreases |statements|
  {
    var text := joined + plain[0];
    JoinHasNoLine(joined, plain[0]);
    NoLineNoPrefix(text);
    NoPrefixMeansDone(text);
    if statements != [] {
      assert text[|text| - 1] == ';';
      NotDelimiterBody(Wrapped(statements[0]));
      DumpKeepsMarks(text, plain[1..], statements[1..]);
      assert AllWrapped(statements)[1..] == AllWrapped(statements[1..]);
    }
  }

  function AllWrapped(statements: seq<string>): seq<string> {
    seq(|statements|, i requires 0 <= i < |statements| => Wrapped(statements[i]))
  }

  lemma NotDelimiterBody(body: string)
    requires body != "" && body[0] != 'D' && !Occurs(body, SUFFIX)
    ensures BodyOk(body)
  {
    assert (body + SUFFIX)[0] == body[0];
  }

  /**
   For a dump whose statements end with a semicolon in front of every trigger, with
   no DELIMITER line of its own and no closing mark inside a trigger, the import
   tool gets back exactly the triggers and the joined rest.
   */
  lemma DumpRoundTrip(plain: seq<string>, statements: seq<string>)
    requires |plain| == |statements| + 1
    requires forall i :: 0 <= i < |plain| ==> !Occurs(plain[i], DELIMITER_LINE)
    requires forall i :: 0 <= i < |statements| ==> StatementText(plain[i]) && !Occurs(Wrapped(statements[i]), SUFFIX)
    ensures Parse(Script(plain, AllWrapped(statements))) == Parsed(Concat(plain), AllWrapped(statements))
  {
    var bodies := AllWrapped(statements);
    DumpKeepsMarks("", plain, statements);
    ParseInvertsDump("", plain, bodies);
    NothingInFront(Script(plain, bodies));
    NothingInFront(Concat(plain));
  }

  lemma NothingInFront(s: string)
    ensures "" + s == s
  {
  }

  lemma ScriptOfTwo(first: string, b: string, second: string, c: string, y: string)
    ensures Script([first, second, y], [b, c])
              == first + (PREFIX + (b + (SUFFIX + (second + (PREFIX + (c + (SUFFIX + y)))))))
  {
    var none: seq<string> := [];
    assert [second, y][1..] == [y] && [c][1..] == none;
    assert Script([y], none) == y;
    assert Script([second, y], [c]) == second + (PREFIX + (c + (SUFFIX + y)));
    assert [first, second, y][1..] == [second, y] && [b, c][1..] == [c];
  }

  lemma Regroup(first: string, second: string, mark: string, x: string, c: string, tail: string)
    requires first + second == mark + x
    ensures first + (second + (mark + (c + tail))) == "" + (mark + ((x + mark + c) + tail))
  {
    Assoc(first, second, mark + (c + tail));
    assert (mark + x) + (mark + (c + tail)) == mark + ((x + mark + c) + tail);
    NothingInFront(mark + ((x + mark + c) + tail));
  }

  /** Where the texts around a trigger join to an opening mark, the next trigger swallows what follows it. */
  lemma JoinedMarkSwallows(first: string, b: string, second: string, x: string, c: string, y: string)
    requires first + second == PREFIX + x
    requires !Occurs(first + "\n", PREFIX) && !Occurs("" + "\n", PREFIX) && !Occurs("" + y, PREFIX)
    requires BodyOk(b) && BodyOk(x + PREFIX + c)
    ensures Parse(Script([first, second, y], [b, c])) == Parsed(y, [b, x + PREFIX + c])
  {
    var rest := PREFIX + (c + (SUFFIX + y));
    ScriptOfTwo(first, b, second, c, y);
    ParseFramed(first, b, second + rest);
    Regroup(first, second, PREFIX, x, c, SUFFIX + y);
    ParseFramed("", x + PREFIX + c, y);
    NothingInFront(y);
    NoPrefixMeansDone(y);
  }

  lemma TooShort(text: string, t: string)
    requires |text| < |t|
    ensures !Occurs(text, t)
  {
  }

  lemma OddBody(odd: string)
    requires odd == "X" + PREFIX + "C"
    ensures BodyOk(odd)
  {
    assert odd[0] == 'X' && odd[1] == '\n';
    NotDelimiterBody(odd);
  }

  lemma MarkOfTwoTexts()
    ensures Parse(Script(["\nDELIMITER ", ";;\nX", "Y"], ["B", "C"])) == Parsed("Y", ["B", "X" + PREFIX + "C"])
  {
    OddBody("X" + PREFIX + "C");
    TooShort("B", SUFFIX);
    NotDelimiterBody("B");
    TooShort("\nDELIMITER " + "\n", PREFIX);
    TooShort("" + "\n", PREFIX);
    TooShort("" + "Y", PREFIX);
    assert "\nDELIMITER " + ";;\nX" == PREFIX + "X";
    JoinedMarkSwallows("\nDELIMITER ", "B", ";;\nX", "X", "C", "Y");
  }

  /**
   So without the semicolons the round trip can fail: here no plain text has a
   DELIMITER line, and yet the second trigger comes back with plain text and a
   mark in it.
   */
  lemma JoinedTextCanFormAMark()
    ensures !Occurs("\nDELIMITER ", DELIMITER_LINE) && !Occurs(";;\nX", DELIMITER_LINE) && !Occurs("Y", DELIMITER_LINE)
    ensures Parse(Script(["\nDELIMITER ", ";;\nX", "Y"], ["B", "C"])) == Parsed("Y", ["B", "X" + PREFIX + "C"])
  {
    TooShort("\nDELIMITER ", DELIMITER_LINE);
    TooShort(";;\nX", DELIMITER_LINE);
    TooShort("Y", DELIMITER_LINE);
    MarkOfTwoTexts();
  }
}
