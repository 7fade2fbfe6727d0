/**
 Exactly when the import tool gets back what the dump tool framed.

 If a script keeps its marks, the round trip succeeds (TriggerExtraction). Here is
 the converse. Suppose the extracted triggers are the ones that were put in, and
 the first frame found is not the first one put in. Either it lies wholly inside the
 plain text before it, and one trigger too many comes out; or it shares its last
 newline with the frame put in. In that case a newline goes missing from its place,
 what remains comes later in alphabetical order than the text that was put in, and
 no further extraction can make up for it.
 */
module TriggerRoundTrip {
  import opened Basics
  import opened TriggerExtraction

  // As many triggers come out as were put in, at least.

  lemma Skipped(text: string, pos: nat, i: nat, j: nat)
    requires pos <= |text| && i <= j <= |text|
    ensures text[..pos] + text[i..] == (text[..pos] + text[i..j]) + text[j..]
  {
    assert text[i..] == text[i..j] + text[j..];
  }

  /** With a frame in the text something is extracted, and nothing behind the frame goes with it. */
  lemma FrameFound(text: string, p: string, s: string, a: nat, e: nat) returns (front: string)
    requires p != "" && s != "" && a <= e && StartsWith(text, a, p) && StartsWith(text, e, s)
    ensures var r := ExtractBetween(p, s, text); r.One? && r.rest == front + text[e + |s|..]
  {
    FindIsFirst(text, p, 0);
    var pos := Find(text, p, 0);
    FindIsFirst(text, s, pos);
    var end := Find(text, s, pos);
    front := text[..pos] + text[end + |s|..e + |s|];
    Skipped(text, pos, end + |s|, e + |s|);
  }

  lemma FramePlaced(x: string, prefix: string, body: string, suffix: string, rest: string)
    ensures var text := x + (prefix + (body + (suffix + rest)));
            var e := |x| + (|prefix| + |body|);
            && StartsWith(text, |x|, prefix) && StartsWith(text, |x| + |prefix|, body) && StartsWith(text, e, suffix)
            && text[e + |suffix|..] == rest
  {
    Extraction(x, prefix, body, suffix, rest);
    Slices(x, prefix, body + (suffix + rest));
    Assoc(x, prefix, body + (suffix + rest));
    Assoc(x + prefix, body, suffix + rest);
    Slices(x + prefix + body, suffix, rest);
  }

  lemma {:induction false} AllAreFound(front: string, plain: seq<string>, bodies: seq<string>)
    requires |plain| == |bodies| + 1
    ensures |Parse(front + Script(plain, bodies)).triggers| >= |bodies|
    decreases |bodies|
  {
    if bodies == [] {
    } else {
      var x, rest := front + plain[0], Script(plain[1..], bodies[1..]);
      Assoc(front, plain[0], PREFIX + (bodies[0] + (SUFFIX + rest)));
      FramePlaced(x, PREFIX, bodies[0], SUFFIX, rest);
      var text := x + (PREFIX + (bodies[0] + (SUFFIX + rest)));
      var f := FrameFound(text, PREFIX, SUFFIX, |x|, |x| + (|PREFIX| + |bodies[0]|));
      AllAreFound(f, plain[1..], bodies[1..]);
    }
  }

  // Where the first frame is found.

  /** A text that occurs twice, overlapping itself by at least its end, has that end earlier. */
  lemma EndRecurs(text: string, pos: nat, d: nat, front: string, end: string)
    requires StartsWith(text, pos, front + end) && StartsWith(text, pos + d, front + end) && d <= |front|
    ensures StartsWith(text, pos + |front| - d, end)
  {
    var u, k := front + end, |front| - d;
    forall j | 0 <= j < |end| ensures text[pos + k + j] == end[j] {
      StartsWithAt(text, pos, u, k + j);
      StartsWithAt(text, pos + d, u, k + j);
      StartsWithAt(text, pos, u, |front| + j);
    }
    assert text[pos + k..pos + k + |end|] == end;
  }

  /** The marks share one newline at most. */
  lemma MarksShareNewline(text: string, i: nat, m: nat)
    requires 0 < m < |SUFFIX| && StartsWith(text, i, SUFFIX) && StartsWith(text, i + |SUFFIX| - m, PREFIX)
    ensures m == 1
  {
    var k := |SUFFIX| - m;
    StartsWithAt(text, i, SUFFIX, k);
    StartsWithAt(text, i + k, PREFIX, 0);
    assert SUFFIX[k] == '\n';
    if m > 1 {
      assert k == 2;
      StartsWithAt(text, i, SUFFIX, 14);
      StartsWithAt(text, i + k, PREFIX, 12);
    }
  }

  /** What lies between two marks, if it is this body. */
  lemma BodyBetween(text: string, p: string, s: string, pos: nat, end: nat, body: string)
    requires pos <= end && StartsWith(text, pos, p) && StartsWith(text, end, s)
    requires body == if pos + |p| <= end then text[pos + |p|..end] else text[pos + |p|..]
    requires pos + |p| + |body| < |text|
    ensures end == pos + (|p| + |body|) && StartsWith(text, pos, p + body + s)
  {
    assert pos + |p| <= end;
    StartsWithBoth(text, pos, p, body);
    StartsWithBoth(text, pos, p + body, s);
  }

  /** The first place at or behind `from`. */
  ghost predicate FirstAt(text: string, t: string, from: nat, r: nat) {
    from <= r && StartsWith(text, r, t) && forall i :: from <= i < r ==> !StartsWith(text, i, t)
  }

  lemma ExtractedAt(text: string, p: string, s: string) returns (pos: nat, end: nat)
    requires p != "" && s != "" && ExtractBetween(p, s, text).One?
    ensures pos == Find(text, p, 0) && pos <= |text| && end == Find(text, s, pos)
    ensures FirstAt(text, p, 0, pos) && FirstAt(text, s, pos, end)
    ensures ExtractBetween(p, s, text) == One(Between(|p|, text, pos, end), text[..pos] + text[end + |s|..])
  {
    FindIsFirst(text, p, 0);
    pos := Find(text, p, 0);
    FindIsFirst(text, s, pos);
    end := Find(text, s, pos);
  }

  lemma FrameStarts(text: string, p: string, s: string, pos: nat, body: string)
    requires StartsWith(text, pos, p) && StartsWith(text, pos + |p|, body) && StartsWith(text, pos + (|p| + |body|), s)
    ensures StartsWith(text, pos, p + body + s)
  {
    StartsWithBoth(text, pos, p, body);
    StartsWithBoth(text, pos, p + body, s);
  }

  /** Two frames of the same body whose closing mark is found first: they overlap by less than the closing mark. */
  lemma FramesOverlap(text: string, p: string, s: string, pos: nat, at: nat, body: string)
    requires pos < at && StartsWith(text, pos, p + body + s) && StartsWith(text, at, p + body + s)
    requires FirstAt(text, s, pos, pos + (|p| + |body|))
    ensures at > pos + (|p| + |body|)
  {
    if at <= pos + (|p| + |body|) {
      EndRecurs(text, pos, at - pos, p + body, s);
    }
  }

  /** Where the first frame found can be: the one put in, a whole one before it, or one that shares a newline with it. */
  lemma FirstFrame(text: string, x: nat, body: string, pos: nat, end: nat)
    requires StartsWith(text, x, PREFIX + body + SUFFIX)
    requires FirstAt(text, PREFIX, 0, pos) && FirstAt(text, SUFFIX, pos, end)
    requires pos + |PREFIX| <= |text| && end <= |text| && body == Between(|PREFIX|, text, pos, end)
    ensures end == pos + (|PREFIX| + |body|)
    ensures pos == x || end + |SUFFIX| <= x || end + |SUFFIX| == x + 1
  {
    StartsWithPrefix(text, x, PREFIX + body + SUFFIX, PREFIX);
    assert pos <= x;
    BodyBetween(text, PREFIX, SUFFIX, pos, end, body);
    if pos < x {
      FramesOverlap(text, PREFIX, SUFFIX, pos, x, body);
      if x < end + |SUFFIX| {
        MarksShareNewline(text, end, end + |SUFFIX| - x);
      }
    }
  }

  // What remains comes later than what was put in.

  /** Later in alphabetical order, at a place that both texts have. */
  ghost predicate Later(a: string, b: string) {
    exists k :: 0 <= k < |a| && k < |b| && a[..k] == b[..k] && b[k] < a[k]
  }

  lemma LaterOn(a: string, b: string, c: string)
    requires Later(a, b) && Later(b, c)
    ensures Later(a, c)
  {
    var i :| 0 <= i < |a| && i < |b| && a[..i] == b[..i] && b[i] < a[i];
    var j :| 0 <= j < |b| && j < |c| && b[..j] == c[..j] && c[j] < b[j];
    var k := if i < j then i else j;
    assert a[..k] == a[..i][..k] && b[..k] == b[..i][..k] && b[..k] == b[..j][..k] && c[..k] == c[..j][..k];
    assert i < j ==> b[i] == b[..j][i] && c[i] == c[..j][i];
    assert j < i ==> a[j] == a[..i][j] && b[j] == b[..i][j];
    assert c[k] < a[k];
  }

  lemma NotLater(a: string)
    ensures !Later(a, a)
  {
  }

  /** A text with the newline at `k` gone from there, where a letter follows it. */
  lemma LaterAt(a: string, b: string, k: nat, z: string)
    requires k < |a| && k < |b| && a[..k] == b[..k] && b[k] < a[k]
    ensures Later(a + z, b + z)
  {
    assert (a + z)[..k] == a[..k] && (b + z)[..k] == b[..k];
    assert (a + z)[k] == a[k] && (b + z)[k] == b[k];
  }

  // The three cases.

  lemma FoundAsPutIn(x: string, body: string, rest: string)
    requires var text := x + (PREFIX + (body + (SUFFIX + rest)));
             Find(text, PREFIX, 0) == |x| && Find(text, SUFFIX, |x|) == |x| + (|PREFIX| + |body|)
    ensures !Occurs(x + "\n", PREFIX) && BodyOk(body)
  {
    PrefixFound(x, body + (SUFFIX + rest));
    SuffixFound(x, body, rest);
  }

  /** A whole frame before the one put in: one trigger more than were put in comes out. */
  lemma ExtraFrame(x: string, p: string, i: nat, pos: nat, plain: seq<string>, bodies: seq<string>)
    requires |plain| == |bodies| + 1 && bodies != [] && pos <= i <= |x|
    requires p == PREFIX + (bodies[0] + (SUFFIX + Script(plain[1..], bodies[1..])))
    ensures |Parse((x + p)[..pos] + (x + p)[i..]).triggers| >= |bodies|
  {
    var front, empty := x[..pos] + x[i..], [""] + plain[1..];
    assert empty[1..] == plain[1..];
    assert "" + p == p;
    assert Script(empty, bodies) == p;
    assert (x + p)[..pos] + (x + p)[i..] == front + p;
    AllAreFound(front, empty, bodies);
  }

  /** A frame that shares its last newline with the one put in: the rest of the text moves up by one. */
  lemma SharedNewline(x: string, p: string, body: string, suffix: string, rest: string, pos: nat)
    requires pos < |x| && p != ""
    ensures var text := x + (p + (body + (suffix + rest)));
            text[..pos] + text[|x| + 1..] == (x[..pos] + (p[1..] + (body + suffix))) + rest
  {
    var tail := body + (suffix + rest);
    var text := x + (p + tail);
    assert text[..pos] == x[..pos];
    assert text[|x| + 1..] == p[1..] + tail;
    Assoc(body, suffix, rest);
    Assoc(p[1..], body + suffix, rest);
    Assoc(x[..pos], p[1..] + (body + suffix), rest);
  }

  /** What the parser leaves, if it extracts the triggers that were put in, is the text put in or comes later. */
  ghost predicate Kept(joined: string, plain: seq<string>, bodies: seq<string>, left: string)
    requires |plain| == |bodies| + 1
  {
    || (left == joined + Concat(plain) && MarksKept(joined, plain, bodies))
    || Later(left, joined + Concat(plain))
  }

  lemma KeptAsPutIn(joined: string, plain: seq<string>, bodies: seq<string>, left: string)
    requires |plain| == |bodies| + 1 && bodies != [] && Kept(joined + plain[0], plain[1..], bodies[1..], left)
    requires !Occurs(joined + plain[0] + "\n", PREFIX) && BodyOk(bodies[0])
    ensures Kept(joined, plain, bodies, left)
  {
    ConcatFirst(plain);
    Assoc(joined, plain[0], Concat(plain[1..]));
  }

  lemma KeptLater(joined: string, plain: seq<string>, bodies: seq<string>, left: string, j: string, pos: nat)
    requires |plain| == |bodies| + 1 && bodies != [] && Kept(j, plain[1..], bodies[1..], left)
    requires var x := joined + plain[0]; pos < |x| && pos < |j| && j[..pos] == x[..pos] && x[pos] < j[pos]
    ensures Kept(joined, plain, bodies, left)
  {
    ConcatFirst(plain);
    var x, z := joined + plain[0], Concat(plain[1..]);
    Assoc(joined, plain[0], z);
    LaterAt(j, x, pos, z);
    if left != j + z {
      LaterOn(left, j + z, x + z);
    }
  }

  function Moved(x: string, body: string, pos: nat): string
    requires pos <= |x|
  {
    x[..pos] + (PREFIX[1..] + (body + SUFFIX))
  }

  lemma MovedUp(x: string, body: string, pos: nat)
    requires pos < |x| && x[pos] == PREFIX[0]
    ensures var j := Moved(x, body, pos);
            pos < |j| && j[..pos] == x[..pos] && x[pos] < j[pos]
  {
    assert Moved(x, body, pos)[pos] == PREFIX[1];
  }

  /** How the first extraction of a script can go, if it extracts the first trigger put in. */
  datatype Case = AsPutIn | Whole(pos: nat, behind: nat) | Shared(pos: nat)

  ghost predicate InCase(k: Case, x: string, body: string, rest: string, left: string) {
    match k
    case AsPutIn => left == x + rest && !Occurs(x + "\n", PREFIX) && BodyOk(body)
    case Whole(pos, i) =>
      var text := x + (PREFIX + (body + (SUFFIX + rest)));
      pos <= i <= |x| && left == text[..pos] + text[i..]
    case Shared(pos) => pos < |x| && x[pos] == PREFIX[0] && left == Moved(x, body, pos) + rest
  }

  /** What an extraction leaves of a script, if it takes the frame that was put in. */
  lemma LeftBehind(x: string, p: string, body: string, s: string, rest: string, pos: nat, end: nat)
    requires pos == |x| && end == pos + (|p| + |body|)
    ensures var text := x + (p + (body + (s + rest)));
            end + |s| <= |text| && text[..pos] + text[end + |s|..] == x + rest
  {
    Extraction(x, p, body, s, rest);
  }

  lemma FramePut(x: string, p: string, body: string, s: string, rest: string)
    ensures StartsWith(x + (p + (body + (s + rest))), |x|, p + body + s)
  {
    FramePlaced(x, p, body, s, rest);
    FrameStarts(x + (p + (body + (s + rest))), p, s, |x|, body);
  }

  /** What is left if the frame from `pos` to behind `end` is taken out. */
  function LeftOver(x: string, body: string, rest: string, pos: nat, end: nat): string
    requires pos <= |x| && end <= |x| + (|PREFIX| + |body|)
  {
    var text := x + (PREFIX + (body + (SUFFIX + rest)));
    text[..pos] + text[end + |SUFFIX|..]
  }

  lemma Located(x: string, body: string, rest: string) returns (pos: nat, end: nat, left: string)
    requires var e := ExtractFirst(x + (PREFIX + (body + (SUFFIX + rest)))); e.One? && e.trigger == body
    ensures var text := x + (PREFIX + (body + (SUFFIX + rest)));
            && pos == Find(text, PREFIX, 0) && pos <= |x| && end == Find(text, SUFFIX, pos)
            && end == pos + (|PREFIX| + |body|) && StartsWith(text, pos, PREFIX)
            && (pos == |x| || end + |SUFFIX| <= |x| || end + |SUFFIX| == |x| + 1)
            && left == ExtractFirst(text).rest == LeftOver(x, body, rest, pos, end)
  {
    var text := x + (PREFIX + (body + (SUFFIX + rest)));
    pos, end := ExtractedAt(text, PREFIX, SUFFIX);
    FramePut(x, PREFIX, body, SUFFIX, rest);
    FirstFrame(text, |x|, body, pos, end);
    left := ExtractFirst(text).rest;
  }

  lemma SharedCase(x: string, body: string, rest: string, pos: nat, end: nat)
    requires pos < |x| && end == pos + (|PREFIX| + |body|) && end + |SUFFIX| == |x| + 1
    requires StartsWith(x + (PREFIX + (body + (SUFFIX + rest))), pos, PREFIX)
    ensures InCase(Shared(pos), x, body, rest, LeftOver(x, body, rest, pos, end))
  {
    SharedNewline(x, PREFIX, body, SUFFIX, rest, pos);
    StartsWithAt(x + (PREFIX + (body + (SUFFIX + rest))), pos, PREFIX, 0);
  }

  lemma WholeCase(x: string, body: string, rest: string, pos: nat, end: nat)
    requires end == pos + (|PREFIX| + |body|) && end + |SUFFIX| <= |x|
    ensures InCase(Whole(pos, end + |SUFFIX|), x, body, rest, LeftOver(x, body, rest, pos, end))
  {
  }

  lemma AsPutInCase(x: string, body: string, rest: string, pos: nat, end: nat)
    requires var text := x + (PREFIX + (body + (SUFFIX + rest)));
             && pos == |x| && end == pos + (|PREFIX| + |body|)
             && Find(text, PREFIX, 0) == pos && Find(text, SUFFIX, pos) == end
    ensures InCase(AsPutIn, x, body, rest, LeftOver(x, body, rest, pos, end))
  {
    LeftBehind(x, PREFIX, body, SUFFIX, rest, pos, end);
    FoundAsPutIn(x, body, rest);
  }

  lemma FirstCase(x: string, body: string, rest: string) returns (k: Case)
    requires var e := ExtractFirst(x + (PREFIX + (body + (SUFFIX + rest)))); e.One? && e.trigger == body
    ensures InCase(k, x, body, rest, ExtractFirst(x + (PREFIX + (body + (SUFFIX + rest)))).rest)
  {
    var pos, end, left := Located(x, body, rest);
    k := ChooseCase(x, body, rest, pos, end);
    assert InCase(k, x, body, rest, left);
  }

  lemma ChooseCase(x: string, body: string, rest: string, pos: nat, end: nat) returns (k: Case)
    requires var text := x + (PREFIX + (body + (SUFFIX + rest)));
             && pos == Find(text, PREFIX, 0) && pos <= |x| && end == Find(text, SUFFIX, pos)
             && end == pos + (|PREFIX| + |body|) && StartsWith(text, pos, PREFIX)
             && (pos == |x| || end + |SUFFIX| <= |x| || end + |SUFFIX| == |x| + 1)
    ensures InCase(k, x, body, rest, LeftOver(x, body, rest, pos, end))
  {
    if pos == |x| {
      AsPutInCase(x, body, rest, pos, end);
      k := AsPutIn;
    } else if end + |SUFFIX| <= |x| {
      WholeCase(x, body, rest, pos, end);
      k := Whole(pos, end + |SUFFIX|);
    } else {
      SharedCase(x, body, rest, pos, end);
      k := Shared(pos);
    }
  }

  lemma ParseOne(text: string)
    requires Parse(text).triggers != []
    ensures var e := ExtractFirst(text);
            && e.One? && e.trigger == Parse(text).triggers[0] && Parse(text).text == Parse(e.rest).text
            && Parse(text).triggers[1..] == Parse(e.rest).triggers
  {
  }

  lemma NothingFramed(joined: string, plain: string)
    requires Parse(joined + plain).triggers == []
    ensures Kept(joined, [plain], [], Parse(joined + plain).text)
  {
    ConcatFirst([plain]);
    assert plain + "" == plain;
  }

  lemma {:induction false} ParseOrder(joined: string, plain: seq<string>, bodies: seq<string>)
    requires |plain| == |bodies| + 1 && Parse(joined + Script(plain, bodies)).triggers == bodies
    ensures Kept(joined, plain, bodies, Parse(joined + Script(plain, bodies)).text)
    decreases |bodies|
  {
    if bodies == [] {
      assert plain == [plain[0]];
      NothingFramed(joined, plain[0]);
    } else {
      var x, body, rest := joined + plain[0], bodies[0], Script(plain[1..], bodies[1..]);
      var text := x + (PREFIX + (body + (SUFFIX + rest)));
      Assoc(joined, plain[0], PREFIX + (body + (SUFFIX + rest)));
      ParseOne(text);
      var k := FirstCase(x, body, rest);
      match k
      case AsPutIn =>
        ParseOrder(x, plain[1..], bodies[1..]);
        KeptAsPutIn(joined, plain, bodies, Parse(text).text);
      case Whole(pos, i) =>
        ExtraFrame(x, PREFIX + (body + (SUFFIX + rest)), i, pos, plain, bodies);
      case Shared(pos) =>
        MovedUp(x, body, pos);
        ParseOrder(Moved(x, body, pos), plain[1..], bodies[1..]);
        KeptLater(joined, plain, bodies, Parse(text).text, Moved(x, body, pos), pos);
    }
  }

  /** The import tool gets back the triggers, in order, and the joined text exactly if the script keeps its marks. */
  lemma RoundTripIff(joined: string, plain: seq<string>, bodies: seq<string>)
    requires |plain| == |bodies| + 1
    ensures Parse(joined + Script(plain, bodies)) == Parsed(joined + Concat(plain), bodies)
            <==> MarksKept(joined, plain, bodies)
  {
    if MarksKept(joined, plain, bodies) {
      ParseInvertsDump(joined, plain, bodies);
    } else if Parse(joined + Script(plain, bodies)).triggers == bodies {
      ParseOrder(joined, plain, bodies);
      NotLater(joined + Concat(plain));
    }
  }

  // What comes back holds the statements.

  /** A wrapped trigger is the statement between its two marks. */
  lemma WrappedHolds(statement: string)
    ensures var w, n := Wrapped(statement), |"/*!50003 "|;
            w[..n] == "/*!50003 " && w[n..n + |statement|] == statement && w[n + |statement|..] == " */"
  {
  }

  /** So it tells its statement. */
  lemma WrappedTells(a: string, b: string)
    requires Wrapped(a) == Wrapped(b)
    ensures a == b
  {
    WrappedHolds(a);
    WrappedHolds(b);
  }
}
