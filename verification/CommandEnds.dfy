/**
 Where the arguments of a one-letter command end on the line.
 */
module CommandEnds {
  import opened Basics
  import opened LineLexer

  predicate DelimiterBehind(line: string, k: nat, d: Delimiter) {
    exists j :: k <= j < |line| && StartsWith(line, j, d)
  }

  /** Behind the first delimiter, or at the end of the line if none starts. */
  predicate IsParamsEnd(line: string, k: nat, d: Delimiter, r: nat) {
    if DelimiterBehind(line, k, d)
    then k + |d| <= r && StartsWith(line, r - |d|, d) && forall j :: k <= j < r - |d| ==> !StartsWith(line, j, d)
    else r == |line|
  }

  lemma {:induction false} ParamsEnd(line: string, k: nat, d: Delimiter)
    requires k <= |line|
    ensures IsParamsEnd(line, k, d, SkipParams(line, k, d))
    decreases |line| - k
  {
    if k == |line| || StartsWith(line, k, d) {
    } else {
      ParamsEnd(line, k + 1, d);
      EndsLater(line, k, d, SkipParams(line, k, d));
    }
  }

  /** Where no delimiter starts, the end is the same one place on. */
  lemma EndsLater(line: string, k: nat, d: Delimiter, r: nat)
    requires k < |line| && !StartsWith(line, k, d) && IsParamsEnd(line, k + 1, d, r)
    ensures IsParamsEnd(line, k, d, r)
  {
    if DelimiterBehind(line, k, d) {
      var j :| k <= j < |line| && StartsWith(line, j, d);
      assert k + 1 <= j < |line| && StartsWith(line, j, d);
    }
  }

  predicate CommentEndsAt(line: string, j: nat) {
    j + 1 < |line| && line[j] == '*' && line[j + 1] == '/'
  }

  /** At the first end-of-comment mark, or at the end of the line if there is none. */
  predicate IsCommentEnd(line: string, k: nat, r: nat) {
    && k <= r <= |line| && (forall j :: k <= j < r ==> !CommentEndsAt(line, j))
    && (r < |line| ==> CommentEndsAt(line, r))
  }

  lemma {:induction false} CommentEnd(line: string, k: nat)
    requires k <= |line|
    ensures IsCommentEnd(line, k, SkipComment(line, k))
    decreases |line| - k
  {
    if k == |line| || CommentEndsAt(line, k) {
    } else {
      CommentEnd(line, k + 1);
    }
  }
}
