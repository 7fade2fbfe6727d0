/**
 Definitions that several of the tools share.
 */
module Basics {

  datatype Option<T> = None | Some(value: T)

  const NUL: char := '\0'

  predicate IsQuote(c: char) {
    c == '\'' || c == '"' || c == '`'
  }

  function Concat<T>(ss: seq<seq<T>>): seq<T> {
    if ss == [] then [] else Concat(ss[..|ss| - 1]) + ss[|ss| - 1]
  }

  lemma {:induction false} ConcatSplit<T>(a: seq<seq<T>>, b: seq<seq<T>>)
    ensures Concat(a + b) == Concat(a) + Concat(b)
  {
    if b == [] {
      assert a + b == a;
    } else {
      var n := |b| - 1;
      ConcatSplit(a, b[..n]);
      Assoc(Concat(a), Concat(b[..n]), b[n]);
      assert (a + b)[..|a + b| - 1] == a + b[..n];
    }
  }

  lemma ConcatFirst<T>(ss: seq<seq<T>>)
    requires ss != []
    ensures Concat(ss) == ss[0] + Concat(ss[1..])
  {
    ConcatSplit([ss[0]], ss[1..]);
    assert Concat([ss[0]]) == ss[0] by {
      assert [ss[0]][..0] == [];
    }
    assert ss == [ss[0]] + ss[1..];
  }

  lemma Assoc<T>(a: seq<T>, b: seq<T>, c: seq<T>)
    ensures a + (b + c) == a + b + c
  {
  }

  // Texts inside texts.

  predicate StartsWith(line: string, i: nat, t: string) {
    i + |t| <= |line| && line[i..i + |t|] == t
  }

  lemma StartsWithAt(line: string, i: nat, t: string, k: nat)
    requires StartsWith(line, i, t) && k < |t|
    ensures line[i + k] == t[k]
  {
    assert line[i..i + |t|][k] == t[k];
  }

  lemma StartsWithTwo(line: string, i: nat)
    requires i + 1 < |line|
    ensures StartsWith(line, i, [line[i], line[i + 1]])
  {
    assert line[i..i + 2] == [line[i], line[i + 1]];
  }

  lemma StartsWithMiddle(a: string, t: string, b: string)
    ensures StartsWith(a + t + b, |a|, t) && StartsWith(a + t + b, |a| + |t|, b)
  {
  }

  lemma StartsWithBoth(line: string, k: nat, t: string, u: string)
    requires StartsWith(line, k, t) && StartsWith(line, k + |t|, u)
    ensures StartsWith(line, k, t + u)
  {
    assert line[k..k + |t + u|] == line[k..k + |t|] + line[k + |t|..k + |t| + |u|];
  }

  lemma StartsWithPrefix(line: string, k: nat, t: string, u: string)
    requires StartsWith(line, k, t) && u <= t
    ensures StartsWith(line, k, u)
  {
    assert line[k..k + |u|] == line[k..k + |t|][..|u|];
  }
}
