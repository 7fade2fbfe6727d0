/**
 The completion index as mathematics: which words a prefix stands for.

 Words are kept newest first. `Matching(words, p)` are the added words that start
 with `p`, one for each time they were added, and the index maps every non-empty
 prefix of a word to that list.
 */
module WordIndex {

  type Index = map<string, seq<string>>

  function Matching(words: seq<string>, p: string): seq<string> {
    if words == [] then []
    else if p <= words[0] then [words[0]] + Matching(words[1..], p)
    else Matching(words[1..], p)
  }

  /** `m` holds exactly the non-empty prefixes of the words, each with its words. */
  ghost predicate Indexes(m: Index, words: seq<string>) {
    && (forall p :: p in m ==> p != "" && m[p] == Matching(words, p) && m[p] != [])
    && (forall p: string :: p != "" && Matching(words, p) != [] ==> p in m)
  }

  function Prepend(m: Index, key: string, word: string): Index {
    m[key := [word] + (if key in m then m[key] else [])]
  }

  /** One word added under its prefixes of length 1 to n. */
  function AddPrefixes(m: Index, word: string, n: nat): Index
    requires n <= |word|
  {
    if n == 0 then m else Prepend(AddPrefixes(m, word, n - 1), word[..n], word)
  }

  lemma {:induction false} AddPrefixesAt(m: Index, word: string, n: nat, p: string)
    requires n <= |word|
    ensures var r := AddPrefixes(m, word, n);
            if 0 < |p| <= n && p <= word then
              p in r && r[p] == [word] + (if p in m then m[p] else [])
            else
              (p in r <==> p in m) && (p in m ==> r[p] == m[p])
  {
    if n == 0 {
    } else {
      AddPrefixesAt(m, word, n - 1, p);
      assert p <= word && |p| == n ==> p == word[..n];
    }
  }

  lemma AddWordIndexes(m: Index, words: seq<string>, word: string)
    requires Indexes(m, words)
    ensures Indexes(AddPrefixes(m, word, |word|), [word] + words)
  {
    var r := AddPrefixes(m, word, |word|);
    forall p: string
      ensures p in r ==> p != "" && r[p] == Matching([word] + words, p) && r[p] != []
      ensures p != "" && Matching([word] + words, p) != [] ==> p in r
    {
      AddPrefixesAt(m, word, |word|, p);
      assert ([word] + words)[1..] == words;
    }
  }

  lemma {:induction false} MatchingIn(words: seq<string>, p: string, w: string)
    ensures w in Matching(words, p) <==> w in words && p <= w
  {
    if words == [] {
    } else {
      MatchingIn(words[1..], p, w);
    }
  }

  lemma {:induction false} MatchingCount(words: seq<string>, p: string, w: string)
    requires p <= w
    ensures multiset(Matching(words, p))[w] == multiset(words)[w]
  {
    if words == [] {
    } else {
      MatchingCount(words[1..], p, w);
      assert words == [words[0]] + words[1..];
    }
  }

  lemma {:induction false} LongerMatchesFewer(words: seq<string>, p: string, q: string)
    requires p <= q
    ensures |Matching(words, q)| <= |Matching(words, p)|
    ensures |Matching(words, q)| == |Matching(words, p)| ==> Matching(words, q) == Matching(words, p)
  {
    if words == [] {
    } else {
      LongerMatchesFewer(words[1..], p, q);
    }
  }

  /** All words agree on their first n characters, and not on one more. */
  ghost predicate LongestCommonPrefix(words: seq<string>, n: nat) {
    && (forall v, w :: v in words && w in words ==> n <= |v| && n <= |w| && v[..n] == w[..n])
    && !(forall v, w :: v in words && w in words ==> n + 1 <= |v| && n + 1 <= |w| && v[..n + 1] == w[..n + 1])
  }

  lemma {:induction false} AllMatch(words: seq<string>, p: string)
    requires forall w :: w in words ==> p <= w
    ensures Matching(words, p) == words
  {
    if words == [] {
    } else {
      assert words[0] in words;
      assert forall w :: w in words[1..] ==> w in words;
      AllMatch(words[1..], p);
    }
  }

  /** Matching twice is matching the longer prefix. */
  lemma {:induction false} MatchingOfMatching(words: seq<string>, p: string, q: string)
    requires p <= q
    ensures Matching(Matching(words, p), q) == Matching(words, q)
  {
    if words == [] {
    } else {
      MatchingOfMatching(words[1..], p, q);
      var m := Matching(words[1..], p);
      if p <= words[0] {
        assert ([words[0]] + m)[1..] == m;
      }
    }
  }

  /**
   What the search relies on: as long as one more character of a matching word
   keeps the count, it keeps the words, and where it first lowers the count, or
   the word ends, the common prefix ends.
   */
  lemma CommonPrefixEnds(words: seq<string>, q: string, s: string, n: nat)
    requires s in Matching(words, q) && n <= |s| && q <= s[..n]
    requires Matching(words, s[..n]) == Matching(words, q)
    requires n == |s| || |Matching(words, s[..n + 1])| < |Matching(words, q)|
    ensures LongestCommonPrefix(Matching(words, q), n)
  {
    var ms := Matching(words, q);
    forall w | w in ms
      ensures n <= |w| && w[..n] == s[..n]
    {
      MatchingIn(words, s[..n], w);
    }
    if n < |s| && forall w :: w in ms ==> n + 1 <= |w| && w[..n + 1] == s[..n + 1] {
      forall w | w in ms ensures s[..n + 1] <= w {
        assert w[..n + 1] == s[..n + 1];
      }
      AllMatch(ms, s[..n + 1]);
      MatchingOfMatching(words, q, s[..n + 1]);
      assert false;
    }
  }
}
