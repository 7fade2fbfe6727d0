/**
 The client's completion table: chained buckets, one for every prefix of every
 added word, each with the list of its words and their count.

 Buckets are linked once, in front of their chain, and never relinked, so `next`,
 `key` and `h` are constant; `count` and `data` change in place. An entry never
 changes after it is linked, so an entry list is a value. The ghost sequence
 `arena` holds the buckets in the order they were allocated in; a bucket links
 only to older ones.
 */
module CompletionHash {
  import opened WordIndex

  datatype Entries = End | Entry(str: string, next: Entries)

  function Words(e: Entries): seq<string> {
    match e
    case End => []
    case Entry(s, n) => [s] + Words(n)
  }

  class Bucket {
    const h: nat
    const key: string
    const next: Bucket?
    ghost const id: nat
    var count: nat
    var data: Entries

    constructor (h: nat, key: string, str: string, next: Bucket?, ghost id: nat)
      ensures this.h == h && this.key == key && this.next == next && this.id == id
      ensures count == 1 && data == Entry(str, End)
    {
      this.h, this.key, this.next, this.id := h, key, next, id;
      count, data := 1, Entry(str, End);
    }
  }

  /** Following `next` from `p`, towards older buckets, meets `b`. */
  ghost predicate Reaches(p: Bucket?, b: Bucket)
    decreases if p == null then 0 else p.id + 1
  {
    p != null && (p == b || (p.next != null && p.next.id < p.id && Reaches(p.next, b)))
  }

  /** `p` ends a chain of slot `s` or goes on in the arena with an older bucket of that slot. */
  ghost predicate LinkOk(arena: seq<Bucket>, p: Bucket?, limit: nat, size: nat, s: nat)
    requires limit <= |arena| && 0 < size
  {
    p == null || (p.id < limit && arena[p.id] == p && p.h % size == s)
  }

  /** The bucket allocated as number `i`: the table finds it by its key, and so does its chain. */
  ghost predicate BucketOk(hash: string -> nat, heads: seq<Bucket?>, arena: seq<Bucket>, at: map<string, nat>, i: nat)
    requires i < |arena| && 0 < |heads|
  {
    var b := arena[i];
    && b.id == i && b.key != "" && b.h == hash(b.key)
    && b.key in at && at[b.key] == i
    && LinkOk(arena, b.next, i, |heads|, b.h % |heads|)
    && Reaches(heads[b.h % |heads|], b)
  }

  /** The buckets, their chains and the slots of a table; `at` finds a key's bucket. */
  ghost predicate Linked(hash: string -> nat, heads: seq<Bucket?>, arena: seq<Bucket>, at: map<string, nat>) {
    && 0 < |heads|
    && (forall i :: 0 <= i < |arena| ==> BucketOk(hash, heads, arena, at, i))
    && (forall s :: 0 <= s < |heads| ==> LinkOk(arena, heads[s], |arena|, |heads|, s))
    && (forall k :: k in at ==> at[k] < |arena| && arena[at[k]].key == k)
  }

  lemma LinkedInsert(hash: string -> nat, heads: seq<Bucket?>, arena: seq<Bucket>, at: map<string, nat>, b: Bucket)
    requires Linked(hash, heads, arena, at)
    requires b.id == |arena| && b.key != "" && b.key !in at && b.h == hash(b.key) && b.next == heads[b.h % |heads|]
    ensures Linked(hash, heads[b.h % |heads| := b], arena + [b], at[b.key := |arena|])
  {
    var n := b.h % |heads|;
    var heads', arena', at' := heads[n := b], arena + [b], at[b.key := |arena|];
    assert LinkOk(arena, heads[n], |arena|, |heads|, n);
    forall i | 0 <= i < |arena'|
      ensures BucketOk(hash, heads', arena', at', i)
    {
      if i < |arena| {
        assert BucketOk(hash, heads, arena, at, i);
      }
    }
    forall s | 0 <= s < |heads'|
      ensures LinkOk(arena', heads'[s], |arena'|, |heads'|, s)
    {
      assert LinkOk(arena, heads[s], |arena|, |heads|, s);
    }
  }

  lemma OneBucketPerKey(hash: string -> nat, heads: seq<Bucket?>, arena: seq<Bucket>, at: map<string, nat>, p: Bucket)
    requires Linked(hash, heads, arena, at) && p in arena
    ensures forall i :: 0 <= i < |arena| && arena[i] != p ==> arena[i].key != p.key
  {
    var j :| 0 <= j < |arena| && arena[j] == p;
    assert BucketOk(hash, heads, arena, at, j);
    forall i | 0 <= i < |arena| && arena[i] != p
      ensures arena[i].key != p.key
    {
      assert BucketOk(hash, heads, arena, at, i);
    }
  }

  ghost predicate Holds(b: Bucket, ws: seq<string>)
    reads b
  {
    Words(b.data) == ws && b.count == |ws| > 0
  }

  /** The buckets hold the words of the index. */
  ghost predicate Fills(arena: seq<Bucket>, index: Index)
    reads arena
  {
    forall i :: 0 <= i < |arena| ==> arena[i].key in index && Holds(arena[i], index[arena[i].key])
  }

  lemma FillsInsert(arena: seq<Bucket>, index: Index, b: Bucket, str: string)
    requires Fills(arena, index) && b.key !in index && Holds(b, [str])
    ensures Fills(arena + [b], Prepend(index, b.key, str))
  {
    forall i | 0 <= i < |arena + [b]|
      ensures (arena + [b])[i].key in Prepend(index, b.key, str)
      ensures Holds((arena + [b])[i], Prepend(index, b.key, str)[(arena + [b])[i].key])
    {
    }
  }

  class HashTable {
    const hash: string -> nat
    var buckets: seq<Bucket?>
    ghost var arena: seq<Bucket>
    ghost var at: map<string, nat>
    ghost var index: Index
    ghost var words: seq<string>

    /** The structure represents `index`. */
    ghost predicate ValidTable()
      reads this, arena
    {
      Linked(hash, buckets, arena, at) && at.Keys == index.Keys && Fills(arena, index)
    }

    /** ... and `index` is the index of the added words. */
    ghost predicate Valid()
      reads this, arena
    {
      ValidTable() && Indexes(index, words)
    }

    constructor (hash: string -> nat, size: nat)
      requires 0 < size
      ensures Valid() && this.hash == hash && |buckets| == size
      ensures words == [] && arena == []
    {
      this.hash := hash;
      buckets := seq(size, _ => null);
      arena, at, index, words := [], map[], map[], [];
    }

    /** The bucket of a key, whatever else shares its slot or its hash value. */
    method Find(key: string) returns (p: Bucket?)
      requires ValidTable()
      ensures p == null <==> key !in index
      ensures p != null ==> p in arena && p.key == key && Holds(p, index[key])
    {
      var h := hash(key);
      p := buckets[h % |buckets|];
      assert key in at ==> BucketOk(hash, buckets, arena, at, at[key]);
      while p != null
        invariant LinkOk(arena, p, |arena|, |buckets|, h % |buckets|)
        invariant key in at ==> Reaches(p, arena[at[key]])
        decreases if p == null then 0 else p.id + 1
      {
        assert BucketOk(hash, buckets, arena, at, p.id);
        if p.h == h && |p.key| == |key| && p.key == key {
          return;
        }
        p := p.next;
      }
    }

    /** Puts `str` in front of the words of `key`. */
    method Update(key: string, str: string) returns (ok: bool)
      requires ValidTable()
      modifies this`arena, this`at, this`index, this`buckets, arena
      ensures ValidTable()
      ensures ok <==> key != ""
      ensures index == if ok then Prepend(old(index), key, str) else old(index)
      ensures forall i :: 0 <= i < |arena| ==> arena[i] in old(arena) || fresh(arena[i])
    {
      if key == "" {
        return false;
      }
      var p := Find(key);
      if p != null {
        Push(p, str);
      } else {
        Insert(key, str);
      }
      return true;
    }

    method Push(p: Bucket, str: string)
      requires ValidTable() && p in arena
      modifies this`index, p
      ensures ValidTable()
      ensures index == Prepend(old(index), p.key, str)
    {
      OneBucketPerKey(hash, buckets, arena, at, p);
      p.data := Entry(str, p.data);
      p.count := p.count + 1;
      index := Prepend(index, p.key, str);
    }

    method Insert(key: string, str: string)
      requires ValidTable() && key != "" && key !in index
      modifies this`arena, this`at, this`index, this`buckets
      ensures ValidTable()
      ensures index == Prepend(old(index), key, str)
      ensures forall i :: 0 <= i < |arena| ==> arena[i] in old(arena) || fresh(arena[i])
    {
      var h := hash(key);
      var b := new Bucket(h, key, str, buckets[h % |buckets|], |arena|);
      assert Words(b.data) == [str];
      Link(b, str);
    }

    /** Makes `b` the head of its chain. */
    method Link(b: Bucket, ghost str: string)
      requires ValidTable() && b.key != "" && b.key !in index && Holds(b, [str])
      requires b.id == |arena| && b.h == hash(b.key) && b.next == buckets[b.h % |buckets|]
      modifies this`arena, this`at, this`index, this`buckets
      ensures ValidTable()
      ensures index == Prepend(old(index), b.key, str)
      ensures arena == old(arena) + [b]
    {
      LinkedInsert(hash, buckets, arena, at, b);
      FillsInsert(arena, index, b, str);
      buckets := buckets[b.h % |buckets| := b];
      Register(b, str);
    }

    /** Takes note of a bucket that has just been linked. */
    ghost method Register(b: Bucket, str: string)
      requires Linked(hash, buckets, arena + [b], at[b.key := |arena|]) && at.Keys == index.Keys
      requires Fills(arena + [b], Prepend(index, b.key, str))
      modifies this`arena, this`at, this`index
      ensures ValidTable()
      ensures index == Prepend(old(index), b.key, str) && arena == old(arena) + [b]
    {
      arena, at, index := arena + [b], at[b.key := |arena|], Prepend(index, b.key, str);
    }

    /** Adds the word under each of its prefixes. */
    method AddAllPrefixes(str: string)
      requires ValidTable()
      modifies this`arena, this`at, this`index, this`buckets, arena
      ensures ValidTable() && index == AddPrefixes(old(index), str, |str|)
      ensures forall i :: 0 <= i < |arena| ==> arena[i] in old(arena) || fresh(arena[i])
    {
      for i := 0 to |str|
        invariant ValidTable() && index == AddPrefixes(old(index), str, i)
        invariant forall i :: 0 <= i < |arena| ==> arena[i] in old(arena) || fresh(arena[i])
      {
        var ok := Update(str[..i + 1], str);
      }
    }

    method AddWord(str: string)
      requires Valid()
      modifies this, arena
      ensures Valid()
      ensures words == [str] + old(words)
      ensures forall i :: 0 <= i < |arena| ==> arena[i] in old(arena) || fresh(arena[i])
    {
      AddAllPrefixes(str);
      AddWordIndexes(old(index), old(words), str);
      words := [str] + words;
    }

    /** The words that start with the first `length` characters of `str`. */
    method FindAllMatches(str: string, length: nat) returns (b: Bucket?, resLength: nat)
      requires Valid() && length <= |str|
      ensures b == null <==> length == 0 || Matching(words, str[..length]) == []
      ensures b != null ==> b in arena && Holds(b, Matching(words, str[..length])) && resLength == length
      ensures b == null ==> resLength == 0
    {
      b := Find(str[..length]);
      resLength := if b == null then 0 else length;
    }

    /** All matches of `q` agree with `s`, one of them, on its first `n` characters; `b` is that prefix's bucket. */
    ghost predicate Agreed(q: string, s: string, n: nat, b: Bucket)
      reads this, arena
    {
      && n <= |s| && q <= s[..n] && s in Matching(words, q)
      && b in arena && b.key == s[..n] && Holds(b, Matching(words, q))
      && Matching(words, s[..n]) == Matching(words, q)
    }

    /** The bucket of `q`, and its first word. */
    method FirstMatch(q: string) returns (b: Bucket?, s: string)
      requires Valid()
      ensures b == null <==> q == "" || Matching(words, q) == []
      ensures b != null ==> Agreed(q, s, |q|, b)
    {
      s := "";
      b := Find(q);
      if b != null {
        s := b.data.str;
        assert s == Words(b.data)[0];
        MatchingIn(words, q, s);
      }
    }

    /** The bucket of one more character of `s`, if that keeps the matches. */
    method LongerMatch(ghost q: string, s: string, n: nat, count: nat, ghost b: Bucket) returns (longer: Bucket?)
      requires Valid() && Agreed(q, s, n, b) && n < |s| && count == |Matching(words, q)|
      ensures longer == null ==> |Matching(words, s[..n + 1])| < |Matching(words, q)|
      ensures longer != null ==> Agreed(q, s, n + 1, longer)
    {
      ghost var p := s[..n + 1];
      longer := Find(s[..n + 1]);
      LongerMatchesFewer(words, q, p);
      if longer != null && longer.count < count {
        longer := null;
      }
    }

    /** ... and how far those words agree. */
    method FindLongestMatch(str: string, length: nat) returns (found: Bucket?, resLength: nat)
      requires Valid() && length <= |str|
      ensures found == null <==> length == 0 || Matching(words, str[..length]) == []
      ensures found == null ==> resLength == 0
      ensures found != null ==>
                && found in arena
                && Holds(found, Matching(words, str[..length]))
                && LongestCommonPrefix(Matching(words, str[..length]), resLength)
                && |found.key| == resLength
    {
      ghost var q := str[..length];
      var s;
      found, s := FirstMatch(str[..length]);
      resLength := 0;
      if found != null {
        var count, lm := found.count, length;
        while lm < |s|
          invariant found != null && Agreed(q, s, lm, found)
        {
          var b := LongerMatch(q, s, lm, count, found);
          if b == null {
            break;
          }
          found, lm := b, lm + 1;
        }
        CommonPrefixEnds(words, q, s, lm);
        resLength := lm;
      }
    }
  }
}
