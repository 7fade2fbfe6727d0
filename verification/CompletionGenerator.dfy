/**
 The resumable generator that feeds completions to the line editor, one word a
 call. With a text it yields the words that start with it; with an empty text it
 walks every slot, chain and entry list of the table and yields a bucket's word
 where the word is as long as the bucket's key, so that a word is yielded in the
 one bucket that stands for the whole of it.
 */
module CompletionGenerator {
  import opened Basics
  import opened WordIndex
  import opened CompletionHash

  /** The words of length n. */
  function Exact(ws: seq<string>, n: nat): seq<string> {
    if ws == [] then []
    else if |ws[0]| == n then [ws[0]] + Exact(ws[1..], n)
    else Exact(ws[1..], n)
  }

  function NonEmpty(ws: seq<string>): seq<string> {
    if ws == [] then []
    else if ws[0] != "" then [ws[0]] + NonEmpty(ws[1..])
    else NonEmpty(ws[1..])
  }

  /** What a walk of the chain from `p` yields. */
  ghost function WordsFrom(index: Index, p: Bucket?): seq<string>
    decreases if p == null then 0 else p.id + 1
  {
    if p == null || p.key !in index then []
    else
      Exact(index[p.key], |p.key|) +
      (if p.next != null && p.next.id < p.id then WordsFrom(index, p.next) else [])
  }

  /** What a walk of the slots from `s` on yields. */
  ghost function WordsInSlots(index: Index, heads: seq<Bucket?>, s: nat): seq<string>
    decreases |heads| - s
  {
    if s >= |heads| then [] else WordsFrom(index, heads[s]) + WordsInSlots(index, heads, s + 1)
  }

  lemma {:induction false} ExactCount(ws: seq<string>, key: string, w: string)
    requires forall v :: v in ws ==> key <= v
    ensures multiset(Exact(ws, |key|))[w] == if w == key then multiset(ws)[w] else 0
  {
    if ws == [] {
    } else {
      assert ws[0] in ws;
      assert forall v :: v in ws[1..] ==> v in ws;
      ExactCount(ws[1..], key, w);
      assert ws == [ws[0]] + ws[1..];
    }
  }

  lemma {:induction false} ReachesOlder(p: Bucket?, b: Bucket)
    requires Reaches(p, b)
    ensures b.id <= p.id
    decreases if p == null then 0 else p.id + 1
  {
    if p == b {
    } else {
      ReachesOlder(p.next, b);
    }
  }

  lemma ExactOfEntries(e: Entries, n: nat)
    requires e != End
    ensures Exact(Words(e), n) == (if |e.str| == n then [e.str] else []) + Exact(Words(e.next), n)
  {
    assert Words(e)[1..] == Words(e.next);
  }

  ghost predicate Prefixed(index: Index) {
    forall k, v :: k in index && v in index[k] ==> k <= v
  }

  /** A chain yields the words of a bucket once if it reaches the bucket, and else not at all. */
  lemma {:induction false} ChainCount(hash: string -> nat, heads: seq<Bucket?>, arena: seq<Bucket>, at: map<string, nat>,
                                      index: Index, p: Bucket?, limit: nat, s: nat, w: string)
    requires Linked(hash, heads, arena, at) && at.Keys == index.Keys && Prefixed(index)
    requires limit <= |arena| && LinkOk(arena, p, limit, |heads|, s)
    ensures multiset(WordsFrom(index, p))[w]
              == if w in at && Reaches(p, arena[at[w]]) then multiset(index[w])[w] else 0
    ensures w in at && Reaches(p, arena[at[w]]) ==> arena[at[w]].h % |heads| == s
    decreases if p == null then 0 else p.id + 1
  {
    if p == null {
    } else {
      assert BucketOk(hash, heads, arena, at, p.id);
      ExactCount(index[p.key], p.key, w);
      ChainCount(hash, heads, arena, at, index, p.next, p.id, s, w);
      if p.key == w && Reaches(p.next, p) {
        ReachesOlder(p.next, p);
      }
    }
  }

  /** How often a walk yields a word: as often as the index has it, if the walk meets its bucket. */
  ghost function Expected(at: map<string, nat>, index: Index, w: string, met: bool): nat {
    if w in at && w in index && met then multiset(index[w])[w] else 0
  }

  ghost predicate InSlots(heads: seq<Bucket?>, arena: seq<Bucket>, at: map<string, nat>, w: string, from: nat, to: nat)
    requires 0 < |heads|
  {
    w in at && at[w] < |arena| && from <= arena[at[w]].h % |heads| < to
  }

  /** One slot yields the words of a bucket if it is the bucket's own. */
  lemma SlotCount(hash: string -> nat, heads: seq<Bucket?>, arena: seq<Bucket>, at: map<string, nat>,
                  index: Index, s: nat, w: string)
    requires Linked(hash, heads, arena, at) && at.Keys == index.Keys && Prefixed(index) && s < |heads|
    ensures multiset(WordsFrom(index, heads[s]))[w] == Expected(at, index, w, InSlots(heads, arena, at, w, s, s + 1))
  {
    ChainCount(hash, heads, arena, at, index, heads[s], |arena|, s, w);
    if w in at {
      assert BucketOk(hash, heads, arena, at, at[w]);
    }
  }

  lemma CountBoth(a: seq<string>, b: seq<string>, w: string)
    ensures multiset(a + b)[w] == multiset(a)[w] + multiset(b)[w]
  {
  }

  lemma {:induction false} SlotsCount(hash: string -> nat, heads: seq<Bucket?>, arena: seq<Bucket>, at: map<string, nat>,
                                      index: Index, s: nat, w: string)
    requires Linked(hash, heads, arena, at) && at.Keys == index.Keys && Prefixed(index)
    requires s <= |heads|
    ensures multiset(WordsInSlots(index, heads, s))[w]
              == Expected(at, index, w, InSlots(heads, arena, at, w, s, |heads|))
    decreases |heads| - s
  {
    if s == |heads| {
    } else {
      SlotCount(hash, heads, arena, at, index, s, w);
      SlotsCount(hash, heads, arena, at, index, s + 1, w);
      CountBoth(WordsFrom(index, heads[s]), WordsInSlots(index, heads, s + 1), w);
      assert InSlots(heads, arena, at, w, s, |heads|)
             <==> InSlots(heads, arena, at, w, s, s + 1) || InSlots(heads, arena, at, w, s + 1, |heads|);
    }
  }

  lemma {:induction false} NonEmptyCount(ws: seq<string>, w: string)
    ensures multiset(NonEmpty(ws))[w] == if w == "" then 0 else multiset(ws)[w]
  {
    if ws == [] {
    } else {
      NonEmptyCount(ws[1..], w);
      assert ws == [ws[0]] + ws[1..];
    }
  }

  /** A walk of the whole table yields every added word as often as it was added. */
  lemma WalkYieldsAllWords(hash: string -> nat, heads: seq<Bucket?>, arena: seq<Bucket>, at: map<string, nat>,
                           index: Index, words: seq<string>)
    requires Linked(hash, heads, arena, at) && at.Keys == index.Keys && Indexes(index, words)
    ensures multiset(WordsInSlots(index, heads, 0)) == multiset(NonEmpty(words))
  {
    forall k, v | k in index && v in index[k]
      ensures k <= v
    {
      MatchingIn(words, k, v);
    }
    forall w: string
      ensures multiset(WordsInSlots(index, heads, 0))[w] == multiset(NonEmpty(words))[w]
    {
      SlotsCount(hash, heads, arena, at, index, 0, w);
      NonEmptyCount(words, w);
      MatchingCount(words, w, w);
      if w != "" && w !in index {
        assert Matching(words, w) == [];
      }
    }
  }

  /** The generator's place: an entry of bucket `b` in slot `i`. */
  datatype Cursor = Cursor(b: Bucket?, e: Entries, i: nat)

  /** A walking cursor that has not ended stands in a bucket of its slot. */
  ghost predicate Walking(ht: HashTable, c: Cursor)
    reads ht
  {
    c.e != End ==> InBucket(ht, c)
  }

  ghost predicate InBucket(ht: HashTable, c: Cursor)
    reads ht
  {
    c.i < |ht.buckets| && c.b != null && LinkOk(ht.arena, c.b, |ht.arena|, |ht.buckets|, c.i)
  }

  /** What the walk yields from its current entry on. */
  ghost function WalkLeft(ht: HashTable, c: Cursor): seq<string>
    requires Walking(ht, c)
    reads ht
  {
    if c.e == End then [] else Exact(Words(c.e), |c.b.key|) + Behind(ht, c)
  }

  /** What the walk yields behind its current bucket. */
  ghost function Behind(ht: HashTable, c: Cursor): seq<string>
    requires c.b != null
    reads ht
  {
    WordsFrom(ht.index, c.b.next) + WordsInSlots(ht.index, ht.buckets, c.i + 1)
  }

  /** `d` has ended or has gone past the bucket of `c`. */
  ghost predicate Past(c: Cursor, d: Cursor) {
    d.e == End || c.i < d.i || (c.i == d.i && c.b != null && d.b != null && d.b.id < c.b.id)
  }

  /** The first used slot at or behind `k`. */
  method FirstUsed(ht: HashTable, k: nat) returns (s: nat)
    requires ht.ValidTable()
    ensures k <= s && (s < |ht.buckets| ==> ht.buckets[s] != null)
    ensures forall j :: k <= j < s && j < |ht.buckets| ==> ht.buckets[j] == null
    ensures WordsInSlots(ht.index, ht.buckets, s) == WordsInSlots(ht.index, ht.buckets, k)
  {
    s := k;
    while s < |ht.buckets| && ht.buckets[s] == null
      invariant k <= s
      invariant forall j :: k <= j < s && j < |ht.buckets| ==> ht.buckets[j] == null
      invariant WordsInSlots(ht.index, ht.buckets, s) == WordsInSlots(ht.index, ht.buckets, k)
      decreases |ht.buckets| - s
    {
      s := s + 1;
    }
  }

  /** A cursor on the first entry of a bucket of slot `s`. */
  method Enter(ht: HashTable, p: Bucket, s: nat) returns (c: Cursor)
    requires ht.ValidTable() && s < |ht.buckets| && LinkOk(ht.arena, p, |ht.arena|, |ht.buckets|, s)
    ensures c.b == p && c.i == s && c.e != End && Walking(ht, c)
    ensures WalkLeft(ht, c) == WordsFrom(ht.index, p) + WordsInSlots(ht.index, ht.buckets, s + 1)
  {
    c := Cursor(p, p.data, s);
    assert BucketOk(ht.hash, ht.buckets, ht.arena, ht.at, p.id);
  }

  /** A cursor on the first bucket at or behind slot `k`; `c` where there is none. */
  method EnterSlot(ht: HashTable, k: nat, c: Cursor) returns (d: Cursor)
    requires ht.ValidTable()
    requires c.e != End ==> exists j :: k <= j < |ht.buckets| && ht.buckets[j] != null
    ensures Walking(ht, d) && (d.e == End || k <= d.i)
    ensures WalkLeft(ht, d) == WordsInSlots(ht.index, ht.buckets, k)
  {
    var s := FirstUsed(ht, k);
    if s < |ht.buckets| {
      assert LinkOk(ht.arena, ht.buckets[s], |ht.arena|, |ht.buckets|, s);
      d := Enter(ht, ht.buckets[s], s);
    } else {
      d := c.(i := s);
    }
  }

  /** From the last entry of a bucket to the next bucket of the walk, if there is one. */
  method NextBucket(ht: HashTable, c: Cursor) returns (d: Cursor)
    requires ht.ValidTable() && InBucket(ht, c) && c.e == End
    ensures Walking(ht, d) && Past(c, d)
    ensures WalkLeft(ht, d) == Behind(ht, c)
  {
    assert BucketOk(ht.hash, ht.buckets, ht.arena, ht.at, c.b.id);
    if c.b.next == null {
      d := EnterSlot(ht, c.i + 1, c.(b := null));
    } else {
      d := Enter(ht, c.b.next, c.i);
    }
  }

  /** What the walk yields is what its entry yields and then the rest. */
  lemma EntryYields(ht: HashTable, c: Cursor)
    requires Walking(ht, c) && c.e != End
    ensures WalkLeft(ht, c) == (if |c.e.str| == |c.b.key| then [c.e.str] else []) +
                               (if c.e.next == End then Behind(ht, c) else WalkLeft(ht, c.(e := c.e.next)))
  {
    var n, h := |c.b.key|, if |c.e.str| == |c.b.key| then [c.e.str] else [];
    ExactOfEntries(c.e, n);
    Assoc(h, Exact(Words(c.e.next), n), Behind(ht, c));
    if c.e.next == End {
      assert Exact(Words(c.e.next), n) == [];
      assert [] + Behind(ht, c) == Behind(ht, c);
    }
  }

  /** Takes one entry of the walk; yields its word if that is as long as the bucket's key. */
  method TakeEntry(ht: HashTable, c: Cursor) returns (r: Option<string>, d: Cursor)
    requires ht.ValidTable() && Walking(ht, c) && c.e != End
    ensures Walking(ht, d)
    ensures WalkLeft(ht, c) == (if r.Some? then [r.value] else []) + WalkLeft(ht, d)
    ensures Past(c, d) || (d.b == c.b && d.i == c.i && d.e == c.e.next)
  {
    EntryYields(ht, c);
    r := if |c.e.str| == |c.b.key| then Some(c.e.str) else None;
    d := c.(e := c.e.next);
    if d.e == End {
      d := NextBucket(ht, d);
    }
  }

  /** One call of the walk: the next word, or nothing once the walk has ended. */
  method NextInWalk(ht: HashTable, c: Cursor) returns (r: Option<string>, d: Cursor)
    requires ht.ValidTable() && Walking(ht, c)
    ensures Walking(ht, d) && (r.None? ==> d.e == End)
    ensures WalkLeft(ht, c) == (if r.Some? then [r.value] else []) + WalkLeft(ht, d)
  {
    r, d := None, c;
    while d.e != End && r == None
      invariant Walking(ht, d)
      invariant WalkLeft(ht, c) == (if r.Some? then [r.value] else []) + WalkLeft(ht, d)
      decreases if d.e == End then 0 else |ht.buckets| - d.i, if d.b == null then 0 else d.b.id, d.e
    {
      r, d := TakeEntry(ht, d);
    }
  }

  /** The generator with what it keeps between calls. */
  class Generator {
    const ht: HashTable
    var textLength: nat
    var cursor: Cursor

    constructor (ht: HashTable)
      ensures this.ht == ht && CursorOk()
    {
      this.ht := ht;
      textLength, cursor := 0, Cursor(null, End, 0);
    }

    /** A cursor that has not ended belongs to a table with buckets. */
    ghost predicate CursorOk()
      reads this, ht
    {
      (cursor.e != End ==> ht.arena != []) && (textLength == 0 ==> Walking(ht, cursor))
    }

    /** What the calls to come will yield. */
    ghost function Left(): seq<string>
      requires CursorOk()
      reads this, ht
    {
      if textLength > 0 then Words(cursor.e) else WalkLeft(ht, cursor)
    }

    /** Starts a walk of the whole table. */
    method StartWalk()
      requires ht.ValidTable() && CursorOk()
      modifies this
      ensures textLength == 0 && CursorOk() && Left() == WordsInSlots(ht.index, ht.buckets, 0)
    {
      if ht.arena != [] {
        assert BucketOk(ht.hash, ht.buckets, ht.arena, ht.at, 0);
      }
      var c := EnterSlot(ht, 0, cursor);
      textLength, cursor := 0, c;
    }

    /** Starts on the words that begin with `text`; without any the cursor is left alone. */
    method StartMatches(text: string) returns (found: bool)
      requires ht.Valid() && CursorOk() && text != ""
      modifies this
      ensures textLength == |text| && CursorOk()
      ensures found <==> Matching(ht.words, text) != []
      ensures found ==> Left() == Matching(ht.words, text)
    {
      assert text[..|text|] == text;
      var p, n := ht.FindAllMatches(text, |text|);
      textLength := |text|;
      if p != null {
        cursor := cursor.(b := p, e := p.data);
      }
      return p != null;
    }

    /** Yields the first of the words that are left. */
    method Resume() returns (r: Option<string>)
      requires ht.ValidTable() && CursorOk()
      modifies this`cursor
      ensures CursorOk()
      ensures old(Left()) == if r.Some? then [r.value] + Left() else []
    {
      if textLength == 0 {
        var c;
        r, c := NextInWalk(ht, cursor);
        cursor := c;
      } else if cursor.e == End {
        r := None;
      } else {
        r := Some(cursor.e.str);
        cursor := cursor.(e := cursor.e.next);
      }
    }

    /** What the generator is to yield for a text. */
    ghost function Completions(text: string): seq<string>
      reads this, ht
    {
      if text != "" then Matching(ht.words, text) else WordsInSlots(ht.index, ht.buckets, 0)
    }

    /** One call of the generator, `first` when the line editor starts over. */
    method Next(text: string, first: bool) returns (r: Option<string>)
      requires ht.Valid() && CursorOk()
      modifies this
      ensures CursorOk()
      ensures (if first then Completions(text) else old(Left())) == if r.Some? then [r.value] + Left() else []
    {
      if first {
        if text == "" {
          StartWalk();
        } else {
          var found := StartMatches(text);
          if !found {
            return None;
          }
        }
      }
      r := Resume();
    }

    /** Calls the generator again and again until it has no more. */
    method Drain() returns (ws: seq<string>)
      requires ht.ValidTable() && CursorOk()
      modifies this`cursor
      ensures ws == old(Left())
    {
      ws := [];
      var more := true;
      while more
        invariant ht.ValidTable() && CursorOk()
        invariant old(Left()) == ws + if more then Left() else []
        decreases more, |Left()|
      {
        var r := Resume();
        if r.Some? {
          Assoc(ws, [r.value], Left());
          ws := ws + [r.value];
        } else {
          more := false;
        }
      }
    }

    /** What the line editor gets for a text, in the generator's order. */
    method Collect(text: string) returns (ws: seq<string>)
      requires ht.Valid() && CursorOk()
      modifies this
      ensures ws == Completions(text)
    {
      var r := Next(text, true);
      if r.None? {
        return [];
      }
      var rest := Drain();
      ws := [r.value] + rest;
    }

    /** ... which is every matching word, and for the empty text every word, as often as it was added. */
    method All(text: string) returns (ws: seq<string>)
      requires ht.Valid() && CursorOk()
      modifies this
      ensures text != "" ==> ws == Matching(ht.words, text)
      ensures text == "" ==> multiset(ws) == multiset(NonEmpty(ht.words))
    {
      ws := Collect(text);
      if text == "" {
        WalkYieldsAllWords(ht.hash, ht.buckets, ht.arena, ht.at, ht.index, ht.words);
      }
    }
  }
}
