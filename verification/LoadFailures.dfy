/**
 When the demultiplexing of LOAD DATA stops with an error: exactly if a log begins
 some file more often than its name has versions left in the directory. Events of
 files that were never begun, or have been handed out, do not stop it.
 */
module LoadFailures {
  import opened Basics
  import opened LoadDemux

  // File names.

  /** Hexadecimal digits read back. */
  function DigitValue(ch: char): nat {
    if '0' <= ch <= '9' then (ch - '0') as nat else if 'a' <= ch <= 'f' then (ch - 'a') as nat + 10 else 0
  }

  function HexValue(s: string): nat {
    if s == "" then 0 else 16 * HexValue(s[..|s| - 1]) + DigitValue(s[|s| - 1])
  }

  lemma DigitReadsBack(d: nat)
    requires d < 16
    ensures DigitValue("0123456789abcdef"[d]) == d && "0123456789abcdef"[d] != '-'
  {
    if d < 8 {
      assert d == 0 || d == 1 || d == 2 || d == 3 || d == 4 || d == 5 || d == 6 || d == 7;
    } else {
      assert d == 8 || d == 9 || d == 10 || d == 11 || d == 12 || d == 13 || d == 14 || d == 15;
    }
  }

  /** The digits stand for the number, and are digits. */
  lemma {:induction false} HexReadsBack(n: nat)
    ensures HexValue(Hex(n)) == n && '-' !in Hex(n)
  {
    var digit := "0123456789abcdef"[n % 16];
    DigitReadsBack(n % 16);
    if n < 16 {
      assert [digit][..0] == "";
    } else {
      HexReadsBack(n / 16);
      HexOn(Hex(n / 16), digit);
    }
  }

  lemma HexOn(s: string, digit: char)
    ensures HexValue(s + [digit]) == 16 * HexValue(s) + DigitValue(digit)
  {
    assert (s + [digit])[..|s|] == s;
  }

  /** A name tells its id and version. */
  lemma FileNameTells(dir: string, id: nat, v: nat, id': nat, v': nat)
    requires FileName(dir, id, v) == FileName(dir, id', v')
    ensures id == id' && v == v'
  {
    HexReadsBack(id);
    HexReadsBack(id');
    HexReadsBack(v);
    HexReadsBack(v');
    SameBehind(dir + "SQL_LOAD_MB-", Hex(id), Hex(v), Hex(id'), Hex(v'));
    SplitAtDash(Hex(id), Hex(v), Hex(id'), Hex(v'));
  }

  lemma SameBehind(front: string, a: string, b: string, a': string, b': string)
    requires front + a + "-" + b == front + a' + "-" + b'
    ensures a + "-" + b == a' + "-" + b'
  {
    var s := front + a + "-" + b;
    assert s[|front|..] == a + "-" + b && s[|front|..] == a' + "-" + b';
  }

  lemma {:induction false} SplitAtDash(a: string, b: string, a': string, b': string)
    requires a + "-" + b == a' + "-" + b' && '-' !in a && '-' !in a'
    ensures a == a' && b == b'
    decreases |a|
  {
    var s, t := a + "-" + b, a' + "-" + b';
    assert s[0] == t[0];
    if a == "" {
      assert s[0] == '-' && a' == "";
      assert s[1..] == b && t[1..] == b';
    } else {
      assert s[0] == a[0] && a' != "";
      assert s[1..] == a[1..] + "-" + b && t[1..] == a'[1..] + "-" + b';
      SplitAtDash(a[1..], b, a'[1..], b');
      assert a == [a[0]] + a[1..] && a' == [a'[0]] + a'[1..];
    }
  }

  // Names left.

  predicate Taken(files: map<string, Bytes>, dir: string, id: nat, v: nat) {
    FileName(dir, id, v) in files
  }

  /** How many of the first `n` versions of a name are not taken. */
  function Free(files: map<string, Bytes>, dir: string, id: nat, n: nat): nat {
    if n == 0 then 0 else Free(files, dir, id, n - 1) + if Taken(files, dir, id, n - 1) then 0 else 1
  }

  /** How many Begin events a log has for a file. */
  function Begins(log: seq<Event>, id: nat): nat {
    if log == [] then 0
    else
      var n := |log| - 1;
      Begins(log[..n], id) + if log[n].Begin? && log[n].id == id then 1 else 0
  }

  predicate AllTaken(files: map<string, Bytes>, dir: string, id: nat, from: nat, n: nat) {
    forall v :: from <= v < n ==> Taken(files, dir, id, v)
  }

  lemma {:induction false} FreeNone(files: map<string, Bytes>, dir: string, id: nat, n: nat)
    ensures Free(files, dir, id, n) == 0 <==> AllTaken(files, dir, id, 0, n)
  {
    if n == 0 {
    } else {
      FreeNone(files, dir, id, n - 1);
      assert AllTaken(files, dir, id, 0, n) <==> AllTaken(files, dir, id, 0, n - 1) && Taken(files, dir, id, n - 1);
    }
  }

  /** The first version that is not taken is found, and none only if all are taken. */
  lemma {:induction false} FreshNameTaken(files: map<string, Bytes>, dir: string, id: nat, v: nat) returns (u: nat)
    requires v <= VERSIONS
    ensures FreshName(files, dir, id, v).None? <==> AllTaken(files, dir, id, v, VERSIONS)
    ensures FreshName(files, dir, id, v).Some? ==>
              && v <= u < VERSIONS && FreshName(files, dir, id, v) == Some(FileName(dir, id, u))
              && !Taken(files, dir, id, u) && AllTaken(files, dir, id, v, u)
    decreases VERSIONS - v
  {
    u := v;
    if v == VERSIONS {
    } else {
      var w := FreshNameTaken(files, dir, id, v + 1);
      assert AllTaken(files, dir, id, v, VERSIONS)
             <==> Taken(files, dir, id, v) && AllTaken(files, dir, id, v + 1, VERSIONS);
      if Taken(files, dir, id, v) {
        u := w;
      }
    }
  }

  /** Taking one version of one file's name leaves one less for that file, and as many for others. */
  lemma {:induction false} FreeOn(files: map<string, Bytes>, dir: string, id: nat, v: nat, block: Bytes, other: nat, n: nat)
    requires FileName(dir, id, v) !in files
    ensures Free(files[FileName(dir, id, v) := block], dir, other, n)
              == Free(files, dir, other, n) - if other == id && v < n then 1 else 0
  {
    if n == 0 {
    } else {
      FreeOn(files, dir, id, v, block, other, n - 1);
      SameName(dir, other, n - 1, id, v);
    }
  }

  lemma SameName(dir: string, id: nat, v: nat, id': nat, v': nat)
    ensures FileName(dir, id, v) == FileName(dir, id', v') <==> id == id' && v == v'
  {
    if FileName(dir, id, v) == FileName(dir, id', v') {
      FileNameTells(dir, id, v, id', v');
    }
  }

  lemma {:induction false} SameFree(files: map<string, Bytes>, files': map<string, Bytes>, dir: string, id: nat, n: nat)
    requires files.Keys == files'.Keys
    ensures Free(files, dir, id, n) == Free(files', dir, id, n)
  {
    if n == 0 {
    } else {
      SameFree(files, files', dir, id, n - 1);
      assert FileName(dir, id, n - 1) in files.Keys <==> FileName(dir, id, n - 1) in files'.Keys;
    }
  }

  /** Every Begin event takes one version of its file's name, and nothing else takes any. */
  lemma ProcessTakes(d: Demux, dir: string, ev: Event, at: nat, id: nat)
    requires Process(d, dir, ev, at).Some?
    ensures var e := Process(d, dir, ev, at).value;
            Free(e.files, dir, id, VERSIONS)
              == Free(d.files, dir, id, VERSIONS) - if ev.Begin? && ev.id == id then 1 else 0
  {
    var e := Process(d, dir, ev, at).value;
    if ev.Begin? {
      var v := FreshNameTaken(d.files, dir, ev.id, 0);
      FreeOn(d.files, dir, ev.id, v, ev.block, id, VERSIONS);
    } else {
      assert e.files.Keys == d.files.Keys;
      SameFree(d.files, e.files, dir, id, VERSIONS);
    }
  }

  /** In a reachable state an event fails exactly if it begins a file whose names are all taken. */
  lemma ProcessFailsIff(d: Demux, dir: string, ev: Event, at: nat)
    requires Separate(d)
    ensures Process(d, dir, ev, at).None? <==> ev.Begin? && Free(d.files, dir, ev.id, VERSIONS) == 0
  {
    var v := FreshNameTaken(d.files, dir, ev.id, 0);
    FreeNone(d.files, dir, ev.id, VERSIONS);
  }

  lemma {:induction false} RunTakes(d: Demux, dir: string, log: seq<Event>, id: nat)
    requires Run(d, dir, log).Some?
    ensures Free(Run(d, dir, log).value.files, dir, id, VERSIONS) + Begins(log, id) == Free(d.files, dir, id, VERSIONS)
  {
    if log == [] {
    } else {
      var n := |log| - 1;
      RunTakes(d, dir, log[..n], id);
      ProcessTakes(Run(d, dir, log[..n]).value, dir, log[n], n, id);
    }
  }

  /** More Begin events for a file than its name has versions left in the directory. */
  predicate TooMany(d: Demux, dir: string, log: seq<Event>, id: nat) {
    Begins(log, id) > Free(d.files, dir, id, VERSIONS)
  }

  /**
   Any log runs to its end, Append and Execute events of unknown files included,
   unless it begins some file more often than there are versions of its name left.
   */
  lemma {:induction false} RunFailsIff(d: Demux, dir: string, log: seq<Event>)
    requires Fresh(d)
    ensures Run(d, dir, log).None? <==> exists id: nat :: TooMany(d, dir, log, id)
  {
    if log == [] {
      assert forall id: nat :: !TooMany(d, dir, log, id);
    } else {
      var n := |log| - 1;
      RunFailsIff(d, dir, log[..n]);
      if Run(d, dir, log[..n]).None? {
        var id: nat :| TooMany(d, dir, log[..n], id);
        assert TooMany(d, dir, log, id);
      } else {
        assert log == log[..n] + [log[n]];
        LastEventFailsIff(d, dir, log[..n], log[n]);
      }
    }
  }

  lemma BeginsOn(log: seq<Event>, ev: Event, id: nat)
    ensures Begins(log + [ev], id) == Begins(log, id) + if ev.Begin? && ev.id == id then 1 else 0
  {
    assert (log + [ev])[..|log|] == log;
  }

  lemma LastEventFailsIff(d: Demux, dir: string, log: seq<Event>, ev: Event)
    requires Fresh(d) && Run(d, dir, log).Some? && forall id: nat :: !TooMany(d, dir, log, id)
    ensures Run(d, dir, log + [ev]).None? <==> exists id: nat :: TooMany(d, dir, log + [ev], id)
  {
    var e := Run(d, dir, log).value;
    assert (log + [ev])[..|log|] == log;
    RunInv(d, dir, log);
    ProcessFailsIff(e, dir, ev, |log|);
    RunTakes(d, dir, log, ev.id);
    if ev.Begin? && Free(e.files, dir, ev.id, VERSIONS) == 0 {
      BeginsOn(log, ev, ev.id);
      assert TooMany(d, dir, log + [ev], ev.id);
    } else {
      forall id: nat ensures !TooMany(d, dir, log + [ev], id) {
        BeginsOn(log, ev, id);
        assert !TooMany(d, dir, log, id);
      }
    }
  }

  lemma {:induction false} AllFree(dir: string, id: nat, n: nat)
    ensures Free(map[], dir, id, n) == n
  {
    if n == 0 {
    } else {
      AllFree(dir, id, n - 1);
    }
  }

  /** In an empty directory a log runs to its end if it begins no file more than a thousand times. */
  lemma EmptyDirectorySuffices(d: Demux, dir: string, log: seq<Event>)
    requires Fresh(d) && d.files == map[] && forall id: nat :: Begins(log, id) <= 1000
    ensures Run(d, dir, log).Some?
  {
    RunFailsIff(d, dir, log);
    if id: nat :| TooMany(d, dir, log, id) {
      AllFree(dir, id, VERSIONS);
    }
  }
}
