/**
 LOAD DATA in the binary log: the data of a file comes as a Begin event, any
 number of Append events and an Execute event, interleaved with those of other
 files. The processor writes each file's data to a file of its own and hands the
 file's name out at Execute.
 */
module LoadDemux {
  import opened Basics

  type Bytes = seq<char>

  datatype Event =
    | Begin(id: nat, block: Bytes)
    | Append(id: nat, block: Bytes)
    | Execute(id: nat)

  /** A name handed out by the Execute event number `event` of the log. */
  datatype Grab = Grab(event: nat, name: string)

  datatype Demux = Demux(
    names: seq<Option<string>>,
    files: map<string, Bytes>,
    grabs: seq<Grab>)

  const VERSIONS: nat := 1000

  function Hex(n: nat): string {
    var digit := "0123456789abcdef"[n % 16];
    if n < 16 then [digit] else Hex(n / 16) + [digit]
  }

  function FileName(dir: string, id: nat, version: nat): string {
    dir + "SQL_LOAD_MB-" + Hex(id) + "-" + Hex(version)
  }

  /** The first version of the name that is not taken, from `v` on. */
  function FreshName(files: map<string, Bytes>, dir: string, id: nat, v: nat): (r: Option<string>)
    ensures r.Some? ==> r.value !in files
    decreases VERSIONS - v
  {
    if v >= VERSIONS then None
    else if FileName(dir, id, v) !in files then Some(FileName(dir, id, v))
    else FreshName(files, dir, id, v + 1)
  }

  function NameOf(names: seq<Option<string>>, id: nat): Option<string> {
    if id < |names| then names[id] else None
  }

  /** Element `id` of a dynamic array, which grows as needed. */
  function SetName(names: seq<Option<string>>, id: nat, name: Option<string>): (r: seq<Option<string>>)
    ensures forall x: nat :: NameOf(r, x) == if x == id then name else NameOf(names, x)
  {
    if id < |names| then names[id := name]
    else names + seq(id - |names|, _ => None) + [name]
  }

  /** One event; None is the error that stops the program. */
  function Process(d: Demux, dir: string, ev: Event, at: nat): Option<Demux> {
    match ev
    case Begin(id, block) =>
      (match FreshName(d.files, dir, id, 0)
       case None => None
       case Some(name) => Some(d.(names := SetName(d.names, id, Some(name)), files := d.files[name := block])))
    case Append(id, block) =>
      (match NameOf(d.names, id)
       case None => Some(d)
       case Some(name) =>
         if name in d.files then Some(d.(files := d.files[name := d.files[name] + block])) else None)
    case Execute(id) =>
      (match NameOf(d.names, id)
       case None => Some(d)
       case Some(name) => Some(d.(names := SetName(d.names, id, None), grabs := d.grabs + [Grab(at, name)])))
  }

  function Run(d: Demux, dir: string, log: seq<Event>): Option<Demux> {
    if log == [] then Some(d)
    else
      var n := |log| - 1;
      match Run(d, dir, log[..n])
      case None => None
      case Some(e) => Process(e, dir, log[n], n)
  }

  // What a log says about a file, independently of names and files.

  function Appended(log: seq<Event>, id: nat): Bytes {
    if log == [] then []
    else
      var n := |log| - 1;
      Appended(log[..n], id) + if log[n].Append? && log[n].id == id then log[n].block else []
  }

  /** The last Begin of the file is event `k`, and no Execute has come since. */
  predicate OpenSince(log: seq<Event>, id: nat, k: nat) {
    && k < |log| && log[k].Begin? && log[k].id == id
    && forall j :: k < j < |log| && log[j].id == id ==> log[j].Append?
  }

  /** The file is open with this data: its latest Begin block and every later Append block, in order. */
  ghost predicate Uploaded(log: seq<Event>, id: nat, data: Bytes) {
    exists k: nat :: OpenSince(log, id, k) && data == log[k].block + Appended(log[k + 1..], id)
  }

  ghost predicate Open(log: seq<Event>, id: nat) {
    exists k: nat :: OpenSince(log, id, k)
  }

  lemma AppendedOn(log: seq<Event>, ev: Event, k: nat, id: nat)
    requires k <= |log|
    ensures Appended((log + [ev])[k..], id)
              == Appended(log[k..], id) + if ev.Append? && ev.id == id then ev.block else []
  {
    var l := (log + [ev])[k..];
    assert l == log[k..] + [ev];
    assert l[..|l| - 1] == log[k..];
  }

  lemma OpenSinceOn(log: seq<Event>, ev: Event, id: nat, k: nat)
    requires k < |log|
    ensures OpenSince(log + [ev], id, k) <==> OpenSince(log, id, k) && (ev.id != id || ev.Append?)
  {
    if OpenSince(log + [ev], id, k) {
      assert (log + [ev])[|log|] == ev;
      forall j | k < j < |log| && log[j].id == id ensures log[j].Append? {
        assert (log + [ev])[j] == log[j];
      }
    }
  }

  /** An event of the file, or of another one, changes what is open as it should. */
  lemma UploadedOn(log: seq<Event>, ev: Event, id: nat, data: Bytes)
    requires Uploaded(log, id, data) && (ev.id != id || ev.Append?)
    ensures Uploaded(log + [ev], id, data + if ev.id == id then ev.block else [])
  {
    var k: nat :| OpenSince(log, id, k) && data == log[k].block + Appended(log[k + 1..], id);
    OpenSinceOn(log, ev, id, k);
    AppendedOn(log, ev, k + 1, id);
    Assoc(log[k].block, Appended(log[k + 1..], id), if ev.id == id then ev.block else []);
    assert OpenSince(log + [ev], id, k) && (log + [ev])[k] == log[k];
  }

  lemma UploadedBegin(log: seq<Event>, ev: Event)
    requires ev.Begin?
    ensures Uploaded(log + [ev], ev.id, ev.block)
  {
    var l := log + [ev];
    assert l[|log| + 1..] == [];
    assert OpenSince(l, ev.id, |log|);
  }

  lemma OpenOn(log: seq<Event>, ev: Event, id: nat)
    requires Open(log + [ev], id) && !(ev.Begin? && ev.id == id)
    ensures Open(log, id) && (ev.id == id ==> ev.Append?)
  {
    var k: nat :| OpenSince(log + [ev], id, k);
    if k < |log| {
      OpenSinceOn(log, ev, id, k);
    }
  }

  // The invariant of the processor.

  /** Registered names are files, no two ids share one, and none has been handed out. */
  ghost predicate Separate(d: Demux) {
    && (forall id: nat :: NameOf(d.names, id).Some? ==> NameOf(d.names, id).value in d.files)
    && (forall id: nat, other: nat ::
          id != other && NameOf(d.names, id).Some? ==> NameOf(d.names, other) != NameOf(d.names, id))
    && (forall i :: 0 <= i < |d.grabs| ==> d.grabs[i].name in d.files)
    && (forall i, id: nat :: 0 <= i < |d.grabs| ==> NameOf(d.names, id) != Some(d.grabs[i].name))
    && (forall i, j :: 0 <= i < j < |d.grabs| ==> d.grabs[i].name != d.grabs[j].name)
  }

  /** The file of each id holds what the log says, and an id without a file is not open. */
  ghost predicate Agrees(d: Demux, log: seq<Event>, id: nat) {
    match NameOf(d.names, id)
    case None => !Open(log, id)
    case Some(name) => name in d.files && Uploaded(log, id, d.files[name])
  }

  /** A name was handed out by an Execute event, and its file still holds what the log said then. */
  ghost predicate GrabOk(d: Demux, log: seq<Event>, g: Grab) {
    && g.event < |log| && log[g.event].Execute?
    && g.name in d.files && Uploaded(log[..g.event], log[g.event].id, d.files[g.name])
  }

  ghost predicate Inv(d: Demux, log: seq<Event>) {
    && Separate(d)
    && (forall id: nat :: Agrees(d, log, id))
    && (forall i :: 0 <= i < |d.grabs| ==> GrabOk(d, log, d.grabs[i]))
  }

  lemma ProcessSeparate(d: Demux, dir: string, ev: Event, at: nat)
    requires Separate(d) && Process(d, dir, ev, at).Some?
    ensures Separate(Process(d, dir, ev, at).value)
  {
  }

  lemma ProcessAgrees(d: Demux, dir: string, log: seq<Event>, ev: Event, id: nat)
    requires Separate(d) && Agrees(d, log, id) && Process(d, dir, ev, |log|).Some?
    ensures Agrees(Process(d, dir, ev, |log|).value, log + [ev], id)
  {
    var e := Process(d, dir, ev, |log|).value;
    if ev.Begin? && ev.id == id {
      UploadedBegin(log, ev);
    } else if NameOf(e.names, id).None? {
      if Open(log + [ev], id) {
        OpenOn(log, ev, id);
        OpenHasData(log, id);
        assert false;
      }
    } else {
      var name := NameOf(e.names, id).value;
      assert NameOf(d.names, id) == Some(name);
      UploadedOn(log, ev, id, d.files[name]);
      assert ev.id != id ==> d.files[name] + [] == d.files[name];
    }
  }

  lemma OpenHasData(log: seq<Event>, id: nat)
    ensures Open(log, id) <==> exists data :: Uploaded(log, id, data)
  {
    if k: nat :| OpenSince(log, id, k) {
      assert Uploaded(log, id, log[k].block + Appended(log[k + 1..], id));
    }
  }

  lemma ProcessGrab(d: Demux, dir: string, log: seq<Event>, ev: Event, i: nat)
    requires Inv(d, log) && Process(d, dir, ev, |log|).Some? && i < |Process(d, dir, ev, |log|).value.grabs|
    ensures var e := Process(d, dir, ev, |log|).value; GrabOk(e, log + [ev], e.grabs[i])
  {
    var e := Process(d, dir, ev, |log|).value;
    var l := log + [ev];
    if i < |d.grabs| {
      var g := d.grabs[i];
      assert GrabOk(d, log, g);
      assert l[..g.event] == log[..g.event];
    } else {
      assert l[..|log|] == log;
      assert Agrees(d, log, ev.id);
    }
  }

  lemma ProcessKeepsInv(d: Demux, dir: string, log: seq<Event>, ev: Event)
    requires Inv(d, log) && Process(d, dir, ev, |log|).Some?
    ensures Inv(Process(d, dir, ev, |log|).value, log + [ev])
  {
    var e := Process(d, dir, ev, |log|).value;
    ProcessSeparate(d, dir, ev, |log|);
    forall id: nat ensures Agrees(e, log + [ev], id) {
      assert Agrees(d, log, id);
      ProcessAgrees(d, dir, log, ev, id);
    }
    forall i | 0 <= i < |e.grabs| ensures GrabOk(e, log + [ev], e.grabs[i]) {
      ProcessGrab(d, dir, log, ev, i);
    }
  }

  /** Before the first event no name is registered or handed out; the directory may hold anything. */
  predicate Fresh(d: Demux) {
    (forall i :: 0 <= i < |d.names| ==> d.names[i].None?) && d.grabs == []
  }

  /**
   Demultiplexing, for any interleaving of events: every open id has a file of
   its own with its latest Begin block and exactly its later Append blocks, and
   every name handed out was the file's at its Execute, is handed out once, and
   the file has not changed since.
   */
  lemma {:induction false} RunInv(d: Demux, dir: string, log: seq<Event>)
    requires Fresh(d) && Run(d, dir, log).Some?
    ensures Inv(Run(d, dir, log).value, log)
  {
    if log == [] {
      assert forall id: nat :: NameOf(d.names, id).None?;
    } else {
      var n := |log| - 1;
      var before, ev := log[..n], log[n];
      assert log == before + [ev];
      RunInv(d, dir, before);
      ProcessKeepsInv(Run(d, dir, before).value, dir, before, ev);
    }
  }

  /** A log says one thing about a file: the data is determined. */
  lemma UploadedUnique(log: seq<Event>, id: nat, a: Bytes, b: Bytes)
    requires Uploaded(log, id, a) && Uploaded(log, id, b)
    ensures a == b
  {
    var k: nat :| OpenSince(log, id, k) && a == log[k].block + Appended(log[k + 1..], id);
    var m: nat :| OpenSince(log, id, m) && b == log[m].block + Appended(log[m + 1..], id);
    assert !(k < m) && !(m < k);
  }

  /** Some name was handed out by event `k`. */
  ghost predicate GrabbedAt(grabs: seq<Grab>, k: nat) {
    exists i :: 0 <= i < |grabs| && grabs[i].event == k
  }

  lemma GrabbedOn(grabs: seq<Grab>, g: Grab, k: nat)
    ensures GrabbedAt(grabs + [g], k) <==> GrabbedAt(grabs, k) || g.event == k
  {
    if GrabbedAt(grabs, k) {
      var i :| 0 <= i < |grabs| && grabs[i].event == k;
      assert (grabs + [g])[i].event == k;
    }
    if g.event == k {
      assert (grabs + [g])[|grabs|].event == k;
    }
  }

  /** An Execute event hands out a name exactly when the log has its file open. */
  lemma {:induction false} ExecuteGrabs(d: Demux, dir: string, log: seq<Event>, k: nat)
    requires Fresh(d) && Run(d, dir, log).Some? && k < |log| && log[k].Execute?
    ensures GrabbedAt(Run(d, dir, log).value.grabs, k) <==> Open(log[..k], log[k].id)
  {
    var n := |log| - 1;
    var before, ev := log[..n], log[n];
    RunInv(d, dir, before);
    var e := Run(d, dir, before).value;
    if k < n {
      ExecuteGrabs(d, dir, before, k);
      assert before[..k] == log[..k];
    } else {
      assert !GrabbedAt(e.grabs, n) by {
        forall i | 0 <= i < |e.grabs| ensures e.grabs[i].event < n {
          assert GrabOk(e, before, e.grabs[i]);
        }
      }
      assert Agrees(e, before, ev.id);
      OpenHasData(before, ev.id);
    }
    if ev.Execute? && NameOf(e.names, ev.id).Some? {
      GrabbedOn(e.grabs, Grab(n, NameOf(e.names, ev.id).value), k);
    }
  }

  datatype ExitStatus = OkContinue | ErrorStop

  /** The processor: its table of names, over a directory of files. */
  class LoadProcessor {
    const dir: string
    var names: seq<Option<string>>
    var files: map<string, Bytes>
    ghost var grabs: seq<Grab>
    ghost var events: nat

    constructor (dir: string, files: map<string, Bytes>)
      ensures this.dir == dir && this.files == files && events == 0 && Fresh(Value())
    {
      this.dir, this.files := dir, files;
      names, grabs, events := [], [], 0;
    }

    ghost function Value(): Demux
      reads this
    {
      Demux(names, files, grabs)
    }

    /** Creates a file under the first version of the name that is not taken. */
    method CreateUniqueFile(id: nat) returns (name: Option<string>)
      modifies this`files
      ensures name == FreshName(old(files), dir, id, 0)
      ensures files == if name.Some? then old(files)[name.value := []] else old(files)
    {
      for version := 0 to VERSIONS
        invariant FreshName(files, dir, id, version) == FreshName(files, dir, id, 0) && files == old(files)
      {
        var candidate := FileName(dir, id, version);
        if candidate !in files {
          files := files[candidate := []];
          return Some(candidate);
        }
      }
      return None;
    }

    method ProcessBegin(id: nat, block: Bytes) returns (status: ExitStatus)
      modifies this
      ensures events == old(events) + 1
      ensures (if status == OkContinue then Some(Value()) else None)
                == Process(old(Value()), dir, Begin(id, block), old(events))
    {
      events := events + 1;
      var name := CreateUniqueFile(id);
      if name.None? {
        return ErrorStop;
      }
      names := SetName(names, id, name);
      assert files[name.value] + block == block;
      files := files[name.value := files[name.value] + block];
      assert files == old(files)[name.value := block];
      return OkContinue;
    }

    method ProcessAppend(id: nat, block: Bytes) returns (status: ExitStatus)
      modifies this
      ensures events == old(events) + 1
      ensures (if status == OkContinue then Some(Value()) else None)
                == Process(old(Value()), dir, Append(id, block), old(events))
      ensures names == old(names)
      ensures match NameOf(old(names), id)
              case None => status == OkContinue && files == old(files)
              case Some(name) =>
                if name in old(files) then
                  status == OkContinue && files == old(files)[name := old(files)[name] + block]
                else
                  status == ErrorStop && files == old(files)
    {
      events := events + 1;
      var name := if id < |names| then names[id] else None;
      if name.Some? {
        if name.value !in files {
          return ErrorStop;
        }
        files := files[name.value := files[name.value] + block];
      }
      return OkContinue;
    }

    /** Hands out the name registered for a file, once. */
    method GrabName(id: nat) returns (name: Option<string>)
      modifies this
      ensures events == old(events) + 1 && name == NameOf(old(names), id)
      ensures Some(Value()) == Process(old(Value()), dir, Execute(id), old(events))
    {
      events := events + 1;
      if id >= |names| {
        return None;
      }
      name := names[id];
      names := names[id := None];
      if name.Some? {
        grabs := grabs + [Grab(events - 1, name.value)];
      } else {
        assert names == old(names);
      }
    }
  }
}
