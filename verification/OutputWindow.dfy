/**
 Which events of the binary logs reach the printer.

 The logs are read one after another as one stream. Printing starts at the first
 event behind --offset and --start-datetime, and from then on goes through
 whatever the timestamps do, until the first event at a stop limit. Events of
 excluded transactions (groups) and of excluded servers are left out, and format
 events are always read.
 */
module OutputWindow {
  import opened Basics

  /** What the GTID filter says at the start of a group. */
  datatype Verdict = Include | Exclude | Finished

  datatype Kind = Format | Rotate | Unknown | Gtid(verdict: Verdict) | Plain

  datatype Event = Event(kind: Kind, when: nat, pos: nat, serverExcluded: bool)

  /** An event with its place: whether it is the first of its log, and the stop position that log has. */
  datatype Item = Item(ev: Event, first: bool, stopPosition: Option<nat>)

  datatype Options = Options(
    offset: nat,
    startTime: nat,
    stopTime: Option<nat>,
    stopPosition: Option<nat>,
    filtering: bool)

  /** The program's variables, and the numbers of the events printed so far. */
  datatype Window = Window(
    recCount: nat,
    offset: nat,
    startTime: nat,
    active: bool,
    printed: seq<nat>)

  datatype Exit = OkContinue | OkStop

  datatype Outcome = Outcome(w: Window, exit: Exit)

  function Count(w: Window): Window {
    w.(recCount := w.recCount + 1)
  }

  predicate AtStop(o: Options, item: Item) {
    || (o.stopTime.Some? && item.ev.when >= o.stopTime.value)
    || (item.stopPosition.Some? && item.ev.pos >= item.stopPosition.value)
  }

  predicate HasServerId(ev: Event) {
    ev.kind != Rotate && ev.kind != Unknown
  }

  function GroupFlag(active: bool, ev: Event): bool {
    if ev.kind == Gtid(Include) then true
    else if ev.kind == Gtid(Exclude) then false
    else active
  }

  /** Event number `k`, in a log whose group flag is up to date in `w`. */
  function Step(o: Options, w: Window, item: Item, k: nat): Outcome {
    var ev := item.ev;
    if ev.kind == Gtid(Finished) then
      Outcome(Count(w), OkStop)
    else
      var w1 := w.(active := GroupFlag(w.active, ev));
      if o.filtering && !w1.active then
        Outcome(w1, OkContinue)
      else if !(w1.recCount >= w1.offset && ev.when >= w1.startTime) && ev.kind != Format then
        Outcome(Count(w1), OkContinue)
      else
        var w2 := if ev.kind == Format then w1 else w1.(startTime := 0, offset := 0);
        if ev.kind != Format && HasServerId(ev) && ev.serverExcluded then
          Outcome(Count(w2), OkContinue)
        else if AtStop(o, item) then
          Outcome(Count(w2), OkStop)
        else
          Outcome(Count(w2.(printed := w2.printed + [k])), OkContinue)
  }

  function Run(o: Options, stream: seq<Item>, n: nat): Outcome
    requires n <= |stream|
  {
    if n == 0 then Outcome(Window(0, o.offset, o.startTime, true, []), OkContinue)
    else
      var before := Run(o, stream, n - 1);
      if before.exit == OkStop then before
      else
        var w := if stream[n - 1].first then before.w.(active := true) else before.w;
        Step(o, w, stream[n - 1], n - 1)
  }

  // The same, told of the stream alone.

  /** The GTID filter lets a group through, or not. */
  predicate Decides(ev: Event) {
    ev.kind == Gtid(Include) || ev.kind == Gtid(Exclude)
  }

  /** Event `j` is the last one, up to event `k` and in its log, at which the filter has decided. */
  predicate LastDecision(stream: seq<Item>, j: nat, k: nat)
    requires j <= k < |stream|
  {
    Decides(stream[j].ev) && forall i :: j < i <= k ==> !stream[i].first && !Decides(stream[i].ev)
  }

  /** The last decision was to let the group through, or there is none so far. */
  predicate Shown(stream: seq<Item>, k: nat)
    requires k < |stream|
  {
    forall j :: 0 <= j <= k && LastDecision(stream, j, k) ==> stream[j].ev.kind == Gtid(Include)
  }

  predicate Active(o: Options, stream: seq<Item>, k: nat)
    requires k < |stream|
  {
    !o.filtering || Shown(stream, k)
  }

  /** How many of the first n events count. */
  function Counted(o: Options, stream: seq<Item>, n: nat): nat
    requires n <= |stream|
  {
    if n == 0 then 0 else Counted(o, stream, n - 1) + if Active(o, stream, n - 1) then 1 else 0
  }

  /** An event that can open the window: behind the offset and the start time, by its own merits. */
  predicate Qualifies(o: Options, stream: seq<Item>, k: nat)
    requires k < |stream|
  {
    && Active(o, stream, k) && stream[k].ev.kind != Format
    && Counted(o, stream, k) >= o.offset && stream[k].ev.when >= o.startTime
  }

  predicate Opened(o: Options, stream: seq<Item>, k: nat)
    requires k < |stream|
  {
    exists j :: 0 <= j <= k && Qualifies(o, stream, j)
  }

  /** Rotate events and unknown ones are not left out for their server. */
  predicate FromExcludedServer(ev: Event) {
    ev.serverExcluded && !ev.kind.Rotate? && !ev.kind.Unknown?
  }

  /** An event that is in the window and not left out. */
  predicate Eligible(o: Options, stream: seq<Item>, k: nat)
    requires k < |stream|
  {
    var ev := stream[k].ev;
    && ev.kind != Gtid(Finished) && Active(o, stream, k)
    && (ev.kind == Format || (Opened(o, stream, k) && !FromExcludedServer(ev)))
  }

  predicate Stops(o: Options, stream: seq<Item>, k: nat)
    requires k < |stream|
  {
    || stream[k].ev.kind == Gtid(Finished)
    || (&& Eligible(o, stream, k)
        && (|| (o.stopTime.Some? && stream[k].ev.when >= o.stopTime.value)
            || (stream[k].stopPosition.Some? && stream[k].ev.pos >= stream[k].stopPosition.value)))
  }

  /** The eligible events among the first n, in order. */
  function EligibleUpTo(o: Options, stream: seq<Item>, n: nat): (r: seq<nat>)
    requires n <= |stream|
    ensures forall i :: 0 <= i < |r| ==> r[i] < n && Eligible(o, stream, r[i])
    ensures forall k :: 0 <= k < n && Eligible(o, stream, k) ==> k in r
    ensures forall i, j :: 0 <= i < j < |r| ==> r[i] < r[j]
  {
    if n == 0 then []
    else EligibleUpTo(o, stream, n - 1) + if Eligible(o, stream, n - 1) then [n - 1] else []
  }

  /** The group flag behind event `k`. */
  function Flag(stream: seq<Item>, k: nat): bool
    requires k < |stream|
  {
    GroupFlag(stream[k].first || k == 0 || Flag(stream, k - 1), stream[k].ev)
  }

  /** It is up exactly if the last decision says so. */
  lemma {:induction false} FlagIsShown(stream: seq<Item>, k: nat)
    requires k < |stream|
    ensures Flag(stream, k) <==> Shown(stream, k)
  {
    if Decides(stream[k].ev) {
      assert LastDecision(stream, k, k);
    } else if k == 0 || stream[k].first {
    } else {
      FlagIsShown(stream, k - 1);
      SameDecision(stream, k);
    }
  }

  lemma SameDecision(stream: seq<Item>, k: nat)
    requires 0 < k < |stream| && !stream[k].first && !Decides(stream[k].ev)
    ensures Shown(stream, k) <==> Shown(stream, k - 1)
  {
    forall j | 0 <= j < k ensures LastDecision(stream, j, k) <==> LastDecision(stream, j, k - 1) {
    }
  }

  /** The program's variables follow the stream. */
  ghost predicate Follows(o: Options, stream: seq<Item>, n: nat, w: Window)
    requires n <= |stream|
  {
    && w.active == (n == 0 || Flag(stream, n - 1))
    && w.recCount == Counted(o, stream, n)
    && (if n > 0 && Opened(o, stream, n - 1) then w.offset == 0 && w.startTime == 0
        else w.offset == o.offset && w.startTime == o.startTime)
    && w.printed == EligibleUpTo(o, stream, n)
  }

  lemma OpenedOn(o: Options, stream: seq<Item>, k: nat)
    requires k < |stream|
    ensures Opened(o, stream, k) <==> (k > 0 && Opened(o, stream, k - 1)) || Qualifies(o, stream, k)
  {
    if Opened(o, stream, k) {
      var j :| 0 <= j <= k && Qualifies(o, stream, j);
      if j < k {
        assert 0 <= j <= k - 1 && Qualifies(o, stream, j);
      }
    }
  }

  lemma StepFollows(o: Options, stream: seq<Item>, k: nat, w: Window)
    requires k < |stream| && Follows(o, stream, k, w)
    ensures var r := Step(o, if stream[k].first then w.(active := true) else w, stream[k], k);
            && (r.exit == OkStop <==> Stops(o, stream, k))
            && (r.exit == OkStop ==> r.w.printed == EligibleUpTo(o, stream, k))
            && (r.exit == OkContinue ==> Follows(o, stream, k + 1, r.w))
  {
    OpenedOn(o, stream, k);
    FlagIsShown(stream, k);
  }

  predicate NoStop(o: Options, stream: seq<Item>, n: nat)
    requires n <= |stream|
  {
    n == 0 || (NoStop(o, stream, n - 1) && !Stops(o, stream, n - 1))
  }

  lemma {:induction false} NoStopAt(o: Options, stream: seq<Item>, n: nat)
    requires n <= |stream|
    ensures NoStop(o, stream, n) <==> forall k :: 0 <= k < n ==> !Stops(o, stream, k)
  {
    if n == 0 {
    } else {
      NoStopAt(o, stream, n - 1);
    }
  }

  /** The window was closed by event `b`, and the eligible events before it are what was printed. */
  predicate ClosedAt(o: Options, stream: seq<Item>, b: nat, printed: seq<nat>)
    requires b < |stream|
  {
    Stops(o, stream, b) && NoStop(o, stream, b) && printed == EligibleUpTo(o, stream, b)
  }

  /**
   Over the whole stream: nothing behind the first stop is printed, and before it
   exactly the eligible events are, in order.
   */
  lemma {:induction false} RunFollows(o: Options, stream: seq<Item>, n: nat)
    requires n <= |stream|
    ensures var r := Run(o, stream, n);
            if r.exit == OkContinue then Follows(o, stream, n, r.w) && NoStop(o, stream, n)
            else exists b: nat :: b < n && ClosedAt(o, stream, b, r.w.printed)
  {
    if n == 0 {
    } else {
      RunFollows(o, stream, n - 1);
      var before := Run(o, stream, n - 1);
      if before.exit == OkContinue {
        StepFollows(o, stream, n - 1, before.w);
        if Run(o, stream, n).exit == OkStop {
          assert ClosedAt(o, stream, n - 1, Run(o, stream, n).w.printed);
        }
      } else {
        var b: nat :| b < n - 1 && ClosedAt(o, stream, b, before.w.printed);
        assert ClosedAt(o, stream, b, Run(o, stream, n).w.printed);
      }
    }
  }

  /** The window is one block: behind the event that opens it, events are only left out for their group or server. */
  lemma WindowIsContiguous(o: Options, stream: seq<Item>, a: nat, k: nat)
    requires a < |stream| && Qualifies(o, stream, a) && forall j :: 0 <= j < a ==> !Qualifies(o, stream, j)
    requires k < |stream| && stream[k].ev.kind != Format && stream[k].ev.kind != Gtid(Finished)
    ensures Eligible(o, stream, k) <==>
            a <= k && Active(o, stream, k) && !FromExcludedServer(stream[k].ev)
  {
    if a <= k {
      assert 0 <= a <= k && Qualifies(o, stream, a);
    }
  }

  /** The first event that opens the window, from `j` on; the length of the stream if there is none. */
  function FirstOpen(o: Options, stream: seq<Item>, j: nat): (r: nat)
    requires j <= |stream|
    ensures j <= r <= |stream| && (r < |stream| ==> Qualifies(o, stream, r))
    ensures forall k :: j <= k < r ==> !Qualifies(o, stream, k)
    decreases |stream| - j
  {
    if j == |stream| || Qualifies(o, stream, j) then j else FirstOpen(o, stream, j + 1)
  }

  function FirstStop(o: Options, stream: seq<Item>, j: nat): (r: nat)
    requires j <= |stream|
    ensures j <= r <= |stream| && (r < |stream| ==> Stops(o, stream, r))
    ensures forall k :: j <= k < r ==> !Stops(o, stream, k)
    decreases |stream| - j
  {
    if j == |stream| || Stops(o, stream, j) then j else FirstStop(o, stream, j + 1)
  }

  lemma PrintedIffEligible(o: Options, stream: seq<Item>, k: nat)
    requires k < |stream|
    ensures k in Run(o, stream, |stream|).w.printed <==> k < FirstStop(o, stream, 0) && Eligible(o, stream, k)
  {
    var n := |stream|;
    var r := Run(o, stream, n);
    RunFollows(o, stream, n);
    if r.exit == OkContinue {
      NoStopAt(o, stream, n);
    } else {
      var b: nat :| b < n && ClosedAt(o, stream, b, r.w.printed);
      NoStopAt(o, stream, b);
      assert FirstStop(o, stream, 0) == b;
    }
  }

  /**
   What a whole stream prints, its format events apart: one block, from the first
   event that meets offset and start time to the first stop, without the events
   of groups that the filter excludes and of excluded servers.
   */
  lemma PrintedIsOneBlock(o: Options, stream: seq<Item>, k: nat)
    requires k < |stream| && stream[k].ev.kind != Format
    ensures k in Run(o, stream, |stream|).w.printed <==>
            && FirstOpen(o, stream, 0) <= k < FirstStop(o, stream, 0)
            && (o.filtering ==> Shown(stream, k)) && !FromExcludedServer(stream[k].ev)
  {
    PrintedIffEligible(o, stream, k);
    var a := FirstOpen(o, stream, 0);
    if stream[k].ev.kind == Gtid(Finished) {
      assert Stops(o, stream, k);
    } else if a <= k {
      WindowIsContiguous(o, stream, a, k);
    } else {
      assert !Opened(o, stream, k);
    }
  }

  /** Format events are printed wherever the window is, up to the first stop. */
  lemma FormatsArePrinted(o: Options, stream: seq<Item>, k: nat)
    requires k < |stream| && stream[k].ev.kind == Format
    ensures k in Run(o, stream, |stream|).w.printed <==>
            k < FirstStop(o, stream, 0) && (o.filtering ==> Shown(stream, k))
  {
    PrintedIffEligible(o, stream, k);
  }

  /** The events of one log; only the last log has a stop position. */
  function Items(log: seq<Event>, stopPosition: Option<nat>): seq<Item> {
    seq(|log|, j requires 0 <= j < |log| => Item(log[j], j == 0, stopPosition))
  }

  lemma ItemsOn(log: seq<Event>, stopPosition: Option<nat>, i: nat)
    requires i < |log|
    ensures Items(log, stopPosition)[..i + 1] == Items(log, stopPosition)[..i] + [Item(log[i], i == 0, stopPosition)]
  {
  }

  function Stream(o: Options, logs: seq<seq<Event>>, i: nat): seq<Item>
    requires i <= |logs|
  {
    if i == 0 then []
    else Stream(o, logs, i - 1) + Items(logs[i - 1], if i == |logs| then o.stopPosition else None)
  }

  /** How many events the first `i` logs have. */
  function Before(logs: seq<seq<Event>>, i: nat): nat
    requires i <= |logs|
  {
    if i == 0 then 0 else Before(logs, i - 1) + |logs[i - 1]|
  }

  /** The stream is the logs one after another; a log's first event is marked, and only the last log has a stop position. */
  lemma {:induction false} StreamAt(o: Options, logs: seq<seq<Event>>, n: nat, i: nat, j: nat)
    requires i < n <= |logs| && j < |logs[i]|
    ensures |Stream(o, logs, n)| == Before(logs, n) && Before(logs, i) + j < Before(logs, n)
    ensures Stream(o, logs, n)[Before(logs, i) + j]
              == Item(logs[i][j], j == 0, if i == |logs| - 1 then o.stopPosition else None)
  {
    StreamSize(o, logs, n - 1);
    if i < n - 1 {
      StreamAt(o, logs, n - 1, i, j);
    }
  }

  lemma {:induction false} StreamSize(o: Options, logs: seq<seq<Event>>, n: nat)
    requires n <= |logs|
    ensures |Stream(o, logs, n)| == Before(logs, n)
  {
    if n == 0 {
    } else {
      StreamSize(o, logs, n - 1);
    }
  }

  lemma {:induction false} RunPrefix(o: Options, s: seq<Item>, t: seq<Item>, n: nat)
    requires n <= |s|
    ensures Run(o, s + t, n) == Run(o, s, n)
  {
    if n == 0 {
    } else {
      RunPrefix(o, s, t, n - 1);
      assert (s + t)[n - 1] == s[n - 1];
    }
  }

  /** Once stopped, the rest of the stream changes nothing. */
  lemma {:induction false} RunStopped(o: Options, stream: seq<Item>, m: nat, n: nat)
    requires m <= n <= |stream| && Run(o, stream, m).exit == OkStop
    ensures Run(o, stream, n) == Run(o, stream, m)
  {
    if m == n {
    } else {
      RunStopped(o, stream, m, n - 1);
    }
  }

  /** The program: its global variables, and its loops over events and logs. */
  class BinlogReader {
    const o: Options
    var recCount: nat
    var offset: nat
    var startTime: nat
    ghost var printed: seq<nat>
    ghost var read: seq<Item>

    constructor (o: Options)
      ensures this.o == o && read == [] && Value(true) == Run(o, [], 0).w
    {
      this.o := o;
      recCount, offset, startTime, printed, read := 0, o.offset, o.startTime, [], [];
    }

    /** The group flag is not global: it belongs to the log being read. */
    ghost function Value(active: bool): Window
      reads this
    {
      Window(recCount, offset, startTime, active, printed)
    }

    method ProcessEvent(item: Item, active: bool) returns (exit: Exit, active': bool)
      modifies this
      ensures read == old(read) + [item]
      ensures Outcome(Value(active'), exit) == Step(o, old(Value(active)), item, old(|read|))
      ensures active' == (item.ev.kind == Gtid(Include) || (active && item.ev.kind != Gtid(Exclude)))
      ensures o.filtering && !active' ==> printed == old(printed)
      ensures exit == OkStop ==> printed == old(printed)
    {
      var ev := item.ev;
      read := read + [item];
      active' := active;
      if ev.kind == Gtid(Finished) {
        recCount := recCount + 1;
        return OkStop, active';
      }
      if ev.kind == Gtid(Include) {
        active' := true;
      } else if ev.kind == Gtid(Exclude) {
        active' := false;
      }
      if o.filtering && !active' {
        return OkContinue, active';
      }
      if (recCount >= offset && ev.when >= startTime) || ev.kind == Format {
        if ev.kind != Format {
          startTime, offset := 0, 0;
          if HasServerId(ev) && ev.serverExcluded {
            recCount := recCount + 1;
            return OkContinue, active';
          }
        }
        if AtStop(o, item) {
          recCount := recCount + 1;
          return OkStop, active';
        }
        printed := printed + [|read| - 1];
      }
      recCount := recCount + 1;
      return OkContinue, active';
    }

    /** The next event of the stream. */
    method ReadEvent(item: Item, active: bool, ghost before: bool) returns (exit: Exit, after: bool)
      requires Outcome(Value(before), OkContinue) == Run(o, read, |read|)
      requires active == (item.first || before)
      modifies this
      ensures read == old(read) + [item]
      ensures Outcome(Value(after), exit) == Run(o, read, |read|)
    {
      RunPrefix(o, read, [item], |read|);
      exit, after := ProcessEvent(item, active);
    }

    /** Reads one log to its end, or to a stop; a log starts with its group flag up. */
    method DumpLog(log: seq<Event>, stopPosition: Option<nat>, ghost before: bool)
      returns (exit: Exit, ghost after: bool)
      requires Outcome(Value(before), OkContinue) == Run(o, read, |read|)
      modifies this
      ensures read <= old(read) + Items(log, stopPosition)
      ensures Outcome(Value(after), exit) == Run(o, read, |read|)
      ensures exit == OkContinue ==> read == old(read) + Items(log, stopPosition)
    {
      ghost var items, start := Items(log, stopPosition), read;
      var active := true;
      exit, after := OkContinue, before;
      for i := 0 to |log|
        invariant exit == OkContinue && read == start + items[..i]
        invariant Outcome(Value(after), OkContinue) == Run(o, read, |read|)
        invariant active == (i == 0 || after)
      {
        ItemsOn(log, stopPosition, i);
        Assoc(start, items[..i], [Item(log[i], i == 0, stopPosition)]);
        exit, active := ReadEvent(Item(log[i], i == 0, stopPosition), active, after);
        after := active;
        if exit == OkStop {
          return;
        }
      }
      assert items[..|log|] == items;
    }

    /** Reads the logs one after another until one of them stops; --stop-position is for the last one. */
    method DumpLogs(logs: seq<seq<Event>>) returns (exit: Exit, ghost after: bool)
      requires read == [] && Value(true) == Run(o, [], 0).w
      modifies this
      ensures var all := Stream(o, logs, |logs|);
              Outcome(Value(after), exit) == Run(o, all, |all|)
    {
      exit, after := OkContinue, true;
      for i := 0 to |logs|
        invariant exit == OkContinue && read == Stream(o, logs, i)
        invariant Outcome(Value(after), OkContinue) == Run(o, read, |read|)
      {
        var stopPosition := if i == |logs| - 1 then o.stopPosition else None;
        exit, after := DumpLog(logs[i], stopPosition, after);
        if exit != OkContinue {
          StreamGrows(o, logs, i + 1, |logs|);
          ghost var all := Stream(o, logs, |logs|);
          assert all == read + all[|read|..];
          RunPrefix(o, read, all[|read|..], |read|);
          RunStopped(o, all, |read|, |all|);
          return;
        }
      }
    }
  }

  /** The first logs' events are the beginning of all of them. */
  lemma {:induction false} StreamGrows(o: Options, logs: seq<seq<Event>>, i: nat, n: nat)
    requires i <= n <= |logs|
    ensures Stream(o, logs, i) <= Stream(o, logs, n)
  {
    if i == n {
    } else {
      StreamGrows(o, logs, i, n - 1);
    }
  }
}
