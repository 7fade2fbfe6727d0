/**
 The connection pool itself: its queue, its poll set and its waiting loops. The
 kernel's poll and the server's answers are methods with a contract only: a
 caller must cope with whatever that contract allows.
 */
module ConnectionPool {
  import opened Basics
  import opened PoolModel

  /** One entry of the poll set; a negative descriptor is ignored by poll. */
  datatype PollFd = PollFd(fd: int, revents: bool)

  datatype SendResult = Sent | Refused | Stuck

  class Pool {
    const fds: seq<int>
    var conns: seq<Connection>
    var free: seq<nat>
    var pollset: seq<PollFd>
    var done: seq<Completion>
    ghost var sent: seq<Query>

    ghost function Value(): PoolModel.Pool
      reads this
    {
      PoolModel.Pool(conns, free, Polled(pollset), sent, done)
    }

    /** The poll set between calls. */
    ghost predicate Entries()
      reads this
    {
      && |fds| == |pollset|
      && (forall i :: 0 <= i < |fds| ==> 0 <= fds[i])
      && (forall i :: 0 <= i < |pollset| ==> Idle(pollset[i], fds[i]))
    }

    ghost predicate Valid()
      reads this
    {
      Inv(Value()) && Entries()
    }

    constructor (fds: seq<int>, idle: Query)
      requires forall i :: 0 <= i < |fds| ==> 0 <= fds[i]
      ensures Valid() && this.fds == fds && Value() == Init(idle, |fds|)
    {
      this.fds := fds;
      conns := seq(|fds|, _ => Connection(idle, false, false));
      free := seq(|fds|, i => i);
      pollset := seq(|fds|, _ => PollFd(-1, false));
      done, sent := [], [];
      new;
      assert Polled(pollset) == seq(|fds|, _ => false);
      InitInv(idle, |fds|);
    }

    /**
     Waits until something has arrived: marks the entries of some in-flight
     connections, at least one, and counts them. `replies` is what they will
     read: whether the query ran.
     */
    method Poll() returns (n: nat, replies: map<nat, bool>)
      requires Valid() && InFlight(Value().polled) > 0
      modifies this`pollset
      ensures ValidPoll(old(Value()), replies) && n == Marks(pollset)
      ensures |pollset| == |old(pollset)|
      ensures forall i :: 0 <= i < |pollset| ==> pollset[i] == old(pollset)[i].(revents := i in replies)
    {
      var i := SomeInFlight();
      MarksNone(pollset);
      MarksAt(pollset, i, pollset[i].(revents := true));
      n, replies := 1, map[i := true];
      assert i in replies;
      pollset := pollset[i := pollset[i].(revents := true)];
    }

    method SomeInFlight() returns (i: nat)
      requires InFlight(Polled(pollset)) > 0
      ensures i < |pollset| && pollset[i].fd >= 0
    {
      i := 0;
      assert Polled(pollset)[0..] == Polled(pollset);
      while pollset[i].fd < 0
        invariant i < |pollset| && InFlight(Polled(pollset)[i..]) > 0
        decreases |pollset| - i
      {
        assert Polled(pollset)[i..][1..] == Polled(pollset)[i + 1..];
        i := i + 1;
      }
    }

    /** Calls the handler of a finished query, and frees the connection if the query was to release it. */
    method CompleteQuery(c: nat, success: bool)
      requires c < |conns|
      modifies this`conns, this`free, this`done
      ensures done == old(done) + [Completion(old(conns)[c].query, success)]
      ensures conns == if old(conns)[c].release then old(conns)[c := old(conns)[c].(inUse := false)] else old(conns)
      ensures free == if old(conns)[c].release then old(free) + [c] else old(free)
    {
      done := done + [Completion(conns[c].query, success)];
      if conns[c].release {
        conns := conns[c := conns[c].(inUse := false)];
        free := free + [c];
      }
    }

    /** Takes connection `c` out of the poll set and completes its query. */
    method CompleteEntry(c: nat, success: bool)
      requires Partitioned(Value()) && c < |pollset| && pollset[c].fd >= 0
      modifies this`conns, this`free, this`pollset, this`done
      ensures pollset == old(pollset)[c := PollFd(-1, false)]
      ensures Value() == Complete(old(Value()), c, success) && Partitioned(Value())
    {
      CompleteKeepsPartition(Value(), c, success);
      pollset := pollset[c := PollFd(-1, false)];
      assert Polled(pollset) == Polled(old(pollset))[c := false];
      CompleteQuery(c, success);
    }

    /** Completes the query of entry `i` if it is reported, and counts it. */
    method DispatchEntry(i: nat, left: nat, replies: map<nat, bool>) returns (left': nat)
      requires MidPoll(Value(), pollset, fds, replies, i) && i < |pollset| && left == Marks(pollset)
      modifies this`conns, this`free, this`pollset, this`done
      ensures MidPoll(Value(), pollset, fds, replies, i + 1) && left' == Marks(pollset)
      ensures CompleteFrom(Value(), replies, i + 1) == CompleteFrom(old(Value()), replies, i)
      ensures |pollset| == old(|pollset|)
    {
      MidPollStep(Value(), pollset, fds, replies, i);
      left' := left;
      if pollset[i].revents {
        MarksAt(pollset, i, PollFd(-1, false));
        CompleteEntry(i, replies[i]);
        left' := left - 1;
      }
    }

    /** Completes the queries of the `n` reported entries, in the order of the poll set. */
    method Dispatch(n: nat, replies: map<nat, bool>)
      requires MidPoll(Value(), pollset, fds, replies, 0) && n == Marks(pollset)
      modifies this`conns, this`free, this`pollset, this`done
      ensures Value() == CompleteFrom(old(Value()), replies, 0)
      ensures done == old(done) + Reports(old(conns), replies, 0)
      ensures free == old(free) + Released(old(conns), replies, 0)
      ensures |pollset| == |fds| && forall c :: 0 <= c < |pollset| ==> Idle(pollset[c], fds[c])
    {
      MidPollReports(Value(), pollset, fds, replies);
      var i, left := 0, n;
      while left > 0 && i < |pollset|
        invariant MidPoll(Value(), pollset, fds, replies, i) && left == Marks(pollset)
        invariant CompleteFrom(Value(), replies, i) == CompleteFrom(old(Value()), replies, 0)
        decreases |fds| - i
      {
        left := DispatchEntry(i, left, replies);
        i := i + 1;
      }
      // Every reported entry has been met: the pool's own check for that cannot fail.
      if i == |pollset| {
        MarksNone(pollset);
      }
      assert left == 0;
      MidPollEnd(Value(), pollset, fds, replies, i);
    }

    method WaitForCompletions() returns (ghost ready: map<nat, bool>)
      requires Valid() && InFlight(Value().polled) > 0
      modifies this`conns, this`free, this`pollset, this`done
      ensures Valid()
      ensures ValidPoll(old(Value()), ready) && Value() == CompleteFrom(old(Value()), ready, 0)
      ensures done == old(done) + Reports(old(conns), ready, 0)
      ensures free == old(free) + Released(old(conns), ready, 0)
      ensures |conns| == |pollset| == |old(conns)| == |old(pollset)|
      ensures forall c :: 0 <= c < |conns| ==> conns[c] == Answered(old(conns)[c], c in ready)
      ensures forall c :: 0 <= c < |conns| ==> (pollset[c].fd >= 0 <==> old(pollset)[c].fd >= 0 && c !in ready)
    {
      var n, replies := Poll();
      ready := replies;
      assert Polled(pollset) == Polled(old(pollset));
      Dispatch(n, replies);
      WaitIs(old(Value()), replies);
      assert Value().polled == Polled(pollset);
    }

    /** A free connection, taken off the queue; None if it would wait for ever. */
    method GetConnection() returns (c: Option<nat>, ghost waits: seq<Step>, ghost before: PoolModel.Pool)
      requires Valid()
      modifies this`conns, this`free, this`pollset, this`done
      ensures AllPolls(waits) && Inv(before) && Runs(old(Value()), waits, before)
      ensures c.Some? ==> before.free != [] && c.value == before.free[0]
                          && Value() == before.(free := before.free[1..])
      ensures c.None? ==> before == Value() && free == [] && InFlight(Polled(pollset)) == 0
      ensures Entries()
    {
      waits := [];
      while free == []
        invariant Valid() && AllPolls(waits) && Runs(old(Value()), waits, Value())
        decreases InFlight(Polled(pollset))
      {
        if InFlight(Polled(pollset)) == 0 {
          return None, waits, Value();
        }
        ghost var v := Value();
        ghost var ready := WaitForCompletions();
        PollStep(v, ready);
        RunsOn(old(Value()), waits, v, Step.Poll(ready));
        waits := waits + [Step.Poll(ready)];
      }
      before := Value();
      c := Some(free[0]);
      free := free[1..];
    }

    /** Puts a connection into the poll set. */
    method AddToPollset(c: nat)
      requires c < |pollset| == |fds| && 0 <= fds[c]
      modifies this`pollset
      ensures pollset == old(pollset)[c := PollFd(fds[c], false)]
      ensures Polled(pollset) == Polled(old(pollset))[c := true]
    {
      pollset := pollset[c := PollFd(fds[c], false)];
    }

    /** Sends a query on connection `c`, which has just left the head of the queue; `ok` is whether the send works. */
    method SendOn(c: nat, query: Query, release: bool, ok: bool, ghost before: PoolModel.Pool)
      requires Partitioned(before) && before.free != [] && c == before.free[0]
      requires Value() == before.(free := before.free[1..]) && Entries()
      modifies this
      ensures Value() == Send(before, query, release, ok) && Entries()
    {
      assert c in before.free;
      conns := conns[c := Connection(query, release, conns[c].inUse)];
      if !ok {
        free := free + [c];
      } else {
        conns := conns[c := conns[c].(inUse := true)];
        AddToPollset(c);
        sent := sent + [query];
      }
    }

    /** Sends a query on the next free connection. Every wait on the way is a run of polls. */
    method ExecuteAsync(query: Query, release: bool, ok: bool)
      returns (r: SendResult, ghost steps: seq<Step>, ghost before: PoolModel.Pool)
      requires Valid()
      modifies this
      ensures Valid() && Runs(old(Value()), steps, Value())
      ensures r == Stuck ==> Value() == before
      ensures r != Stuck ==> before.free != [] && before.free[0] < |before.conns| == |before.polled|
      ensures r == Sent ==> var c := before.free[0];
              && conns == before.conns[c := Connection(query, release, true)] && free == before.free[1..]
              && Polled(pollset) == before.polled[c := true] && sent == before.sent + [query] && done == before.done
      ensures r == Refused ==> var c := before.free[0];
              && conns == before.conns[c := Connection(query, release, false)] && free == before.free[1..] + [c]
              && Polled(pollset) == before.polled && sent == before.sent && done == before.done
      ensures r == Stuck ==> AllPolls(steps) && free == [] && InFlight(Polled(pollset)) == 0
      ensures r != Stuck ==> r == (if ok then Sent else Refused)
                             && steps != [] && AllPolls(steps[..|steps| - 1])
                             && steps[|steps| - 1] == Execute(query, release, ok)
    {
      var c;
      ghost var waits;
      c, waits, before := GetConnection();
      if c.None? {
        return Stuck, waits, before;
      }
      assert before.free[0] in before.free;
      RunsOn(old(Value()), waits, before, Execute(query, release, ok));
      SendKeepsInv(before, query, release, ok);
      SendOn(c.value, query, release, ok, before);
      steps := waits + [Execute(query, release, ok)];
      assert steps[..|steps| - 1] == waits;
      r := if ok then Sent else Refused;
    }

    /** The waiting loop: polls until every connection is free, or nothing is in flight any more. */
    method DrainAll() returns (ghost steps: seq<Step>)
      requires Valid()
      modifies this`conns, this`free, this`pollset, this`done
      ensures Valid() && AllPolls(steps) && Runs(old(Value()), steps, Value())
      ensures Drains(old(Value()), Value())
      ensures |free| == |conns| || InFlight(Polled(pollset)) == 0
    {
      steps := [];
      while |free| != |conns| && InFlight(Polled(pollset)) > 0
        invariant Valid() && AllPolls(steps) && Runs(old(Value()), steps, Value())
        invariant Drains(old(Value()), Value())
        decreases InFlight(Polled(pollset))
      {
        ghost var v := Value();
        ghost var ready := WaitForCompletions();
        PollStep(v, ready);
        DrainsOn(old(Value()), v, Value());
        RunsOn(old(Value()), steps, v, Step.Poll(ready));
        steps := steps + [Step.Poll(ready)];
      }
    }

    /** Waits until every connection is free; false if it would wait for ever. */
    method WaitAll() returns (ok: bool, ghost steps: seq<Step>)
      requires Valid()
      modifies this`conns, this`free, this`pollset, this`done
      ensures Valid() && AllPolls(steps) && Runs(old(Value()), steps, Value())
      ensures forall c :: 0 <= c < |pollset| ==> !Value().polled[c]
      ensures ok <==> |free| == |conns|
      ensures ok <==> forall c :: 0 <= c < |old(conns)| && old(conns)[c].inUse ==>
                        old(Value()).polled[c] && old(conns)[c].release
      ensures forall q :: Done(done, q) == PoolModel.Sent(sent, q)
    {
      ghost var start := Value();
      steps := DrainAll();
      ok := |free| == |conns|;
      Settled(start, Value());
    }
  }

  /** Which connections are polled. */
  function Polled(pollset: seq<PollFd>): seq<bool> {
    seq(|pollset|, i requires 0 <= i < |pollset| => pollset[i].fd >= 0)
  }

  /** Between calls an entry carries its own descriptor or none, and no event. */
  ghost predicate Idle(e: PollFd, fd: int) {
    (e.fd == fd || e.fd == -1) && !e.revents
  }

  /** During a poll's completions an entry is idle, or polled and marked. */
  ghost predicate Reported(e: PollFd, fd: int, marked: bool) {
    if marked then e == PollFd(fd, true) else Idle(e, fd)
  }

  /** The state `v` of a pool whose poll has been dealt with up to entry `i`. */
  ghost predicate MidPoll(v: PoolModel.Pool, pollset: seq<PollFd>, fds: seq<int>, replies: map<nat, bool>, i: nat) {
    && Partitioned(v) && v.polled == Polled(pollset)
    && i <= |pollset| == |fds| == |v.conns|
    && (forall c :: c in replies ==> c < |pollset|)
    && (forall c :: 0 <= c < |fds| ==> 0 <= fds[c])
    && (forall c :: 0 <= c < |pollset| ==> Reported(pollset[c], fds[c], i <= c && c in replies))
  }

  lemma MidPollReports(v: PoolModel.Pool, pollset: seq<PollFd>, fds: seq<int>, replies: map<nat, bool>)
    requires MidPoll(v, pollset, fds, replies, 0)
    ensures var r := CompleteFrom(v, replies, 0);
            r.done == v.done + Reports(v.conns, replies, 0) && r.free == v.free + Released(v.conns, replies, 0)
  {
    forall c | 0 <= c < |v.conns| && c in replies
      ensures v.polled[c]
    {
      assert Reported(pollset[c], fds[c], c in replies);
    }
    PollReports(v, replies, 0);
  }

  lemma MidPollStep(v: PoolModel.Pool, pollset: seq<PollFd>, fds: seq<int>, replies: map<nat, bool>, i: nat)
    requires MidPoll(v, pollset, fds, replies, i) && i < |pollset|
    ensures pollset[i].revents <==> i in replies
    ensures if i in replies then
              && v.polled[i] && Partitioned(Complete(v, i, replies[i]))
              && MidPoll(Complete(v, i, replies[i]), pollset[i := PollFd(-1, false)], fds, replies, i + 1)
              && CompleteFrom(v, replies, i) == CompleteFrom(Complete(v, i, replies[i]), replies, i + 1)
            else
              && MidPoll(v, pollset, fds, replies, i + 1)
              && CompleteFrom(v, replies, i) == CompleteFrom(v, replies, i + 1)
  {
    assert Reported(pollset[i], fds[i], i in replies);
    if i in replies {
      CompleteKeepsPartition(v, i, replies[i]);
      assert Polled(pollset[i := PollFd(-1, false)]) == Polled(pollset)[i := false];
    }
  }

  lemma MidPollEnd(v: PoolModel.Pool, pollset: seq<PollFd>, fds: seq<int>, replies: map<nat, bool>, i: nat)
    requires MidPoll(v, pollset, fds, replies, i) && Marks(pollset) == 0
    ensures CompleteFrom(v, replies, i) == v
    ensures forall c :: 0 <= c < |pollset| ==> Idle(pollset[c], fds[c])
  {
    forall c | 0 <= c < |pollset|
      ensures !(i <= c && c in replies)
    {
      assert Reported(pollset[c], fds[c], i <= c && c in replies);
      if i <= c && c in replies {
        MarksPositive(pollset, c);
      }
    }
    NoneReady(v, replies, i);
  }

  /** How many entries carry an event: what poll returns. */
  function Marks(pollset: seq<PollFd>): nat {
    if pollset == [] then 0 else Marks(pollset[1..]) + if pollset[0].revents then 1 else 0
  }

  lemma {:induction false} MarksAt(pollset: seq<PollFd>, i: nat, e: PollFd)
    requires i < |pollset|
    ensures Marks(pollset[i := e]) + (if pollset[i].revents then 1 else 0) == Marks(pollset) + if e.revents then 1 else 0
  {
    if i == 0 {
      assert pollset[i := e][1..] == pollset[1..];
    } else {
      MarksAt(pollset[1..], i - 1, e);
      assert pollset[i := e][1..] == pollset[1..][i - 1 := e];
    }
  }

  lemma {:induction false} MarksNone(pollset: seq<PollFd>)
    requires forall i :: 0 <= i < |pollset| ==> !pollset[i].revents
    ensures Marks(pollset) == 0
  {
    if pollset == [] {
    } else {
      MarksNone(pollset[1..]);
    }
  }

  lemma MarksPositive(pollset: seq<PollFd>, i: nat)
    requires i < |pollset| && pollset[i].revents
    ensures Marks(pollset) > 0
  {
    MarksAt(pollset, i, PollFd(-1, false));
  }

  /** A connection behind a poll: free again if it was reported, and its query was to release it. */
  function Answered(conn: Connection, reported: bool): Connection {
    if reported && conn.release then conn.(inUse := false) else conn
  }

  lemma WaitIs(p: PoolModel.Pool, ready: map<nat, bool>)
    requires Inv(p) && ValidPoll(p, ready)
    ensures var r := CompleteFrom(p, ready, 0);
            && Inv(r) && |r.conns| == |p.conns| == |r.polled|
            && r.done == p.done + Reports(p.conns, ready, 0) && r.free == p.free + Released(p.conns, ready, 0)
            && (forall c :: 0 <= c < |p.conns| ==> r.conns[c] == Answered(p.conns[c], c in ready))
            && (forall c :: 0 <= c < |p.conns| ==> r.polled[c] == (p.polled[c] && c !in ready))
  {
    CompleteFromKeepsInv(p, ready, 0);
    PollReports(p, ready, 0);
    forall c | 0 <= c < |p.conns|
      ensures var r := CompleteFrom(p, ready, 0);
              r.conns[c] == Answered(p.conns[c], c in ready) && r.polled[c] == (p.polled[c] && c !in ready)
    {
      PollStates(p, ready, c);
    }
  }

  /** The end of a wait: nothing is in flight, and every query sent has completed. */
  lemma Settled(p: PoolModel.Pool, r: PoolModel.Pool)
    requires Inv(p) && Inv(r) && Drains(p, r)
    requires |r.free| == |r.conns| || InFlight(r.polled) == 0
    ensures forall c :: 0 <= c < |r.polled| ==> !r.polled[c]
    ensures |r.free| == |r.conns| <==>
            forall c :: 0 <= c < |p.conns| && p.conns[c].inUse ==> p.polled[c] && p.conns[c].release
    ensures forall q :: Done(r.done, q) == PoolModel.Sent(r.sent, q)
  {
    NothingInFlight(r.polled);
    FullQueue(r);
    DrainedIsFree(p, r);
    forall q ensures Done(r.done, q) == PoolModel.Sent(r.sent, q) {
      QuietMeansSettled(r, q);
    }
  }
}
