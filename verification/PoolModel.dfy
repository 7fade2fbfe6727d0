/**
 The asynchronous connection pool as a state machine.

 A connection is free (in the queue), in flight (its query was sent and its
 descriptor is polled), or held (its query completed, but was not to release the
 connection). Steps are queries sent or failing to be sent, and polls that
 report some non-empty set of in-flight connections.
 */
module PoolModel {
  import opened Basics

  /** A query with the handler to call on completion (None: no handler) and its context. */
  datatype Query = Query(text: string, handler: Option<nat>, context: nat)

  datatype Connection = Connection(query: Query, release: bool, inUse: bool)

  /** A finished query, and whether the server ran it; its handler, if any, has been called with it. */
  datatype Completion = Completion(query: Query, success: bool)

  datatype Pool = Pool(
    conns: seq<Connection>,
    free: seq<nat>,
    polled: seq<bool>,
    sent: seq<Query>,
    done: seq<Completion>)

  /** How often a query was sent. */
  function Sent(sent: seq<Query>, q: Query): nat {
    if sent == [] then 0
    else Sent(sent[..|sent| - 1], q) + if sent[|sent| - 1] == q then 1 else 0
  }

  /** How often it has completed. */
  function Done(done: seq<Completion>, q: Query): nat {
    if done == [] then 0
    else Done(done[..|done| - 1], q) + if done[|done| - 1].query == q then 1 else 0
  }

  /** On how many connections it is in flight. */
  function Flying(conns: seq<Connection>, polled: seq<bool>, q: Query): nat
    requires |conns| == |polled|
  {
    if conns == [] then 0
    else Flying(conns[1..], polled[1..], q) + if polled[0] && conns[0].query == q then 1 else 0
  }

  predicate Distinct(s: seq<nat>) {
    forall i, j :: 0 <= i < j < |s| ==> s[i] != s[j]
  }

  /** Every connection is free, in flight or held, and only one of them. */
  ghost predicate Partitioned(p: Pool) {
    && |p.conns| == |p.polled|
    && Distinct(p.free)
    && (forall i :: 0 <= i < |p.free| ==> p.free[i] < |p.conns|)
    && (forall c :: 0 <= c < |p.conns| ==> (c in p.free <==> !p.conns[c].inUse))
    && (forall c :: 0 <= c < |p.conns| && p.polled[c] ==> p.conns[c].inUse)
  }

  /** Every query has completed, or is in flight, as often as it was sent. */
  ghost predicate Balanced(p: Pool)
    requires |p.conns| == |p.polled|
  {
    forall q :: Sent(p.sent, q) == Done(p.done, q) + Flying(p.conns, p.polled, q)
  }

  ghost predicate Inv(p: Pool) {
    Partitioned(p) && Balanced(p)
  }

  function Init(idle: Query, n: nat): Pool {
    Pool(seq(n, _ => Connection(idle, false, false)), seq(n, i => i), seq(n, _ => false), [], [])
  }

  /** Sends a query on the connection at the head of the queue. */
  function Send(p: Pool, q: Query, release: bool, ok: bool): Pool
    requires Partitioned(p) && p.free != []
  {
    var c := p.free[0];
    if ok then
      p.(conns := p.conns[c := Connection(q, release, true)],
         free := p.free[1..],
         polled := p.polled[c := true],
         sent := p.sent + [q])
    else
      p.(conns := p.conns[c := Connection(q, release, p.conns[c].inUse)], free := p.free[1..] + [c])
  }

  /** The completion of one in-flight query. */
  function Complete(p: Pool, c: nat, success: bool): Pool
    requires Partitioned(p) && c < |p.conns|
  {
    var q := p.(polled := p.polled[c := false], done := p.done + [Completion(p.conns[c].query, success)]);
    if p.conns[c].release then
      q.(conns := p.conns[c := p.conns[c].(inUse := false)], free := p.free + [c])
    else
      q
  }

  /** A poll reports some connections in flight, each with the outcome of its query. */
  ghost predicate ValidPoll(p: Pool, ready: map<nat, bool>) {
    |p.conns| == |p.polled| && ready != map[] && forall c :: c in ready ==> c < |p.conns| && p.polled[c]
  }

  lemma {:induction false} FlyingAt(conns: seq<Connection>, polled: seq<bool>, c: nat, conn: Connection, on: bool, q: Query)
    requires |conns| == |polled| && c < |conns|
    ensures Flying(conns[c := conn], polled[c := on], q) + (if polled[c] && conns[c].query == q then 1 else 0)
              == Flying(conns, polled, q) + (if on && conn.query == q then 1 else 0)
  {
    var conns', polled' := conns[c := conn], polled[c := on];
    if c == 0 {
      assert conns'[1..] == conns[1..] && polled'[1..] == polled[1..];
    } else {
      FlyingAt(conns[1..], polled[1..], c - 1, conn, on, q);
      assert conns'[1..] == conns[1..][c - 1 := conn];
      assert polled'[1..] == polled[1..][c - 1 := on];
    }
  }

  lemma SendKeepsPartition(p: Pool, q: Query, release: bool, ok: bool)
    requires Partitioned(p) && p.free != []
    ensures Partitioned(Send(p, q, release, ok))
  {
    var c := p.free[0];
    var r := Send(p, q, release, ok);
    assert c in p.free && p.free == [c] + p.free[1..];
    forall x | 0 <= x < |r.conns|
      ensures x in r.free <==> !r.conns[x].inUse
    {
      assert x in p.free <==> x == c || x in p.free[1..];
    }
  }

  lemma SendKeepsInv(p: Pool, q: Query, release: bool, ok: bool)
    requires Inv(p) && p.free != []
    ensures Inv(Send(p, q, release, ok))
  {
    var c := p.free[0];
    var r := Send(p, q, release, ok);
    SendKeepsPartition(p, q, release, ok);
    assert c in p.free;
    assert r.polled == p.polled[c := ok];
    forall x
      ensures Sent(r.sent, x) == Done(r.done, x) + Flying(r.conns, r.polled, x)
    {
      FlyingAt(p.conns, p.polled, c, r.conns[c], ok, x);
      assert ok ==> r.sent[..|r.sent| - 1] == p.sent;
    }
  }

  lemma CompleteKeepsPartition(p: Pool, c: nat, success: bool)
    requires Partitioned(p) && c < |p.conns| && p.polled[c]
    ensures Partitioned(Complete(p, c, success))
  {
    assert c !in p.free;
  }

  lemma CompleteKeepsInv(p: Pool, c: nat, success: bool)
    requires Inv(p) && c < |p.conns| && p.polled[c]
    ensures Inv(Complete(p, c, success))
  {
    var r := Complete(p, c, success);
    CompleteKeepsPartition(p, c, success);
    assert r.conns == p.conns[c := r.conns[c]];
    forall x
      ensures Sent(r.sent, x) == Done(r.done, x) + Flying(r.conns, r.polled, x)
    {
      FlyingAt(p.conns, p.polled, c, r.conns[c], false, x);
      assert r.done[..|r.done| - 1] == p.done;
    }
  }

  /** The completions of a poll, in the order of the poll set, from connection `i` on. */
  function CompleteFrom(p: Pool, ready: map<nat, bool>, i: nat): (r: Pool)
    requires Partitioned(p) && i <= |p.conns|
    decreases |p.conns| - i
  {
    if i == |p.conns| then p
    else if i in ready && p.polled[i] then
      CompleteKeepsPartition(p, i, ready[i]);
      CompleteFrom(Complete(p, i, ready[i]), ready, i + 1)
    else CompleteFrom(p, ready, i + 1)
  }

  /** From `p` to `r` only completions happened. */
  ghost predicate Drains(p: Pool, r: Pool) {
    && |p.conns| == |p.polled| == |r.conns| == |r.polled|
    && r.sent == p.sent && p.done <= r.done
    && forall c :: 0 <= c < |p.conns| ==> DrainsAt(p, r, c)
  }

  /** A connection in flight stays so, or becomes free or held as its query asked; others stay as they are. */
  predicate DrainsAt(p: Pool, r: Pool, c: nat)
    requires c < |p.conns| == |p.polled| == |r.conns| == |r.polled|
  {
    && r.conns[c].query == p.conns[c].query && r.conns[c].release == p.conns[c].release
    && (r.polled[c] ==> p.polled[c])
    && r.conns[c].inUse == if p.polled[c] && !r.polled[c] then !p.conns[c].release else p.conns[c].inUse
  }

  lemma DrainsOn(p: Pool, q: Pool, r: Pool)
    requires Partitioned(p) && Drains(p, q) && Drains(q, r)
    ensures Drains(p, r)
  {
    forall c | 0 <= c < |p.conns|
      ensures DrainsAt(p, r, c)
    {
      assert DrainsAt(p, q, c) && DrainsAt(q, r, c);
    }
  }

  lemma CompleteDrains(p: Pool, c: nat, success: bool)
    requires Partitioned(p) && c < |p.conns| && p.polled[c]
    ensures Drains(p, Complete(p, c, success))
  {
  }

  lemma {:induction false} CompleteFromKeepsInv(p: Pool, ready: map<nat, bool>, i: nat)
    requires Inv(p) && i <= |p.conns|
    ensures Inv(CompleteFrom(p, ready, i)) && Drains(p, CompleteFrom(p, ready, i))
    decreases |p.conns| - i
  {
    if i == |p.conns| {
    } else {
      if i in ready && p.polled[i] {
        CompleteKeepsInv(p, i, ready[i]);
        CompleteDrains(p, i, ready[i]);
        var q := Complete(p, i, ready[i]);
        CompleteFromKeepsInv(q, ready, i + 1);
        DrainsOn(p, q, CompleteFrom(q, ready, i + 1));
      } else {
        CompleteFromKeepsInv(p, ready, i + 1);
      }
    }
  }

  /** Exactly the reported connections leave the poll set. */
  lemma {:induction false} CompleteFromPolled(p: Pool, ready: map<nat, bool>, i: nat, c: nat)
    requires Partitioned(p) && i <= |p.conns| && c < |p.conns|
    ensures var r := CompleteFrom(p, ready, i);
            c < |r.polled| && r.polled[c] == (p.polled[c] && !(c in ready && i <= c))
    decreases |p.conns| - i
  {
    if i == |p.conns| {
    } else {
      if i in ready && p.polled[i] {
        CompleteKeepsPartition(p, i, ready[i]);
        CompleteFromPolled(Complete(p, i, ready[i]), ready, i + 1, c);
      } else {
        CompleteFromPolled(p, ready, i + 1, c);
      }
    }
  }

  lemma {:induction false} NoneReady(p: Pool, ready: map<nat, bool>, i: nat)
    requires Partitioned(p) && i <= |p.conns| && forall c :: c in ready ==> c < i
    ensures CompleteFrom(p, ready, i) == p
    decreases |p.conns| - i
  {
    if i == |p.conns| {
    } else {
      NoneReady(p, ready, i + 1);
    }
  }

  function InFlight(polled: seq<bool>): nat {
    if polled == [] then 0 else InFlight(polled[1..]) + if polled[0] then 1 else 0
  }

  lemma {:induction false} InFlightFalls(a: seq<bool>, b: seq<bool>)
    requires |a| == |b| && forall c :: 0 <= c < |a| && b[c] ==> a[c]
    ensures InFlight(b) <= InFlight(a)
    ensures (exists c :: 0 <= c < |a| && a[c] && !b[c]) ==> InFlight(b) < InFlight(a)
  {
    if a == [] {
    } else {
      InFlightFalls(a[1..], b[1..]);
      if c :| 0 <= c < |a| && a[c] && !b[c] && c > 0 {
        assert a[1..][c - 1] && !b[1..][c - 1];
      }
    }
  }

  /** A poll step keeps the invariant and leaves strictly fewer queries in flight. */
  lemma PollStep(p: Pool, ready: map<nat, bool>)
    requires Inv(p) && ValidPoll(p, ready)
    ensures var r := CompleteFrom(p, ready, 0);
            Inv(r) && Drains(p, r) && InFlight(r.polled) < InFlight(p.polled)
  {
    CompleteFromKeepsInv(p, ready, 0);
    var r := CompleteFrom(p, ready, 0);
    var c :| c in ready;
    CompleteFromPolled(p, ready, 0, c);
    forall x | 0 <= x < |p.polled| && r.polled[x] ensures p.polled[x] {
      assert DrainsAt(p, r, x);
    }
    InFlightFalls(p.polled, r.polled);
  }

  // What a poll does, told of the connections and the report alone.

  /** The completions of the reported connections from `i` on, in ascending order, each with the outcome reported. */
  function Reports(conns: seq<Connection>, ready: map<nat, bool>, i: nat): seq<Completion>
    requires i <= |conns|
    decreases |conns| - i
  {
    if i == |conns| then []
    else (if i in ready then [Completion(conns[i].query, ready[i])] else []) + Reports(conns, ready, i + 1)
  }

  /** The reported connections whose queries were to release them. */
  function Released(conns: seq<Connection>, ready: map<nat, bool>, i: nat): seq<nat>
    requires i <= |conns|
    decreases |conns| - i
  {
    if i == |conns| then []
    else (if i in ready && conns[i].release then [i] else []) + Released(conns, ready, i + 1)
  }

  predicate SameQueries(a: seq<Connection>, b: seq<Connection>) {
    |a| == |b| && forall c :: 0 <= c < |a| ==> a[c].query == b[c].query && a[c].release == b[c].release
  }

  lemma {:induction false} SameReports(a: seq<Connection>, b: seq<Connection>, ready: map<nat, bool>, i: nat)
    requires SameQueries(a, b) && i <= |a|
    ensures Reports(a, ready, i) == Reports(b, ready, i) && Released(a, ready, i) == Released(b, ready, i)
    decreases |a| - i
  {
    if i == |a| {
    } else {
      SameReports(a, b, ready, i + 1);
    }
  }

  /** Completing one reported connection, and then the others. */
  lemma CompleteReports(p: Pool, ready: map<nat, bool>, i: nat)
    requires Partitioned(p) && i < |p.conns| && i in ready
    ensures var q := Complete(p, i, ready[i]);
            q.done + Reports(q.conns, ready, i + 1) == p.done + Reports(p.conns, ready, i)
  {
    var q := Complete(p, i, ready[i]);
    SameReports(p.conns, q.conns, ready, i + 1);
    Assoc(p.done, [Completion(p.conns[i].query, ready[i])], Reports(p.conns, ready, i + 1));
  }

  lemma CompleteFrees(p: Pool, c: nat, success: bool)
    requires Partitioned(p) && c < |p.conns|
    ensures var q := Complete(p, c, success);
            SameQueries(p.conns, q.conns) && q.free == p.free + if p.conns[c].release then [c] else []
  {
  }

  lemma CompleteReleases(p: Pool, ready: map<nat, bool>, i: nat)
    requires Partitioned(p) && i < |p.conns| && i in ready
    ensures var q := Complete(p, i, ready[i]);
            q.free + Released(q.conns, ready, i + 1) == p.free + Released(p.conns, ready, i)
  {
    CompleteFrees(p, i, ready[i]);
    ReleasesOn(p.conns, Complete(p, i, ready[i]).conns, p.free, ready, i);
  }

  lemma ReleasesOn(a: seq<Connection>, b: seq<Connection>, free: seq<nat>, ready: map<nat, bool>, i: nat)
    requires SameQueries(a, b) && i < |a| && i in ready
    ensures free + (if a[i].release then [i] else []) + Released(b, ready, i + 1) == free + Released(a, ready, i)
  {
    SameReports(a, b, ready, i + 1);
    Assoc(free, if a[i].release then [i] else [], Released(a, ready, i + 1));
  }

  lemma SkipReports(p: Pool, ready: map<nat, bool>, i: nat)
    requires i < |p.conns| && i !in ready
    ensures Reports(p.conns, ready, i) == Reports(p.conns, ready, i + 1)
    ensures Released(p.conns, ready, i) == Released(p.conns, ready, i + 1)
  {
  }

  predicate AllPolled(p: Pool, ready: map<nat, bool>, i: nat)
    requires |p.conns| == |p.polled|
  {
    forall c :: i <= c < |p.conns| && c in ready ==> p.polled[c]
  }

  /** The completions are exactly those reported, and exactly the released connections are queued, in that order. */
  lemma {:induction false} PollReports(p: Pool, ready: map<nat, bool>, i: nat)
    requires Partitioned(p) && i <= |p.conns| && AllPolled(p, ready, i)
    ensures var r := CompleteFrom(p, ready, i);
            r.done == p.done + Reports(p.conns, ready, i) && r.free == p.free + Released(p.conns, ready, i)
    decreases |p.conns| - i
  {
    if i == |p.conns| {
    } else if i in ready {
      CompleteKeepsPartition(p, i, ready[i]);
      CompleteReports(p, ready, i);
      CompleteReleases(p, ready, i);
      PollReports(Complete(p, i, ready[i]), ready, i + 1);
    } else {
      SkipReports(p, ready, i);
      PollReports(p, ready, i + 1);
    }
  }

  /** A reported connection leaves the poll set, and is free again if its query was to release it; others stay as they are. */
  lemma PollStates(p: Pool, ready: map<nat, bool>, c: nat)
    requires Inv(p) && ValidPoll(p, ready) && c < |p.conns|
    ensures var r := CompleteFrom(p, ready, 0);
            && |r.conns| == |p.conns| == |r.polled|
            && r.conns[c] == (if c in ready && p.conns[c].release then p.conns[c].(inUse := false) else p.conns[c])
            && r.polled[c] == (p.polled[c] && c !in ready)
  {
    CompleteFromKeepsInv(p, ready, 0);
    CompleteFromPolled(p, ready, 0, c);
    assert DrainsAt(p, CompleteFrom(p, ready, 0), c);
  }

  datatype Step = Execute(query: Query, release: bool, ok: bool) | Poll(ready: map<nat, bool>)

  ghost predicate Enabled(p: Pool, step: Step) {
    match step
    case Execute(_, _, _) => p.free != []
    case Poll(ready) => ValidPoll(p, ready)
  }

  function Apply(p: Pool, step: Step): Pool
    requires Inv(p) && Enabled(p, step)
  {
    match step
    case Execute(q, release, ok) => Send(p, q, release, ok)
    case Poll(ready) => CompleteFrom(p, ready, 0)
  }

  lemma StepKeepsInv(p: Pool, step: Step)
    requires Inv(p) && Enabled(p, step)
    ensures Inv(Apply(p, step))
  {
    match step
    case Execute(q, release, ok) => SendKeepsInv(p, q, release, ok);
    case Poll(ready) => PollStep(p, ready);
  }

  /** `r` is reached from `p` by these steps. */
  ghost predicate Runs(p: Pool, steps: seq<Step>, r: Pool)
    requires Inv(p)
    decreases |steps|
  {
    if steps == [] then r == p
    else
      && Enabled(p, steps[0])
      && (StepKeepsInv(p, steps[0]); Runs(Apply(p, steps[0]), steps[1..], r))
  }

  lemma {:induction false} IdleFlying(n: nat, conn: Connection, q: Query)
    ensures Flying(seq(n, _ => conn), seq(n, _ => false), q) == 0
  {
    if n == 0 {
    } else {
      IdleFlying(n - 1, conn, q);
      assert seq(n, _ => conn)[1..] == seq(n - 1, _ => conn);
      assert seq(n, _ => false)[1..] == seq(n - 1, _ => false);
    }
  }

  lemma InitInv(idle: Query, n: nat)
    ensures Inv(Init(idle, n))
  {
    var p := Init(idle, n);
    forall q
      ensures Sent(p.sent, q) == Done(p.done, q) + Flying(p.conns, p.polled, q)
    {
      IdleFlying(n, Connection(idle, false, false), q);
    }
    forall c | 0 <= c < n
      ensures c in p.free
    {
      assert p.free[c] == c;
    }
  }

  /** Conservation in every state a pool can reach. */
  lemma {:induction false} EveryRunKeepsInv(p: Pool, steps: seq<Step>, r: Pool)
    requires Inv(p) && Runs(p, steps, r)
    ensures Inv(r) && |r.conns| == |p.conns|
    decreases |steps|
  {
    if steps == [] {
    } else {
      StepKeepsInv(p, steps[0]);
      EveryRunKeepsInv(Apply(p, steps[0]), steps[1..], r);
      if steps[0].Poll? {
        PollStep(p, steps[0].ready);
      }
    }
  }

  /** What the polls of a run reported, each at the state it came at. */
  ghost function RunReports(p: Pool, steps: seq<Step>, r: Pool): seq<Completion>
    requires Inv(p) && Runs(p, steps, r)
    decreases |steps|
  {
    if steps == [] then []
    else
      (if steps[0].Poll? then Reports(p.conns, steps[0].ready, 0) else []) +
      (StepKeepsInv(p, steps[0]); RunReports(Apply(p, steps[0]), steps[1..], r))
  }

  lemma StepReports(p: Pool, step: Step)
    requires Inv(p) && Enabled(p, step)
    ensures Apply(p, step).done == p.done + if step.Poll? then Reports(p.conns, step.ready, 0) else []
  {
    if step.Poll? {
      PollReports(p, step.ready, 0);
    } else {
      assert p.done + [] == p.done;
    }
  }

  /** Over any run: handlers are called for exactly what the polls reported, with its outcome and in its order. */
  lemma {:induction false} EveryRunReports(p: Pool, steps: seq<Step>, r: Pool)
    requires Inv(p) && Runs(p, steps, r)
    ensures r.done == p.done + RunReports(p, steps, r)
    decreases |steps|
  {
    if steps == [] {
    } else {
      StepKeepsInv(p, steps[0]);
      StepReports(p, steps[0]);
      var q := Apply(p, steps[0]);
      EveryRunReports(q, steps[1..], r);
      Assoc(p.done, if steps[0].Poll? then Reports(p.conns, steps[0].ready, 0) else [], RunReports(q, steps[1..], r));
    }
  }

  lemma {:induction false} RunsOn(p: Pool, steps: seq<Step>, q: Pool, step: Step)
    requires Inv(p) && Runs(p, steps, q)
    requires Inv(q) && Enabled(q, step)
    ensures Runs(p, steps + [step], Apply(q, step))
    decreases |steps|
  {
    if steps == [] {
      StepKeepsInv(p, step);
    } else {
      StepKeepsInv(p, steps[0]);
      RunsOn(Apply(p, steps[0]), steps[1..], q, step);
      assert (steps + [step])[1..] == steps[1..] + [step];
    }
  }

  predicate AllPolls(steps: seq<Step>) {
    forall i :: 0 <= i < |steps| ==> steps[i].Poll?
  }

  lemma {:induction false} NothingInFlight(polled: seq<bool>)
    ensures InFlight(polled) == 0 <==> forall c :: 0 <= c < |polled| ==> !polled[c]
  {
    if polled == [] {
    } else {
      NothingInFlight(polled[1..]);
      assert forall c :: 0 < c < |polled| ==> polled[c] == polled[1..][c - 1];
    }
  }

  lemma {:induction false} NoneFlying(conns: seq<Connection>, polled: seq<bool>, q: Query)
    requires |conns| == |polled| && forall c :: 0 <= c < |polled| ==> !polled[c]
    ensures Flying(conns, polled, q) == 0
  {
    if conns == [] {
    } else {
      NoneFlying(conns[1..], polled[1..], q);
    }
  }

  /** Once nothing is in flight, every query sent has completed exactly as often as it was sent. */
  lemma QuietMeansSettled(p: Pool, q: Query)
    requires Inv(p) && forall c :: 0 <= c < |p.polled| ==> !p.polled[c]
    ensures Done(p.done, q) == Sent(p.sent, q)
  {
    NoneFlying(p.conns, p.polled, q);
  }

  ghost function Elements(s: seq<nat>): (r: set<nat>)
    ensures forall x :: x in r <==> x in s
  {
    if s == [] then {} else {s[0]} + Elements(s[1..])
  }

  lemma {:induction false} DistinctSize(s: seq<nat>)
    requires Distinct(s)
    ensures |Elements(s)| == |s|
  {
    if s == [] {
    } else {
      DistinctSize(s[1..]);
      assert s[0] !in Elements(s[1..]);
    }
  }

  ghost function Below(n: nat): (r: set<nat>)
    ensures |r| == n && forall x :: x in r <==> 0 <= x < n
  {
    if n == 0 then {} else {n - 1} + Below(n - 1)
  }

  lemma SubsetSize(a: set<nat>, b: set<nat>)
    requires a <= b
    ensures |a| <= |b| && (|a| == |b| ==> a == b)
  {
    assert b == a + (b - a);
  }

  lemma Pigeonhole(s: seq<nat>, n: nat)
    requires Distinct(s) && forall i :: 0 <= i < |s| ==> s[i] < n
    ensures |s| <= n
    ensures |s| == n <==> forall c :: 0 <= c < n ==> c in s
  {
    DistinctSize(s);
    SubsetSize(Elements(s), Below(n));
    if forall c :: 0 <= c < n ==> c in s {
      assert Elements(s) == Below(n);
    } else {
      var c :| 0 <= c < n && c !in s;
      assert c in Below(n) && c !in Elements(s);
    }
  }

  /** The queue is as long as the pool exactly when no connection is in use. */
  lemma FullQueue(p: Pool)
    requires Partitioned(p)
    ensures |p.free| <= |p.conns|
    ensures |p.free| == |p.conns| <==> forall c :: 0 <= c < |p.conns| ==> !p.conns[c].inUse
  {
    Pigeonhole(p.free, |p.conns|);
  }

  /**
   Once nothing is in flight any more, all connections are free again exactly if
   none was held at the start and every query in flight was to release its own.
   */
  lemma DrainedIsFree(p: Pool, r: Pool)
    requires Inv(p) && Inv(r) && Drains(p, r) && forall c :: 0 <= c < |r.polled| ==> !r.polled[c]
    ensures |r.free| == |r.conns| <==>
            forall c :: 0 <= c < |p.conns| && p.conns[c].inUse ==> p.polled[c] && p.conns[c].release
  {
    FullQueue(r);
    forall c | 0 <= c < |p.conns|
      ensures r.conns[c].inUse <==> p.conns[c].inUse && !(p.polled[c] && p.conns[c].release)
    {
      assert DrainsAt(p, r, c);
    }
  }
}
