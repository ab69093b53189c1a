/** The receive side of a datagram fiber (basic_fiber_impl.hpp): source ports and
    datagrams sit in two queues of their own and are paired with queued reads. */
module FiberDatagram {
  import opened ReadBuffers

  datatype Completion =
    | Filled(op: ReadOp, port: nat, bytes: Bytes)
    | Errored(op: ReadOp)

  /** A datagram as it arrived, with its source port. */
  datatype Datagram = Datagram(port: nat, bytes: Bytes)

  datatype Fiber = Fiber(pending: seq<ReadOp>, ports: seq<nat>, datagrams: seq<Bytes>, tokens: nat,
                         log: seq<Completion>, issued: seq<ReadOp>, received: seq<Datagram>)

  const IDLE: Fiber := Fiber([], [], [], 0, [], [], [])

  datatype Event =
    | Arrive(datagram: Datagram)
    | Read(op: ReadOp)
    | Fire
    | Cancel

  /** boost::asio::buffer_copy into the read's buffers: what does not fit is lost. */
  function Copied(op: ReadOp, bytes: Bytes): Bytes
  {
    bytes[..Min(Total(op.sizes), |bytes|)]
  }

  function Pair(f: Fiber): Fiber
    requires f.pending != [] && f.ports != [] && f.datagrams != []
  {
    var op := f.pending[0];
    f.(pending := f.pending[1..], ports := f.ports[1..], datagrams := f.datagrams[1..],
       log := f.log + [Filled(op, f.ports[0], Copied(op, f.datagrams[0]))])
  }

  function Drain(f: Fiber): Fiber
    decreases |f.pending|
  {
    if f.pending == [] then f
    else if f.ports != [] && f.datagrams != [] then Drain(Pair(f))
    else Drain(f.(pending := f.pending[1..], log := f.log + [Errored(f.pending[0])]))
  }

  function Step(f: Fiber, e: Event): Fiber
  {
    match e
    case Arrive(d) =>
      f.(ports := f.ports + [d.port], datagrams := f.datagrams + [d.bytes],
         received := f.received + [d], tokens := f.tokens + 1)
    case Read(op) =>
      f.(pending := f.pending + [op], issued := f.issued + [op], tokens := f.tokens + 1)
    case Fire =>
      if f.tokens == 0 then f
      else if f.pending != [] && f.ports != [] && f.datagrams != [] then Pair(f)
      else f.(tokens := f.tokens - 1)
    case Cancel => Drain(f)
  }

  function Run(f: Fiber, events: seq<Event>): Fiber
  {
    if events == [] then f else Step(Run(f, events[..|events| - 1]), events[|events| - 1])
  }

  /** The filled reads of a log, in order. */
  function FilledOf(log: seq<Completion>): seq<Completion>
  {
    if log == [] then []
    else
      var last := log[|log| - 1];
      FilledOf(log[..|log| - 1]) + (if last.Filled? then [last] else [])
  }

  function Ops(log: seq<Completion>): (r: seq<ReadOp>)
    ensures |r| == |log|
  {
    seq(|log|, i requires 0 <= i < |log| => log[i].op)
  }

  /** The waiting part of what was received, from the k-th datagram on. */
  ghost predicate Waiting(f: Fiber, k: nat)
  {
    && |f.ports| == |f.datagrams|
    && |f.received| == k + |f.datagrams|
    && forall i :: 0 <= i < |f.datagrams| ==>
         f.received[k + i] == Datagram(f.ports[i], f.datagrams[i])
  }

  /** A read filled from a datagram: the datagram's port and as much of its head as there is
      room for. */
  ghost predicate Paired(c: Completion, d: Datagram)
  {
    c.Filled? && c.port == d.port && c.bytes <= d.bytes && |c.bytes| == Min(Total(c.op.sizes), |d.bytes|)
  }

  ghost predicate Conserved(f: Fiber)
  {
    var filled := FilledOf(f.log);
    && |filled| <= |f.received| && Waiting(f, |filled|)
    && (forall k :: 0 <= k < |filled| ==> Paired(filled[k], f.received[k]))
    && Ops(f.log) + f.pending == f.issued
  }

  /** Runs enough are scheduled to match every read with a waiting datagram. */
  ghost predicate Inv(f: Fiber)
  {
    Conserved(f) && Min(|f.pending|, |f.datagrams|) <= f.tokens
  }

  lemma PairConserves(f: Fiber)
    requires Conserved(f) && f.pending != [] && f.datagrams != []
    ensures Conserved(Pair(f))
  {
    var g := Pair(f);
    assert g.log[..|g.log| - 1] == f.log;
    var filled := FilledOf(f.log);
    assert FilledOf(g.log) == filled + [g.log[|f.log|]];
    assert f.received[|filled| + 0] == Datagram(f.ports[0], f.datagrams[0]);
    forall i | 0 <= i < |g.datagrams|
      ensures g.received[|filled| + 1 + i] == Datagram(g.ports[i], g.datagrams[i])
    {
      assert f.received[|filled| + (i + 1)] == Datagram(f.ports[i + 1], f.datagrams[i + 1]);
    }
    assert Ops(g.log) == Ops(f.log) + [f.pending[0]];
    assert Ops(g.log) + g.pending == Ops(f.log) + f.pending;
  }

  lemma ErrorConserves(f: Fiber)
    requires Conserved(f) && f.pending != []
    ensures Conserved(f.(pending := f.pending[1..], log := f.log + [Errored(f.pending[0])]))
  {
    var log := f.log + [Errored(f.pending[0])];
    assert log[..|log| - 1] == f.log;
    assert FilledOf(log) == FilledOf(f.log) + [];
    assert Ops(log) == Ops(f.log) + [f.pending[0]];
    assert Ops(log) + f.pending[1..] == Ops(f.log) + f.pending;
  }

  lemma ArriveConserves(f: Fiber, d: Datagram)
    requires Conserved(f)
    ensures Conserved(Step(f, Arrive(d)))
  {
    hide FilledOf, Ops;
  }

  lemma {:induction false} DrainConserves(f: Fiber)
    requires Conserved(f)
    ensures Conserved(Drain(f)) && Drain(f).pending == []
    decreases |f.pending|
  {
    if f.pending != [] {
      if f.ports != [] && f.datagrams != [] {
        PairConserves(f);
        DrainConserves(Pair(f));
      } else {
        ErrorConserves(f);
        DrainConserves(f.(pending := f.pending[1..], log := f.log + [Errored(f.pending[0])]));
      }
    }
  }

  /** What a cancel adds to the log: every pending read in queue order, first those that were
      paired, then those that got the error; errors only once no datagram waits. */
  lemma {:induction false} DrainShape(f: Fiber)
    requires Conserved(f)
    ensures var g := Drain(f);
            && f.log <= g.log && Ops(g.log) == Ops(f.log) + f.pending && g.received == f.received
            && (forall i, j :: |f.log| <= i < j < |g.log| && g.log[i].Errored? ==> g.log[j].Errored?)
            && (forall i :: |f.log| <= i < |g.log| && g.log[i].Errored? ==> g.datagrams == [])
            && (f.datagrams == [] ==> g.datagrams == [])
            && (f.datagrams == [] ==> forall i :: |f.log| <= i < |g.log| ==> g.log[i].Errored?)
    decreases |f.pending|
  {
    if f.pending == [] {
      assert Ops(f.log) + f.pending == Ops(f.log);
    } else {
      hide Conserved, FilledOf;
      var next := NextDrained(f);
      assert Drain(f) == Drain(next);
      DrainShape(next);
      assert Ops(next.log) == Ops(f.log) + [f.pending[0]];
      assert Ops(next.log) + next.pending == Ops(f.log) + f.pending;
    }
  }

  /** One round of the error loop. */
  lemma NextDrained(f: Fiber) returns (next: Fiber)
    requires Conserved(f) && f.pending != []
    ensures Conserved(next) && Drain(f) == Drain(next)
    ensures next == if f.datagrams != [] then (assert f.ports != []; Pair(f))
                    else f.(pending := f.pending[1..], log := f.log + [Errored(f.pending[0])])
    ensures |next.log| == |f.log| + 1 && next.log[..|f.log|] == f.log
  {
    if f.datagrams != [] {
      PairConserves(f);
      next := Pair(f);
    } else {
      ErrorConserves(f);
      next := f.(pending := f.pending[1..], log := f.log + [Errored(f.pending[0])]);
    }
  }

  lemma StepKeepsInv(f: Fiber, e: Event)
    requires Inv(f)
    ensures Inv(Step(f, e))
  {
    hide FilledOf, Ops, Drain;
    match e
    case Arrive(_) => ArriveConserves(f, e.datagram);
    case Read(op) => assert Ops(f.log) + (f.pending + [op]) == f.issued + [op];
    case Fire => if f.tokens > 0 && f.pending != [] && f.datagrams != [] { PairConserves(f); }
    case Cancel => DrainConserves(f);
  }

  /** Everything the events brought in. */
  function Arrivals(events: seq<Event>): seq<Datagram>
  {
    if events == [] then []
    else
      var last := events[|events| - 1];
      Arrivals(events[..|events| - 1]) + (if last.Arrive? then [last.datagram] else [])
  }

  lemma {:induction false} DrainKeepsReceived(f: Fiber)
    ensures Drain(f).received == f.received
    decreases |f.pending|
  {
    if f.pending != [] {
      if f.ports != [] && f.datagrams != [] { DrainKeepsReceived(Pair(f)); }
      else { DrainKeepsReceived(f.(pending := f.pending[1..], log := f.log + [Errored(f.pending[0])])); }
    }
  }

  lemma {:induction false} ReceivedIsArrivals(events: seq<Event>)
    ensures Run(IDLE, events).received == Arrivals(events)
  {
    if events != [] {
      ReceivedIsArrivals(events[..|events| - 1]);
      if events[|events| - 1].Cancel? { DrainKeepsReceived(Run(IDLE, events[..|events| - 1])); }
    }
  }

  /** Datagram pairing, over every interleaving and on the normal as well as the error
      path: both queues have the same length, the k-th filled read holds a prefix of the
      k-th datagram together with that datagram's own port, reads complete in the order
      they were issued, and no match waits without a handler run. */
  lemma {:induction false} DatagramPairing(events: seq<Event>)
    ensures var f := Run(IDLE, events);
            var filled := FilledOf(f.log);
            && Inv(f)
            && |f.ports| == |f.datagrams| && |filled| + |f.datagrams| == |Arrivals(events)|
            && (forall k :: 0 <= k < |filled| ==> Paired(filled[k], Arrivals(events)[k]))
  {
    hide Step, FilledOf;
    if events == [] {
      IdleIsInv();
    } else {
      DatagramPairing(events[..|events| - 1]);
      StepKeepsInv(Run(IDLE, events[..|events| - 1]), events[|events| - 1]);
    }
    ReceivedIsArrivals(events);
  }

  /** The reads the events issued. */
  function Reads(events: seq<Event>): seq<ReadOp>
  {
    if events == [] then []
    else
      var last := events[|events| - 1];
      Reads(events[..|events| - 1]) + (if last.Read? then [last.op] else [])
  }

  lemma {:induction false} DrainKeepsIssued(f: Fiber)
    ensures Drain(f).issued == f.issued
    decreases |f.pending|
  {
    if f.pending != [] {
      if f.ports != [] && f.datagrams != [] { DrainKeepsIssued(Pair(f)); }
      else { DrainKeepsIssued(f.(pending := f.pending[1..], log := f.log + [Errored(f.pending[0])])); }
    }
  }

  lemma {:induction false} IssuedIsReads(events: seq<Event>)
    ensures Run(IDLE, events).issued == Reads(events)
  {
    if events != [] {
      IssuedIsReads(events[..|events| - 1]);
      if events[|events| - 1].Cancel? { DrainKeepsIssued(Run(IDLE, events[..|events| - 1])); }
    }
  }

  lemma NextPaired(f: Fiber)
    requires Conserved(f) && f.pending != [] && f.datagrams != []
    ensures var g, k := Pair(f), |FilledOf(f.log)|;
            && |g.log| == |f.log| + 1 && f.log <= g.log && k < |f.received| && |f.log| < |f.issued|
            && g.log[|f.log|].op == f.issued[|f.log|] && Paired(g.log[|f.log|], f.received[k])
  {
    hide FilledOf;
    assert f.issued[|f.log|] == f.pending[0] by { assert (Ops(f.log) + f.pending)[|f.log|] == f.pending[0]; }
    assert f.received[|FilledOf(f.log)| + 0] == Datagram(f.ports[0], f.datagrams[0]);
  }

  /** A handler run, in every run of the fiber: if a read is unanswered and a datagram has not
      been handed out, the oldest such read gets the oldest such datagram; otherwise the run
      completes nothing. */
  lemma HandlerRunPairs(events: seq<Event>)
    requires Run(IDLE, events).tokens > 0
    ensures var f, g := Run(IDLE, events), Run(IDLE, events + [Fire]);
            var ops, all, k := Reads(events), Arrivals(events), |FilledOf(f.log)|;
            if |f.log| < |ops| && k < |all|
            then |g.log| == |f.log| + 1 && f.log <= g.log
                 && g.log[|f.log|].op == ops[|f.log|] && Paired(g.log[|f.log|], all[k])
            else g.log == f.log && g.tokens == f.tokens - 1
  {
    hide FilledOf, Paired, Pair, Drain;
    var f := Run(IDLE, events);
    assert (events + [Fire])[..|events|] == events;
    DatagramPairing(events);
    IssuedIsReads(events);
    ReceivedIsArrivals(events);
    assert |f.log| + |f.pending| == |f.issued| by { assert |Ops(f.log) + f.pending| == |f.log| + |f.pending|; }
    if f.pending != [] && f.datagrams != [] { NextPaired(f); }
  }

  function Fires(n: nat): (r: seq<Event>)
    ensures |r| == n
  {
    seq(n, _ => Fire)
  }

  lemma {:induction false} FiringUsesTokens(f: Fiber, n: nat)
    ensures var g := Run(f, Fires(n));
            && g.tokens + |g.pending| <= f.tokens + |f.pending|
            && (g.tokens == 0 || g.tokens + |g.pending| <= f.tokens + |f.pending| - n)
  {
    if n > 0 {
      assert Fires(n)[..n - 1] == Fires(n - 1);
      FiringUsesTokens(f, n - 1);
    }
  }

  lemma {:induction false} RunConcat(f: Fiber, a: seq<Event>, b: seq<Event>)
    ensures Run(f, a + b) == Run(Run(f, a), b)
    decreases |b|
  {
    if b == [] {
      assert a + b == a;
    } else {
      hide Step;
      var most := b[..|b| - 1];
      assert (a + b)[..|a + b| - 1] == a + most;
      RunConcat(f, a, most);
    }
  }

  /** Handler runs come to an end, and then no datagram waits beside a read. */
  lemma HandlersComeToRest(events: seq<Event>)
    ensures var f := Run(IDLE, events);
            var g := Run(IDLE, events + Fires(f.tokens + |f.pending| + 1));
            g.tokens == 0 && (g.pending == [] || g.datagrams == [])
  {
    hide Run, Step;
    var f := Run(IDLE, events);
    var n := f.tokens + |f.pending| + 1;
    RunConcat(IDLE, events, Fires(n));
    FiringUsesTokens(f, n);
    AtRestNoPairWaits(events + Fires(n));
  }

  /** With no run scheduled, no datagram waits beside a read. */
  lemma AtRestNoPairWaits(events: seq<Event>)
    ensures var f := Run(IDLE, events); f.tokens == 0 ==> f.pending == [] || f.datagrams == []
  {
    hide Run, FilledOf, Ops;
    DatagramPairing(events);
  }

  lemma IdleIsInv()
    ensures Inv(IDLE)
  {
  }

  // ------------------------------------------------------------ as an object

  /** basic_fiber_impl, datagram part. */
  class DatagramFiberImpl {
    var readOpQueue: seq<ReadOp>
    var portQueue: seq<nat>
    var dataQueue: seq<Bytes>
    var tokens: nat
    var completions: seq<Completion>
    ghost var issued: seq<ReadOp>
    ghost var received: seq<Datagram>

    ghost function View(): Fiber
      reads this
    {
      Fiber(readOpQueue, portQueue, dataQueue, tokens, completions, issued, received)
    }

    constructor ()
      ensures View() == IDLE
    {
      readOpQueue, portQueue, dataQueue, tokens, completions := [], [], [], 0, [];
      issued, received := [], [];
    }

    /** receive_dgr_handler: the buffer is cut to the bytes transferred. */
    method ReceiveHandler(buffer: Bytes, port: nat, transferred: nat)
      requires transferred <= |buffer|
      modifies this
      ensures View() == Step(old(View()), Arrive(Datagram(port, buffer[..transferred])))
    {
      portQueue := portQueue + [port];
      dataQueue := dataQueue + [buffer[..transferred]];
      received := received + [Datagram(port, buffer[..transferred])];
      tokens := tokens + 1;
    }

    method AsyncReceive(op: ReadOp)
      modifies this
      ensures View() == Step(old(View()), Read(op))
    {
      readOpQueue := readOpQueue + [op];
      issued := issued + [op];
      tokens := tokens + 1;
    }

    method QueuesHandler()
      requires tokens > 0
      modifies this
      ensures View() == Step(old(View()), Fire)
    {
      tokens := tokens - 1;
      if readOpQueue != [] && portQueue != [] && dataQueue != [] {
        PairOne();
        tokens := tokens + 1;
      }
    }

    method PairOne()
      requires readOpQueue != [] && portQueue != [] && dataQueue != []
      modifies this`readOpQueue, this`portQueue, this`dataQueue, this`completions
      ensures View() == Pair(old(View()))
    {
      var op := readOpQueue[0];
      readOpQueue := readOpQueue[1..];
      var port := portQueue[0];
      portQueue := portQueue[1..];
      var data := dataQueue[0];
      dataQueue := dataQueue[1..];
      var parts, rest, copied := FillBuffers(op.sizes, data);
      completions := completions + [Filled(op, port, Concat(parts))];
    }

    method CancelOperations()
      modifies this
      ensures View() == Step(old(View()), Cancel)
    {
      while readOpQueue != []
        invariant Drain(View()) == Drain(old(View()))
        decreases |readOpQueue|
      {
        if portQueue != [] && dataQueue != [] {
          PairOne();
        } else {
          completions := completions + [Errored(readOpQueue[0])];
          readOpQueue := readOpQueue[1..];
        }
      }
    }
  }
}
