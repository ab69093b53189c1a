/** The receive side of a stream fiber (src/common/boost/fiber/detail/basic_fiber_impl.hpp):
    a byte buffer, a queue of pending reads, and handler runs that match the two.
    Each handler holds the queue locks, so it is one step; a handler that has been
    called, posted or dispatched but has not run yet is a token. */
module FiberStream {

  import opened ReadBuffers

  /** How a read ended: with the bytes copied into its buffers, or with an error. */
  datatype Completion = Filled(op: ReadOp, bytes: Bytes) | Errored(op: ReadOp)

  // ------------------------------------------------------------- as a value

  /** `issued` and `received` record what came in, `log` what went out. */
  datatype Fiber = Fiber(pending: seq<ReadOp>, data: Bytes, tokens: nat,
                         log: seq<Completion>, issued: seq<ReadOp>, received: Bytes)

  const IDLE: Fiber := Fiber([], "", 0, [], [], "")

  datatype Event =
    | Arrive(bytes: Bytes)
    | Read(op: ReadOp)
    | Fire
    | Cancel

  function FillFirst(f: Fiber): Fiber
    requires f.pending != []
  {
    var op := f.pending[0];
    var n := Min(Total(op.sizes), |f.data|);
    f.(pending := f.pending[1..], data := f.data[n..], log := f.log + [Filled(op, f.data[..n])])
  }

  /** The loop of the error path: leftover data still fills reads. */
  function Drain(f: Fiber): Fiber
    decreases |f.pending|
  {
    if f.pending == [] then f
    else if f.data != "" then Drain(FillFirst(f))
    else Drain(f.(pending := f.pending[1..], log := f.log + [Errored(f.pending[0])]))
  }

  function Step(f: Fiber, e: Event): Fiber
  {
    match e
    case Arrive(bytes) =>
      f.(data := f.data + bytes, received := f.received + bytes, tokens := f.tokens + 1)
    case Read(op) =>
      f.(pending := f.pending + [op], issued := f.issued + [op], tokens := f.tokens + 1)
    case Fire =>
      if f.tokens == 0 then f
      else if f.pending != [] && f.data != "" then FillFirst(f)
      else f.(tokens := f.tokens - 1)
    case Cancel => Drain(f)
  }

  function Run(f: Fiber, events: seq<Event>): Fiber
  {
    if events == [] then f else Step(Run(f, events[..|events| - 1]), events[|events| - 1])
  }

  /** The bytes handed to reads, in the order in which the reads were filled. */
  function Delivered(log: seq<Completion>): Bytes
  {
    if log == [] then ""
    else
      var last := log[|log| - 1];
      Delivered(log[..|log| - 1]) + (if last.Filled? then last.bytes else "")
  }

  function Ops(log: seq<Completion>): (r: seq<ReadOp>)
    ensures |r| == |log|
  {
    seq(|log|, i requires 0 <= i < |log| => log[i].op)
  }

  /** Nothing lost, duplicated or reordered on either side; no read gets more than it
      has room for. */
  ghost predicate Conserved(f: Fiber)
  {
    && Delivered(f.log) + f.data == f.received
    && Ops(f.log) + f.pending == f.issued
    && (forall i :: 0 <= i < |f.log| && f.log[i].Filled? ==>
          |f.log[i].bytes| <= Total(f.log[i].op.sizes))
  }

  /** A read that could be served is never left without a handler run to serve it. */
  ghost predicate Inv(f: Fiber)
  {
    Conserved(f) && (f.pending != [] && f.data != "" ==> f.tokens > 0)
  }

  lemma LogOne(f: Fiber, c: Completion, rest: Bytes)
    requires Conserved(f) && f.pending != [] && c.op == f.pending[0]
    requires f.data == (if c.Filled? then c.bytes else "") + rest
    requires c.Filled? ==> |c.bytes| <= Total(c.op.sizes)
    ensures Conserved(f.(pending := f.pending[1..], data := rest, log := f.log + [c]))
  {
    hide Delivered, Ops, Total;
    LogSnoc(f.log, c);
    var got := if c.Filled? then c.bytes else "";
    assert (Delivered(f.log) + got) + rest == Delivered(f.log) + f.data;
    assert (Ops(f.log) + [c.op]) + f.pending[1..] == Ops(f.log) + f.pending;
  }

  lemma LogSnoc(log: seq<Completion>, c: Completion)
    ensures Delivered(log + [c]) == Delivered(log) + (if c.Filled? then c.bytes else "")
    ensures Ops(log + [c]) == Ops(log) + [c.op]
  {
    assert (log + [c])[..|log|] == log;
  }

  lemma FillFirstConserves(f: Fiber)
    requires Conserved(f) && f.pending != []
    ensures Conserved(FillFirst(f))
  {
    var n := Min(Total(f.pending[0].sizes), |f.data|);
    assert f.data == f.data[..n] + f.data[n..];
    LogOne(f, Filled(f.pending[0], f.data[..n]), f.data[n..]);
  }

  /** What a cancel adds to the log: every pending read in queue order, first those
      that got leftover data, then those that got the error; errors only once the
      buffer is empty. */
  lemma {:induction false} DrainShape(f: Fiber)
    requires Conserved(f)
    ensures var g := Drain(f);
            && Conserved(g) && g.pending == [] && g.tokens == f.tokens
            && g.issued == f.issued && g.received == f.received
            && f.log <= g.log && Ops(g.log) == Ops(f.log) + f.pending
            && (forall i, j :: |f.log| <= i < j < |g.log| && g.log[i].Errored? ==> g.log[j].Errored?)
            && (forall i :: |f.log| <= i < |g.log| && g.log[i].Errored? ==> g.data == "")
            && (f.data == "" ==> g.data == "")
            && (f.data == "" ==> forall i :: |f.log| <= i < |g.log| ==> g.log[i].Errored?)
    decreases |f.pending|
  {
    if f.pending == [] {
      assert Ops(f.log) + f.pending == Ops(f.log);
    } else {
      var next := if f.data != "" then FillFirst(f)
                  else f.(pending := f.pending[1..], log := f.log + [Errored(f.pending[0])]);
      if f.data != "" {
        FillFirstConserves(f);
      } else {
        LogOne(f, Errored(f.pending[0]), "");
      }
      DrainShape(next);
      assert Drain(f) == Drain(next);
      assert Ops(next.log) + next.pending == Ops(f.log) + f.pending;
    }
  }

  lemma StepKeepsInv(f: Fiber, e: Event)
    requires Inv(f)
    ensures Inv(Step(f, e))
  {
    match e
    case Arrive(bytes) =>
      assert Delivered(f.log) + (f.data + bytes) == f.received + bytes;
    case Read(op) =>
      assert Ops(f.log) + (f.pending + [op]) == f.issued + [op];
    case Fire =>
      if f.tokens > 0 && f.pending != [] && f.data != "" { FillFirstConserves(f); }
    case Cancel => DrainShape(f);
  }

  /** Stream conservation, over every interleaving of arrivals, reads, handler runs and
      cancels: the bytes given to reads in fill order followed by the buffered bytes are
      all the bytes received; completed reads followed by pending reads are all the reads
      issued, in order; and a pending read with buffered data has a run scheduled. */
  lemma {:induction false} StreamConservation(events: seq<Event>)
    ensures var f := Run(IDLE, events);
            && Inv(f)
            && Delivered(f.log) + f.data == f.received
            && Ops(f.log) + f.pending == f.issued
            && (f.pending != [] && f.data != "" ==> f.tokens > 0)
  {
    if events != [] {
      StreamConservation(events[..|events| - 1]);
      StepKeepsInv(Run(IDLE, events[..|events| - 1]), events[|events| - 1]);
    }
  }

  /** Everything the events brought in. */
  function Arrivals(events: seq<Event>): Bytes
  {
    if events == [] then ""
    else
      var last := events[|events| - 1];
      Arrivals(events[..|events| - 1]) + (if last.Arrive? then last.bytes else "")
  }

  lemma {:induction false} DrainKeepsReceived(f: Fiber)
    ensures Drain(f).received == f.received
    decreases |f.pending|
  {
    if f.pending != [] {
      if f.data != "" { DrainKeepsReceived(FillFirst(f)); }
      else { DrainKeepsReceived(f.(pending := f.pending[1..], log := f.log + [Errored(f.pending[0])])); }
    }
  }

  lemma {:induction false} ReceivedIsArrivals(events: seq<Event>)
    ensures Run(IDLE, events).received == Arrivals(events)
  {
    if events != [] {
      var before := Run(IDLE, events[..|events| - 1]);
      ReceivedIsArrivals(events[..|events| - 1]);
      if events[|events| - 1].Cancel? { DrainKeepsReceived(before); }
    }
  }

  // ------------------------------------------------------ what each read is given

  /** The reads the events issued. */
  function Reads(events: seq<Event>): seq<ReadOp>
  {
    if events == [] then []
    else
      var last := events[|events| - 1];
      Reads(events[..|events| - 1]) + (if last.Read? then [last.op] else [])
  }

  lemma {:induction false} DrainKeepsIssued(f: Fiber)
    ensures Drain(f).issued == f.issued
    decreases |f.pending|
  {
    if f.pending != [] {
      if f.data != "" { DrainKeepsIssued(FillFirst(f)); }
      else { DrainKeepsIssued(f.(pending := f.pending[1..], log := f.log + [Errored(f.pending[0])])); }
    }
  }

  lemma {:induction false} IssuedIsReads(events: seq<Event>)
    ensures Run(IDLE, events).issued == Reads(events)
  {
    if events != [] {
      IssuedIsReads(events[..|events| - 1]);
      if events[|events| - 1].Cancel? { DrainKeepsIssued(Run(IDLE, events[..|events| - 1])); }
    }
  }

  /** The next completion after `log`, when `ops` have been issued and `all` has arrived: the
      next read in order takes the bytes that follow those already delivered, as many as there
      are and as it has room for. */
  predicate Serves(log: seq<Completion>, c: Completion, ops: seq<ReadOp>, all: Bytes)
  {
    var done := |Delivered(log)|;
    && |log| < |ops| && done < |all|
    && c.Filled? && c.op == ops[|log|]
    && |c.bytes| == Min(Total(ops[|log|].sizes), |all| - done)
    && done + |c.bytes| <= |all| && c.bytes == all[done..done + |c.bytes|]
  }

  lemma NextServed(f: Fiber)
    requires Conserved(f) && f.pending != [] && f.data != ""
    ensures var g := FillFirst(f);
            |g.log| == |f.log| + 1 && f.log <= g.log && Serves(f.log, g.log[|f.log|], f.issued, f.received)
  {
    var done := |Delivered(f.log)|;
    assert f.issued[|f.log|] == f.pending[0] by { assert (Ops(f.log) + f.pending)[|f.log|] == f.pending[0]; }
    assert f.received[done..] == f.data by { assert (Delivered(f.log) + f.data)[done..] == f.data; }
    var n := Min(Total(f.pending[0].sizes), |f.data|);
    assert f.received[done..done + n] == f.received[done..][..n];
  }

  lemma WaitingMeans(f: Fiber)
    requires Conserved(f)
    ensures f.pending != [] <==> |f.log| < |f.issued|
    ensures f.data != "" <==> |Delivered(f.log)| < |f.received|
  {
    hide Delivered, Ops;
    assert |Ops(f.log) + f.pending| == |f.log| + |f.pending|;
  }

  /** A handler run, in every run of the fiber: if a read is unanswered and bytes are undelivered,
      the oldest such read gets the bytes that are next, all it has room for; otherwise the run
      completes nothing. */
  lemma HandlerRunServes(events: seq<Event>)
    requires Run(IDLE, events).tokens > 0
    ensures var f, g := Run(IDLE, events), Run(IDLE, events + [Fire]);
            var ops, all := Reads(events), Arrivals(events);
            if |f.log| < |ops| && |Delivered(f.log)| < |all|
            then |g.log| == |f.log| + 1 && f.log <= g.log && Serves(f.log, g.log[|f.log|], ops, all)
            else g.log == f.log && g.tokens == f.tokens - 1
  {
    hide Serves, Drain, FillFirst;
    var f := Run(IDLE, events);
    assert (events + [Fire])[..|events|] == events;
    StreamConservation(events);
    IssuedIsReads(events);
    ReceivedIsArrivals(events);
    WaitingMeans(f);
    if f.pending != [] && f.data != "" { NextServed(f); }
  }

  /** A read with room that is filled is never left empty. */
  lemma ServedIsNotEmpty(log: seq<Completion>, c: Completion, ops: seq<ReadOp>, all: Bytes)
    requires Serves(log, c, ops, all) && Total(c.op.sizes) > 0
    ensures c.bytes != ""
  {
  }

  /** Every completion a cancel adds is served in the same way while undelivered bytes are left,
      and an error afterwards. */
  lemma {:induction false} DrainServes(f: Fiber, i: nat)
    requires Conserved(f) && |f.log| <= i < |Drain(f).log|
    ensures i < |f.issued|
    ensures var log := Drain(f).log;
            if |Delivered(log[..i])| < |f.received|
            then Serves(log[..i], log[i], f.issued, f.received)
            else log[i] == Errored(f.issued[i])
    decreases |f.pending|
  {
    DrainShape(f);
    if f.pending != [] {
      hide Serves, Ops, Delivered, Total;
      var next := NextDrained(f);
      DrainShape(next);
      if i == |f.log| {
        assert Drain(f).log[..i] == f.log;
        assert Drain(f).log[i] == next.log[i];
      } else {
        DrainServes(next, i);
      }
    }
  }

  /** One round of the error loop. */
  lemma NextDrained(f: Fiber) returns (next: Fiber)
    requires Conserved(f) && f.pending != []
    ensures Conserved(next) && Drain(f) == Drain(next) && |next.pending| == |f.pending| - 1
    ensures next.issued == f.issued && next.received == f.received
    ensures |next.log| == |f.log| + 1 && f.log <= next.log
    ensures |f.log| < |f.issued|
    ensures if |Delivered(f.log)| < |f.received| then Serves(f.log, next.log[|f.log|], f.issued, f.received)
            else next.log[|f.log|] == Errored(f.issued[|f.log|])
  {
    hide Serves;
    WaitingMeans(f);
    if f.data != "" {
      FillFirstConserves(f);
      NextServed(f);
      next := FillFirst(f);
    } else {
      LogOne(f, Errored(f.pending[0]), "");
      next := f.(pending := f.pending[1..], log := f.log + [Errored(f.pending[0])]);
      assert f.issued[|f.log|] == f.pending[0] by { assert (Ops(f.log) + f.pending)[|f.log|] == f.pending[0]; }
    }
  }

  /** A cancel, in every run of the fiber. */
  lemma CancelServes(events: seq<Event>, i: nat)
    requires |Run(IDLE, events).log| <= i < |Reads(events)|
    ensures var g := Run(IDLE, events + [Cancel]);
            var ops, all := Reads(events), Arrivals(events);
            && Run(IDLE, events).log <= g.log && |g.log| == |ops|
            && (if |Delivered(g.log[..i])| < |all| then Serves(g.log[..i], g.log[i], ops, all)
                else g.log[i] == Errored(ops[i]))
  {
    hide Serves, Drain, Delivered;
    var f := Run(IDLE, events);
    assert (events + [Cancel])[..|events|] == events;
    StreamConservation(events);
    IssuedIsReads(events);
    ReceivedIsArrivals(events);
    DrainShape(f);
    DrainServes(f, i);
  }

  // ------------------------------------------------------------------ coming to rest

  function Fires(n: nat): (r: seq<Event>)
    ensures |r| == n
  {
    seq(n, _ => Fire)
  }

  lemma {:induction false} FiringUsesTokens(f: Fiber, n: nat)
    ensures var g := Run(f, Fires(n));
            && g.tokens + |g.pending| <= f.tokens + |f.pending|
            && (g.tokens == 0 || g.tokens + |g.pending| <= f.tokens + |f.pending| - n)
  {
    if n > 0 {
      assert Fires(n)[..n - 1] == Fires(n - 1);
      FiringUsesTokens(f, n - 1);
    }
  }

  lemma {:induction false} RunConcat(f: Fiber, a: seq<Event>, b: seq<Event>)
    ensures Run(f, a + b) == Run(Run(f, a), b)
    decreases |b|
  {
    if b == [] {
      assert a + b == a;
    } else {
      var most := b[..|b| - 1];
      assert (a + b)[..|a + b| - 1] == a + most;
      RunConcat(f, a, most);
    }
  }

  /** Handler runs come to an end: after as many as there are tokens and pending reads, none is
      scheduled, and then all data has been handed out or no read is left. */
  lemma HandlersComeToRest(events: seq<Event>)
    ensures var f := Run(IDLE, events);
            var g := Run(IDLE, events + Fires(f.tokens + |f.pending| + 1));
            g.tokens == 0 && (g.pending == [] || g.data == "")
  {
    hide Run, Delivered, Ops, Total, Arrivals;
    var f := Run(IDLE, events);
    var n := f.tokens + |f.pending| + 1;
    RunConcat(IDLE, events, Fires(n));
    FiringUsesTokens(f, n);
    StreamConservation(events + Fires(n));
  }

  /** When no run is scheduled any more, either all data has been handed out or no read
      is waiting: data and readers never sit side by side in a fiber at rest. */
  lemma AtRestNothingWaits(events: seq<Event>)
    requires Run(IDLE, events).tokens == 0
    ensures var f := Run(IDLE, events);
            f.pending == [] || (f.data == "" && Delivered(f.log) == Arrivals(events))
  {
    StreamConservation(events);
    ReceivedIsArrivals(events);
  }

  // ------------------------------------------------------------ as an object

  /** basic_fiber_impl, stream part. */
  class FiberImpl {
    var readOpQueue: seq<ReadOp>
    var dataQueue: Bytes
    var tokens: nat
    var completions: seq<Completion>
    ghost var issued: seq<ReadOp>
    ghost var received: Bytes

    ghost function View(): Fiber
      reads this
    {
      Fiber(readOpQueue, dataQueue, tokens, completions, issued, received)
    }

    constructor ()
      ensures View() == IDLE
    {
      readOpQueue, dataQueue, tokens, completions := [], "", 0, [];
      issued, received := [], "";
    }

    /** receive_handler: stores the first `transferred` bytes of the packet's buffer,
        then calls the queue handler. */
    method ReceiveHandler(buffer: Bytes, transferred: nat)
      requires transferred <= |buffer|
      modifies this
      ensures View() == Step(old(View()), Arrive(buffer[..transferred]))
    {
      dataQueue := dataQueue + buffer[..transferred];
      received := received + buffer[..transferred];
      tokens := tokens + 1;
    }

    method AsyncReceive(op: ReadOp)
      modifies this
      ensures View() == Step(old(View()), Read(op))
    {
      readOpQueue := readOpQueue + [op];
      issued := issued + [op];
      tokens := tokens + 1;
    }

    /** r_queues_handler without an error: one read per run, then another run. */
    method QueuesHandler()
      requires tokens > 0
      modifies this
      ensures View() == Step(old(View()), Fire)
    {
      tokens := tokens - 1;
      if readOpQueue != [] && dataQueue != "" {
        FillOne();
        tokens := tokens + 1;
      }
    }

    method FillOne()
      requires readOpQueue != []
      modifies this`readOpQueue, this`dataQueue, this`completions
      ensures View() == FillFirst(old(View()))
    {
      var op := readOpQueue[0];
      readOpQueue := readOpQueue[1..];
      var parts, rest, copied := FillBuffers(op.sizes, dataQueue);
      completions := completions + [Filled(op, Concat(parts))];
      dataQueue := rest;
    }

    /** r_queues_handler with an error: empties the read queue. */
    method CancelOperations()
      modifies this
      ensures View() == Step(old(View()), Cancel)
    {
      while readOpQueue != []
        invariant Drain(View()) == Drain(old(View()))
        decreases |readOpQueue|
      {
        if dataQueue != "" {
          FillOne();
        } else {
          completions := completions + [Errored(readOpQueue[0])];
          readOpQueue := readOpQueue[1..];
        }
      }
    }
  }
}
