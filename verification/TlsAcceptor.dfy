/** The TLS acceptor's rendezvous of handshaked connections and accept operations
    (src/network/ssf/layer/cryptography/basic_crypto_stream.h).  Every block under the
    accept mutex is one step; close is several of them, so anything may come in between.
    The lock in clean_pending_accepts is a temporary that is released at once, so each round
    of its loop is a step of its own too. */
module TlsAcceptor {
  import opened Rendezvous

  /** `peak` is the largest limit ever set; `shut` means close has begun and `drained` that it
      has ended, with no listen since. */
  datatype Acceptor = Acceptor(desk: Desk, limit: nat, listening: bool, tokens: nat,
                               peak: nat, shut: bool, drained: bool)

  const FRESH: Acceptor := Acceptor(Desk([], [], BLANK), 0, false, 0, 0, false, false)

  datatype Event =
    | Listen(backlog: int)
    | Handshaked(conn: Conn)
    | Accept(op: Op)
    | Fire
    | CloseBegins
    | CloseCancelsOne
    | CloseCleansAccepts
    | CloseCleansConnections

  /** static_cast<uint64_t>(int). */
  function Unsigned(backlog: int): nat
  {
    if backlog >= 0 then backlog else backlog % 0x1_0000_0000_0000_0000
  }

  function Max(a: nat, b: nat): nat { if a >= b then a else b }
  function Min(a: nat, b: nat): nat { if a <= b then a else b }

  function Step(a: Acceptor, e: Event): Acceptor
  {
    var d := a.desk;
    match e
    case Listen(backlog) =>
      a.(limit := Unsigned(backlog), listening := true, peak := Max(a.peak, Unsigned(backlog)),
         shut := false, drained := false)
    case Handshaked(c) =>
      a.(tokens := a.tokens + 1,
         desk := if |d.connections| < a.limit then Admit(d, c) else d.(history := Drop(d.history, c)))
    case Accept(op) => a.(desk := Issue(d, op), tokens := a.tokens + 1)
    case Fire =>
      if a.tokens == 0 then a
      else if d.connections != [] && d.accepts != [] then a.(desk := Meet(d))
      else a.(tokens := a.tokens - 1)
    case CloseBegins => a.(limit := 0, listening := false, shut := true)
    case CloseCancelsOne => if d.accepts == [] then a else a.(desk := CancelFirst(d))
    case CloseCleansAccepts => a.(desk := CancelAll(d))
    case CloseCleansConnections => a.(desk := CloseAll(d), drained := a.shut)
  }

  function Run(a: Acceptor, events: seq<Event>): Acceptor
  {
    if events == [] then a else Step(Run(a, events[..|events| - 1]), events[|events| - 1])
  }

  // --------------------------------------------------------------- invariants

  /** No lost wake-up; the queue within the largest backlog; shut means nothing is admitted. */
  ghost predicate Sized(a: Acceptor)
  {
    && Min(|a.desk.connections|, |a.desk.accepts|) <= a.tokens
    && |a.desk.connections| <= a.peak && a.limit <= a.peak
    && (a.shut ==> a.limit == 0)
    && (a.drained ==> a.shut && a.desk.connections == [])
  }

  ghost predicate Inv(a: Acceptor)
  {
    Orderly(a.desk) && Sized(a)
  }

  lemma StepKeepsOrderly(a: Acceptor, e: Event)
    requires Orderly(a.desk)
    ensures Orderly(Step(a, e).desk)
  {
    hide Orderly, Unsigned, Admit, Drop, Issue, Meet, CancelFirst, CancelAll, CloseAll;
    var d := a.desk;
    match e
    case Handshaked(c) =>
      AdmitKeepsOrderly(d, c);
      DropKeepsOrderly(d, c);
    case Accept(op) => IssueKeepsOrderly(d, op);
    case Fire => if d.connections != [] && d.accepts != [] { MeetKeepsOrderly(d); }
    case CloseCancelsOne => if d.accepts != [] { CancelFirstKeepsOrderly(d); }
    case CloseCleansAccepts => CleanKeepsOrderly(d);
    case CloseCleansConnections => CleanKeepsOrderly(d);
    case _ =>
  }

  lemma StepKeepsSized(a: Acceptor, e: Event)
    requires Sized(a)
    ensures Sized(Step(a, e))
    ensures a.drained && !e.Listen? ==> Step(a, e).drained
    ensures Step(a, e).peak <= if e.Listen? then Max(a.peak, Unsigned(e.backlog)) else a.peak
  {
    hide Unsigned, Cancels, Closes;
  }

  /** What the events brought in. */
  function Arrivals(events: seq<Event>): seq<Conn>
  {
    if events == [] then []
    else
      var last := events[|events| - 1];
      Arrivals(events[..|events| - 1]) + (if last.Handshaked? then [last.conn] else [])
  }

  function Requests(events: seq<Event>): seq<Op>
  {
    if events == [] then []
    else
      var last := events[|events| - 1];
      Requests(events[..|events| - 1]) + (if last.Accept? then [last.op] else [])
  }

  lemma StepRecords(a: Acceptor, e: Event)
    ensures var h, g := a.desk.history, Step(a, e).desk.history;
            && g.arrived == h.arrived + (if e.Handshaked? then [e.conn] else [])
            && g.issued == h.issued + (if e.Accept? then [e.op] else [])
  {
    hide Unsigned, Cancels, Closes;
  }

  lemma {:induction false} HistoryIsEvents(events: seq<Event>)
    ensures var h := Run(FRESH, events).desk.history;
            h.arrived == Arrivals(events) && h.issued == Requests(events)
  {
    if events != [] {
      hide Step;
      HistoryIsEvents(events[..|events| - 1]);
      StepRecords(Run(FRESH, events[..|events| - 1]), events[|events| - 1]);
    }
  }

  /** The TLS acceptor, over every interleaving: no lost wake-up, both queues FIFO and matched
      head to head, every connection handshaked in the run in exactly one of delivered or
      closed, queued, or dropped, every accept served, cancelled or queued, never more queued
      than the largest backlog, and none queued between a finished close and the next
      listen. */
  lemma {:induction false} RendezvousTheorem(events: seq<Event>)
    ensures var a := Run(FRESH, events);
            var h := a.desk.history;
            && Inv(a)
            && multiset(Arrivals(events)) ==
               multiset(Conns(h.connLog)) + multiset(a.desk.connections) + multiset(h.dropped)
            && multiset(Requests(events)) == multiset(Ops(h.opLog)) + multiset(a.desk.accepts)
  {
    hide Orderly, Sized, Step, Conns, Ops;
    if events != [] {
      RendezvousTheorem(events[..|events| - 1]);
      StepKeepsOrderly(Run(FRESH, events[..|events| - 1]), events[|events| - 1]);
      StepKeepsSized(Run(FRESH, events[..|events| - 1]), events[|events| - 1]);
    } else {
      BlankIsOrderly();
      assert Sized(FRESH) by { FreshIsSized(); }
    }
    HistoryIsEvents(events);
    EachInOnePlace(Run(FRESH, events).desk);
  }

  lemma FreshIsSized()
    ensures Sized(FRESH)
  {
  }

  // ----------------------------------------------- who is queued and who is dropped

  /** The backlog in force: that of the last listen, or none once a close has begun. */
  function BacklogInForce(events: seq<Event>): nat
  {
    if events == [] then 0
    else match events[|events| - 1]
      case Listen(backlog) => if backlog >= 0 then backlog else backlog % 0x1_0000_0000_0000_0000
      case CloseBegins => 0
      case _ => BacklogInForce(events[..|events| - 1])
  }

  lemma StepLimit(a: Acceptor, e: Event)
    ensures Step(a, e).limit ==
            match e
            case Listen(backlog) => if backlog >= 0 then backlog else backlog % 0x1_0000_0000_0000_0000
            case CloseBegins => 0
            case _ => a.limit
  {
  }

  lemma {:induction false} LimitIsBacklog(events: seq<Event>)
    ensures Run(FRESH, events).limit == BacklogInForce(events)
  {
    if events != [] {
      hide Step;
      LimitIsBacklog(events[..|events| - 1]);
      StepLimit(Run(FRESH, events[..|events| - 1]), events[|events| - 1]);
    }
  }

  /** The connections that found the queue full on arrival. */
  function Rejected(events: seq<Event>): seq<Conn>
  {
    if events == [] then []
    else
      var before, last := events[..|events| - 1], events[|events| - 1];
      Rejected(before) +
      (if last.Handshaked? && |Run(FRESH, before).desk.connections| >= BacklogInForce(before)
       then [last.conn] else [])
  }

  /** A handshaked connection is dropped if and only if, when it arrives, the queue holds at
      least the backlog in force; otherwise it joins the end of the queue. */
  lemma HandshakeOutcome(events: seq<Event>, c: Conn)
    ensures var a, b := Run(FRESH, events).desk, Run(FRESH, events + [Handshaked(c)]).desk;
            if |a.connections| >= BacklogInForce(events)
            then b.connections == a.connections && b.history.dropped == a.history.dropped + [c]
            else b.connections == a.connections + [c] && b.history.dropped == a.history.dropped
  {
    assert (events + [Handshaked(c)])[..|events|] == events;
    LimitIsBacklog(events);
  }

  lemma StepDrops(a: Acceptor, e: Event)
    ensures Step(a, e).desk.history.dropped ==
            a.desk.history.dropped + (if e.Handshaked? && |a.desk.connections| >= a.limit then [e.conn] else [])
  {
    hide Unsigned, Cancels, Closes;
  }

  /** In every run exactly those connections were dropped. */
  lemma {:induction false} DroppedExactly(events: seq<Event>)
    ensures Run(FRESH, events).desk.history.dropped == Rejected(events)
  {
    if events != [] {
      hide Step;
      DroppedExactly(events[..|events| - 1]);
      LimitIsBacklog(events[..|events| - 1]);
      StepDrops(Run(FRESH, events[..|events| - 1]), events[|events| - 1]);
    }
  }

  /** What a scheduled handler run does: with both sides waiting, the oldest connection goes to
      the oldest accept operation and another run is scheduled; otherwise nothing happens. */
  lemma HandlerRunMatches(events: seq<Event>)
    requires Run(FRESH, events).tokens > 0
    ensures var a, b := Run(FRESH, events), Run(FRESH, events + [Fire]);
            if a.desk.connections != [] && a.desk.accepts != []
            then HeadsMet(a.desk, b.desk) && b.tokens == a.tokens
            else b.desk == a.desk && b.tokens == a.tokens - 1
  {
    hide HeadsMet, Meet;
    assert (events + [Fire])[..|events|] == events;
    var d := Run(FRESH, events).desk;
    if d.connections != [] && d.accepts != [] { HeadsMeet(d); }
  }

  /** What the two cleaning steps of a close do. */
  lemma CleaningSteps(events: seq<Event>)
    ensures AllCancelled(Run(FRESH, events).desk, Run(FRESH, events + [CloseCleansAccepts]).desk)
    ensures AllClosed(Run(FRESH, events).desk, Run(FRESH, events + [CloseCleansConnections]).desk)
  {
    hide AllCancelled, AllClosed, CancelAll, CloseAll;
    assert (events + [CloseCleansAccepts])[..|events|] == events;
    assert (events + [CloseCleansConnections])[..|events|] == events;
    CleaningEmpties(Run(FRESH, events).desk);
  }

  function Fires(n: nat): (r: seq<Event>)
    ensures |r| == n
  {
    seq(n, _ => Fire)
  }

  lemma OneRun(a: Acceptor)
    ensures var b := Step(a, Fire);
            if a.tokens == 0 then b == a else b.tokens + |b.desk.accepts| == a.tokens + |a.desk.accepts| - 1
  {
  }

  lemma {:induction false} FiringUsesTokens(a: Acceptor, n: nat)
    ensures var b := Run(a, Fires(n));
            && b.tokens + |b.desk.accepts| <= a.tokens + |a.desk.accepts|
            && (b.tokens == 0 || b.tokens + |b.desk.accepts| <= a.tokens + |a.desk.accepts| - n)
  {
    if n > 0 {
      assert Fires(n)[..n - 1] == Fires(n - 1);
      FiringUsesTokens(a, n - 1);
      hide Step;
      OneRun(Run(a, Fires(n - 1)));
    }
  }

  lemma {:induction false} RunConcat(a: Acceptor, one: seq<Event>, two: seq<Event>)
    ensures Run(a, one + two) == Run(Run(a, one), two)
    decreases |two|
  {
    if two == [] {
      assert one + two == one;
    } else {
      hide Step;
      var most := two[..|two| - 1];
      assert (one + two)[..|one + two| - 1] == one + most;
      RunConcat(a, one, most);
    }
  }

  /** Handler runs come to an end, and then no connection waits beside an accept. */
  lemma HandlersComeToRest(events: seq<Event>)
    ensures var a := Run(FRESH, events);
            var b := Run(FRESH, events + Fires(a.tokens + |a.desk.accepts| + 1));
            b.tokens == 0 && (b.desk.connections == [] || b.desk.accepts == [])
  {
    hide Step, Orderly;
    var a := Run(FRESH, events);
    var n := a.tokens + |a.desk.accepts| + 1;
    RunConcat(FRESH, events, Fires(n));
    FiringUsesTokens(a, n);
    RendezvousTheorem(events + Fires(n));
  }

  // ------------------------------------------------------- the current backlog

  /** The queue is within the backlog that is in force. */
  predicate Honoured(a: Acceptor)
  {
    a.shut || |a.desk.connections| <= a.limit
  }

  /** Every listen of the run asks for at least as much as is queued when it is called. */
  ghost predicate ListensFit(events: seq<Event>)
  {
    forall i :: 0 <= i < |events| && events[i].Listen? ==>
      |Run(FRESH, events[..i]).desk.connections| <= Unsigned(events[i].backlog)
  }

  lemma StepHonours(a: Acceptor, e: Event)
    requires Honoured(a)
    ensures Honoured(Step(a, e)) <==>
            (e.Listen? ==> |a.desk.connections| <= Unsigned(e.backlog))
  {
    hide Unsigned, Cancels, Closes;
  }

  lemma {:induction false} FittingListensHonour(events: seq<Event>, n: nat)
    requires ListensFit(events) && n <= |events|
    ensures Honoured(Run(FRESH, events[..n]))
  {
    if n > 0 {
      hide Step, Unsigned;
      FittingListensHonour(events, n - 1);
      assert events[..n][..n - 1] == events[..n - 1];
      StepHonours(Run(FRESH, events[..n - 1]), events[n - 1]);
    }
  }

  /** Exactly when the queue stays within the backlog in force throughout a run: if and only
      if no listen asks for less than what is queued at that moment. */
  lemma BacklogHonouredIff(events: seq<Event>)
    ensures ListensFit(events) <==>
            forall n :: 0 <= n <= |events| ==> Honoured(Run(FRESH, events[..n]))
  {
    if ListensFit(events) {
      forall n | 0 <= n <= |events| ensures Honoured(Run(FRESH, events[..n])) {
        FittingListensHonour(events, n);
      }
    }
    if forall n :: 0 <= n <= |events| ==> Honoured(Run(FRESH, events[..n])) {
      hide Unsigned;
      forall i | 0 <= i < |events| && events[i].Listen?
        ensures |Run(FRESH, events[..i]).desk.connections| <= Unsigned(events[i].backlog)
      {
        assert events[..i + 1][..i] == events[..i];
        assert Honoured(Run(FRESH, events[..i + 1]));
      }
    }
  }

  lemma {:induction false} PeakIsBacklog(events: seq<Event>, backlog: int)
    requires forall i :: 0 <= i < |events| && events[i].Listen? ==> events[i].backlog == backlog
    ensures Run(FRESH, events).peak <= Unsigned(backlog)
  {
    hide Step, Orderly, Sized, Unsigned;
    if events != [] {
      PeakIsBacklog(events[..|events| - 1], backlog);
      RendezvousTheorem(events[..|events| - 1]);
      StepKeepsSized(Run(FRESH, events[..|events| - 1]), events[|events| - 1]);
    }
  }

  /** In particular, with one and the same backlog in every listen, that backlog bounds the
      queue, and the queue is within the backlog in force at every moment. */
  lemma QueueWithinBacklog(events: seq<Event>, backlog: int)
    requires forall i :: 0 <= i < |events| && events[i].Listen? ==> events[i].backlog == backlog
    ensures |Run(FRESH, events).desk.connections| <= Unsigned(backlog)
    ensures forall n :: 0 <= n <= |events| ==> Honoured(Run(FRESH, events[..n]))
  {
    hide Step, Unsigned, Orderly;
    forall n | 0 <= n <= |events| ensures |Run(FRESH, events[..n]).desk.connections| <= Unsigned(backlog) {
      RendezvousTheorem(events[..n]);
      PeakIsBacklog(events[..n], backlog);
    }
    assert events[..|events|] == events;
    BacklogHonouredIff(events);
  }

  /** A listen that asks for less leaves the queue as it is. */
  lemma SmallerBacklogKeepsQueue(c: Conn)
    ensures var a := Step(Step(Step(FRESH, Listen(1)), Handshaked(c)), Listen(0));
            a.limit == 0 && a.desk.connections == [c] && !Honoured(a)
  {
  }

  /** Nothing waits in an acceptor at rest: with no run scheduled, connections and accept
      operations are not both left over. */
  lemma AtRestNoPairWaits(events: seq<Event>)
    requires Run(FRESH, events).tokens == 0
    ensures Run(FRESH, events).desk.connections == [] || Run(FRESH, events).desk.accepts == []
  {
    RendezvousTheorem(events);
  }

  /** After a finished close and until the next listen, a handshaked connection is closed on
      arrival and nothing is queued. */
  lemma {:induction false} ClosedUntilListen(before: seq<Event>, after: seq<Event>)
    requires Run(FRESH, before).drained
    requires forall i :: 0 <= i < |after| ==> !after[i].Listen?
    ensures var a := Run(FRESH, before + after); a.drained && a.desk.connections == []
    decreases |after|
  {
    hide Step, Orderly;
    RendezvousTheorem(before + after);
    if after == [] {
      assert before + after == before;
    } else {
      var most := after[..|after| - 1];
      ClosedUntilListen(before, most);
      assert (before + after)[..|before + after| - 1] == before + most;
      RendezvousTheorem(before + most);
      StepKeepsSized(Run(FRESH, before + most), after[|after| - 1]);
    }
  }

  lemma StepWhileClosed(a: Acceptor, e: Event)
    requires a.limit == 0 && !e.Listen?
    ensures var b := Step(a, e);
            && b.limit == 0 && |b.desk.connections| <= |a.desk.connections|
            && (e.CloseCleansConnections? ==> b.desk.connections == [])
  {
    hide Cancels, Closes;
  }

  lemma {:induction false} RunWhileClosed(a: Acceptor, events: seq<Event>)
    requires a.limit == 0 && forall i :: 0 <= i < |events| ==> !events[i].Listen?
    ensures var b := Run(a, events); b.limit == 0 && |b.desk.connections| <= |a.desk.connections|
  {
    if events != [] {
      hide Step;
      RunWhileClosed(a, events[..|events| - 1]);
      StepWhileClosed(Run(a, events[..|events| - 1]), events[|events| - 1]);
    }
  }

  /** In terms of the events: once a close has begun and has cleaned the connections, the queue
      is empty, whatever else came in between or comes afterwards, until the next listen. */
  lemma NothingQueuedAfterClose(before: seq<Event>, between: seq<Event>, after: seq<Event>)
    requires forall i :: 0 <= i < |between| ==> !between[i].Listen?
    requires forall i :: 0 <= i < |after| ==> !after[i].Listen?
    ensures Run(FRESH, before + [CloseBegins] + between + [CloseCleansConnections] + after).desk.connections == []
  {
    hide Step, Run;
    var one := before + [CloseBegins];
    var two := one + between;
    var three := two + [CloseCleansConnections];
    OneEvent(before, CloseBegins);
    RunConcat(FRESH, one, between);
    OneEvent(two, CloseCleansConnections);
    RunConcat(FRESH, three, after);
    ClosesDown(Run(FRESH, before));
    RunWhileClosed(Run(FRESH, one), between);
    StepWhileClosed(Run(FRESH, two), CloseCleansConnections);
    RunWhileClosed(Run(FRESH, three), after);
  }

  lemma OneEvent(events: seq<Event>, e: Event)
    ensures Run(FRESH, events + [e]) == Step(Run(FRESH, events), e)
  {
    hide Step;
    assert (events + [e])[..|events|] == events;
  }

  lemma ClosesDown(a: Acceptor)
    ensures Step(a, CloseBegins).limit == 0
  {
  }

  // ------------------------------------------------------------- as an object

  class AcceptorContext {
    var connectionQueue: seq<Conn>
    var acceptQueue: seq<Op>
    var maxConnectionsCount: nat
    var listening: bool
    var tokens: nat
    var history: History
    ghost var peak: nat
    ghost var shut: bool
    ghost var drained: bool

    ghost function View(): Acceptor
      reads this
    {
      Acceptor(Desk(connectionQueue, acceptQueue, history), maxConnectionsCount, listening, tokens,
               peak, shut, drained)
    }

    constructor ()
      ensures View() == FRESH
    {
      connectionQueue, acceptQueue, maxConnectionsCount, listening, tokens := [], [], 0, false, 0;
      history := BLANK;
      peak, shut, drained := 0, false, false;
    }

    method ListenOn(backlog: int)
      modifies this
      ensures View() == Step(old(View()), Listen(backlog))
    {
      maxConnectionsCount := Unsigned(backlog);
      listening := true;
      peak, shut, drained := Max(peak, Unsigned(backlog)), false, false;
    }

    method CryptoHandshaked(conn: Conn)
      modifies this
      ensures View() == Step(old(View()), Handshaked(conn))
    {
      history := history.(arrived := history.arrived + [conn]);
      if |connectionQueue| < maxConnectionsCount {
        connectionQueue := connectionQueue + [conn];
        history := history.(admitted := history.admitted + [conn]);
      } else {
        history := history.(dropped := history.dropped + [conn]);
      }
      tokens := tokens + 1;
    }

    method AsyncAccept(op: Op)
      modifies this
      ensures View() == Step(old(View()), Accept(op))
    {
      acceptQueue := acceptQueue + [op];
      history := history.(issued := history.issued + [op]);
      tokens := tokens + 1;
    }

    /** connection_queue_handler without an error. */
    method ConnectionQueueHandler()
      requires tokens > 0
      modifies this
      ensures View() == Step(old(View()), Fire)
    {
      tokens := tokens - 1;
      if connectionQueue != [] && acceptQueue != [] {
        var conn := connectionQueue[0];
        connectionQueue := connectionQueue[1..];
        var op := acceptQueue[0];
        acceptQueue := acceptQueue[1..];
        history := history.(connLog := history.connLog + [Delivered(conn, op)],
                            opLog := history.opLog + [Served(op, conn)]);
        tokens := tokens + 1;
      }
    }

    method BeginClose()
      modifies this
      ensures View() == Step(old(View()), CloseBegins)
    {
      maxConnectionsCount := 0;
      listening := false;
      shut := true;
    }

    /** One round of the loop of clean_pending_accepts. */
    method CancelOne()
      requires acceptQueue != []
      modifies this`acceptQueue, this`history
      ensures View() == Step(old(View()), CloseCancelsOne)
    {
      var op := acceptQueue[0];
      acceptQueue := acceptQueue[1..];
      history := history.(opLog := history.opLog + [Cancelled(op)]);
    }

    /** clean_pending_accepts, when nothing comes in between. */
    method CleanPendingAccepts()
      modifies this
      ensures View() == Step(old(View()), CloseCleansAccepts)
    {
      ghost var ops, was := acceptQueue, history;
      ghost var done := 0;
      while acceptQueue != []
        modifies this`acceptQueue, this`history
        invariant 0 <= done <= |ops| && acceptQueue == ops[done..]
        invariant history == was.(opLog := was.opLog + Cancels(ops[..done]))
        decreases |acceptQueue|
      {
        assert ops[..done + 1] == ops[..done] + [acceptQueue[0]];
        CancelOne();
        done := done + 1;
      }
      assert ops[..done] == ops;
    }

    /** connection_queue_handler with an error: closes what is queued. */
    method CleanConnections()
      modifies this
      ensures View() == Step(old(View()), CloseCleansConnections)
    {
      ghost var conns, was := connectionQueue, history;
      ghost var done := 0;
      while connectionQueue != []
        modifies this`connectionQueue, this`history
        invariant 0 <= done <= |conns| && connectionQueue == conns[done..]
        invariant history == was.(connLog := was.connLog + Closes(conns[..done]))
        decreases |connectionQueue|
      {
        var conn := connectionQueue[0];
        history := history.(connLog := history.connLog + [Closed(conn)]);
        connectionQueue := connectionQueue[1..];
        assert conns[..done + 1] == conns[..done] + [conn];
        done := done + 1;
      }
      assert conns[..done] == conns;
      drained := shut;
    }
  }
}
