/** A place where connections and accept operations meet: two queues and the history of
    what became of everything that entered them.  Both acceptors are made of these. */
module Rendezvous {

  type Conn = nat
  type Op = nat

  /** What became of a connection that had been queued, and of an accept operation. */
  datatype ConnFate = Delivered(conn: Conn, op: Op) | Closed(conn: Conn)
  datatype OpFate = Served(op: Op, conn: Conn) | Cancelled(op: Op)

  /** `connLog` and `opLog` are the queue heads taken, in order; a connection that arrives is
      either admitted to the queue or dropped at once. */
  datatype History = History(connLog: seq<ConnFate>, opLog: seq<OpFate>, arrived: seq<Conn>,
                             admitted: seq<Conn>, dropped: seq<Conn>, issued: seq<Op>)

  datatype Desk = Desk(connections: seq<Conn>, accepts: seq<Op>, history: History)

  const BLANK: History := History([], [], [], [], [], [])

  // ------------------------------------------------------------- what happens

  function Admit(d: Desk, c: Conn): Desk
  {
    var h := d.history;
    d.(connections := d.connections + [c],
       history := h.(arrived := h.arrived + [c], admitted := h.admitted + [c]))
  }

  function Drop(h: History, c: Conn): History
  {
    h.(arrived := h.arrived + [c], dropped := h.dropped + [c])
  }

  function Issue(d: Desk, op: Op): Desk
  {
    d.(accepts := d.accepts + [op], history := d.history.(issued := d.history.issued + [op]))
  }

  /** Both heads leave together: the connection goes to the operation. */
  function Meet(d: Desk): Desk
    requires d.connections != [] && d.accepts != []
  {
    var h, c, op := d.history, d.connections[0], d.accepts[0];
    Desk(d.connections[1..], d.accepts[1..],
         h.(connLog := h.connLog + [Delivered(c, op)], opLog := h.opLog + [Served(op, c)]))
  }

  function CancelFirst(d: Desk): Desk
    requires d.accepts != []
  {
    var h := d.history;
    d.(accepts := d.accepts[1..], history := h.(opLog := h.opLog + [Cancelled(d.accepts[0])]))
  }

  function Cancels(ops: seq<Op>): (r: seq<OpFate>)
    ensures |r| == |ops|
  {
    seq(|ops|, i requires 0 <= i < |ops| => Cancelled(ops[i]))
  }

  function Closes(conns: seq<Conn>): (r: seq<ConnFate>)
    ensures |r| == |conns|
  {
    seq(|conns|, i requires 0 <= i < |conns| => Closed(conns[i]))
  }

  function CancelAll(d: Desk): Desk
  {
    d.(accepts := [], history := d.history.(opLog := d.history.opLog + Cancels(d.accepts)))
  }

  function CloseAll(d: Desk): Desk
  {
    d.(connections := [], history := d.history.(connLog := d.history.connLog + Closes(d.connections)))
  }

  // ---------------------------------------------------------- what always holds

  function Conns(log: seq<ConnFate>): (r: seq<Conn>)
    ensures |r| == |log|
  {
    seq(|log|, i requires 0 <= i < |log| => log[i].conn)
  }

  function Ops(log: seq<OpFate>): (r: seq<Op>)
    ensures |r| == |log|
  {
    seq(|log|, i requires 0 <= i < |log| => log[i].op)
  }

  datatype Match = Match(conn: Conn, op: Op)

  /** The matches a log tells of, in order. */
  function Deliveries(log: seq<ConnFate>): seq<Match>
  {
    if log == [] then []
    else
      var last := log[|log| - 1];
      Deliveries(log[..|log| - 1]) + (if last.Delivered? then [Match(last.conn, last.op)] else [])
  }

  function Services(log: seq<OpFate>): seq<Match>
  {
    if log == [] then []
    else
      var last := log[|log| - 1];
      Services(log[..|log| - 1]) + (if last.Served? then [Match(last.conn, last.op)] else [])
  }

  /** Both queues are first in, first out; the two logs tell of the same matches in the same
      order; and each connection that arrived was either admitted or dropped. */
  ghost predicate Orderly(d: Desk)
  {
    var h := d.history;
    && Conns(h.connLog) + d.connections == h.admitted
    && Ops(h.opLog) + d.accepts == h.issued
    && Deliveries(h.connLog) == Services(h.opLog)
    && multiset(h.arrived) == multiset(h.admitted) + multiset(h.dropped)
  }

  lemma BlankIsOrderly()
    ensures Orderly(Desk([], [], BLANK))
  {
  }

  lemma AdmitKeepsOrderly(d: Desk, c: Conn)
    requires Orderly(d)
    ensures Orderly(Admit(d, c))
  {
    hide Deliveries, Services, Conns, Ops;
    assert Conns(d.history.connLog) + (d.connections + [c]) == d.history.admitted + [c];
  }

  lemma DropKeepsOrderly(d: Desk, c: Conn)
    requires Orderly(d)
    ensures Orderly(d.(history := Drop(d.history, c)))
  {
    hide Deliveries, Services, Conns, Ops;
  }

  lemma IssueKeepsOrderly(d: Desk, op: Op)
    requires Orderly(d)
    ensures Orderly(Issue(d, op))
  {
    hide Deliveries, Services, Conns, Ops;
    assert Ops(d.history.opLog) + (d.accepts + [op]) == d.history.issued + [op];
  }

  lemma OneMoreConn(log: seq<ConnFate>, f: ConnFate)
    ensures Conns(log + [f]) == Conns(log) + [f.conn]
    ensures Deliveries(log + [f]) ==
            Deliveries(log) + (if f.Delivered? then [Match(f.conn, f.op)] else [])
  {
    assert (log + [f])[..|log|] == log;
  }

  lemma OneMoreOp(log: seq<OpFate>, f: OpFate)
    ensures Ops(log + [f]) == Ops(log) + [f.op]
    ensures Services(log + [f]) == Services(log) + (if f.Served? then [Match(f.conn, f.op)] else [])
  {
    assert (log + [f])[..|log|] == log;
  }

  lemma ShiftHead<T>(log: seq<T>, queue: seq<T>)
    requires queue != []
    ensures (log + [queue[0]]) + queue[1..] == log + queue
  {
  }

  lemma MeetKeepsOrderly(d: Desk)
    requires Orderly(d) && d.connections != [] && d.accepts != []
    ensures Orderly(Meet(d))
  {
    hide Deliveries, Services, Conns, Ops;
    var h, c, op := d.history, d.connections[0], d.accepts[0];
    OneMoreConn(h.connLog, Delivered(c, op));
    OneMoreOp(h.opLog, Served(op, c));
    ShiftHead(Conns(h.connLog), d.connections);
    ShiftHead(Ops(h.opLog), d.accepts);
  }

  lemma CancelFirstKeepsOrderly(d: Desk)
    requires Orderly(d) && d.accepts != []
    ensures Orderly(CancelFirst(d))
  {
    hide Deliveries, Services, Conns, Ops;
    OneMoreOp(d.history.opLog, Cancelled(d.accepts[0]));
    ShiftHead(Ops(d.history.opLog), d.accepts);
  }

  lemma {:induction false} ClosesDeliverNothing(log: seq<ConnFate>, conns: seq<Conn>)
    ensures Deliveries(log + Closes(conns)) == Deliveries(log)
    ensures Conns(log + Closes(conns)) == Conns(log) + conns
    decreases |conns|
  {
    if conns == [] {
      assert log + Closes(conns) == log;
    } else {
      var before := conns[..|conns| - 1];
      ClosesDeliverNothing(log, before);
      assert log + Closes(conns) == (log + Closes(before)) + [Closed(conns[|conns| - 1])];
      OneMoreConn(log + Closes(before), Closed(conns[|conns| - 1]));
      assert conns == before + [conns[|conns| - 1]];
    }
  }

  lemma {:induction false} CancelsServeNothing(log: seq<OpFate>, ops: seq<Op>)
    ensures Services(log + Cancels(ops)) == Services(log)
    ensures Ops(log + Cancels(ops)) == Ops(log) + ops
    decreases |ops|
  {
    if ops == [] {
      assert log + Cancels(ops) == log;
    } else {
      var before := ops[..|ops| - 1];
      CancelsServeNothing(log, before);
      assert log + Cancels(ops) == (log + Cancels(before)) + [Cancelled(ops[|ops| - 1])];
      OneMoreOp(log + Cancels(before), Cancelled(ops[|ops| - 1]));
      assert ops == before + [ops[|ops| - 1]];
    }
  }

  lemma CleanKeepsOrderly(d: Desk)
    requires Orderly(d)
    ensures Orderly(CancelAll(d)) && Orderly(CloseAll(d))
  {
    hide Deliveries, Services, Conns, Ops;
    CancelsServeNothing(d.history.opLog, d.accepts);
    ClosesDeliverNothing(d.history.connLog, d.connections);
    assert d.history.issued + [] == d.history.issued;
    assert d.history.admitted + [] == d.history.admitted;
  }

  /** The oldest connection has gone to the oldest accept operation. */
  ghost predicate HeadsMet(d: Desk, g: Desk)
  {
    && d.connections != [] && d.accepts != []
    && d.connections == [d.connections[0]] + g.connections && d.accepts == [d.accepts[0]] + g.accepts
    && g.history.connLog == d.history.connLog + [Delivered(d.connections[0], d.accepts[0])]
    && g.history.opLog == d.history.opLog + [Served(d.accepts[0], d.connections[0])]
  }

  lemma HeadsMeet(d: Desk)
    requires d.connections != [] && d.accepts != []
    ensures HeadsMet(d, Meet(d))
  {
  }

  /** Every queued accept is cancelled, in order, and nothing else changes. */
  ghost predicate AllCancelled(d: Desk, g: Desk)
  {
    && g.accepts == [] && g.connections == d.connections && g.history.connLog == d.history.connLog
    && |g.history.opLog| == |d.history.opLog| + |d.accepts| && d.history.opLog <= g.history.opLog
    && (forall i :: 0 <= i < |d.accepts| ==> g.history.opLog[|d.history.opLog| + i] == Cancelled(d.accepts[i]))
  }

  /** Every queued connection is closed, in order, and nothing else changes. */
  ghost predicate AllClosed(d: Desk, g: Desk)
  {
    && g.connections == [] && g.accepts == d.accepts && g.history.opLog == d.history.opLog
    && |g.history.connLog| == |d.history.connLog| + |d.connections| && d.history.connLog <= g.history.connLog
    && (forall i :: 0 <= i < |d.connections| ==>
          g.history.connLog[|d.history.connLog| + i] == Closed(d.connections[i]))
  }

  lemma CleaningEmpties(d: Desk)
    ensures AllCancelled(d, CancelAll(d)) && AllClosed(d, CloseAll(d))
  {
  }

  /** Each connection that arrived is in exactly one place: taken (delivered or closed),
      queued, or dropped; each accept issued was taken (served or cancelled) or is queued. */
  lemma EachInOnePlace(d: Desk)
    requires Orderly(d)
    ensures multiset(d.history.arrived) ==
            multiset(Conns(d.history.connLog)) + multiset(d.connections) + multiset(d.history.dropped)
    ensures multiset(d.history.issued) == multiset(Ops(d.history.opLog)) + multiset(d.accepts)
  {
    hide Deliveries, Services, Conns, Ops;
  }
}
