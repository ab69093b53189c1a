/** The circuit acceptor's rendezvous (basic_circuit_acceptor_service.h): one pair of
    queues per local endpoint, and one handler whose run serves every endpoint once. */
module CircuitAcceptor {
  import opened Rendezvous

  type Place = nat    // a next-layer local endpoint

  /** A place is bound while it has a connection queue; the history of a place goes on
      through every bind, unbind and cleaning of it. */
  datatype Acceptor = Acceptor(connections: map<Place, seq<Conn>>, accepts: map<Place, seq<Op>>,
                               tokens: nat, history: map<Place, History>)

  const FRESH: Acceptor := Acceptor(map[], map[], 0, map[])

  datatype Event =
    | Bind(place: Place)
    | Arrive(place: Place, conn: Conn)
    | Accept(place: Place, op: Op)
    | Fire
    | Unbind(place: Place)
    | CleanAccepts(place: Place)

  function At<T>(m: map<Place, seq<T>>, p: Place): seq<T>
  {
    if p in m then m[p] else []
  }

  function Past(m: map<Place, History>, p: Place): History
  {
    if p in m then m[p] else BLANK
  }

  /** The two queues and the history of one place. */
  function DeskAt(a: Acceptor, p: Place): Desk
  {
    Desk(At(a.connections, p), At(a.accepts, p), Past(a.history, p))
  }

  function Min(a: nat, b: nat): nat { if a <= b then a else b }

  predicate Ready(a: Acceptor, p: Place)
  {
    DeskAt(a, p).connections != [] && DeskAt(a, p).accepts != []
  }

  // -------------------------------------------------------------- a handler run

  ghost function ReadyIn(a: Acceptor, places: set<Place>): set<Place>
  {
    set p | p in places && Ready(a, p)
  }

  /** The queues of `m` with the head removed at the given places. */
  function Popped<T>(m: map<Place, seq<T>>, places: set<Place>): map<Place, seq<T>>
  {
    map p | p in m :: if p in places && m[p] != [] then m[p][1..] else m[p]
  }

  /** The histories after both heads have met at each of the given places. */
  function Met(a: Acceptor, places: set<Place>): map<Place, History>
  {
    a.history + map p | p in places && Ready(a, p) :: Meet(DeskAt(a, p)).history
  }

  /** Matching one pair at each ready endpoint among `places`, posting a run for each. */
  ghost function MatchAt(a: Acceptor, places: set<Place>): Acceptor
  {
    var ready := ReadyIn(a, places);
    Acceptor(Popped(a.connections, ready), Popped(a.accepts, ready), a.tokens + |ready|, Met(a, ready))
  }

  lemma PoppedAt<T>(m: map<Place, seq<T>>, places: set<Place>, p: Place)
    ensures At(Popped(m, places), p) ==
            if p in places && At(m, p) != [] then At(m, p)[1..] else At(m, p)
    ensures Popped(m, places).Keys == m.Keys
  {
  }

  lemma PoppedMore<T>(m: map<Place, seq<T>>, places: set<Place>, p: Place)
    requires p !in places && p in m && m[p] != []
    ensures Popped(m, places + {p}) == Popped(m, places)[p := m[p][1..]]
  {
  }

  lemma MetAt(a: Acceptor, places: set<Place>, p: Place)
    ensures Past(Met(a, places), p) ==
            if p in places && Ready(a, p) then Meet(DeskAt(a, p)).history else Past(a.history, p)
  {
    hide Meet;
  }

  lemma MetMore(a: Acceptor, places: set<Place>, p: Place)
    requires Ready(a, p)
    ensures Met(a, places + {p}) == Met(a, places)[p := Meet(DeskAt(a, p)).history]
  {
    hide Meet;
  }

  /** A handler run lets both heads meet at each ready place and leaves the others alone. */
  lemma DeskMatched(a: Acceptor, places: set<Place>, p: Place)
    ensures DeskAt(MatchAt(a, places), p) ==
            if p in places && Ready(a, p) then Meet(DeskAt(a, p)) else DeskAt(a, p)
  {
    hide Popped, Met;
    var ready := ReadyIn(a, places);
    PoppedAt(a.connections, ready, p);
    PoppedAt(a.accepts, ready, p);
    MetAt(a, ready, p);
  }

  // ------------------------------------------------------------------ the steps

  ghost function Step(a: Acceptor, e: Event): Acceptor
  {
    match e
    case Bind(p) => if p in a.connections then a else a.(connections := a.connections[p := []])
    case Arrive(p, c) =>
      if p !in a.connections then a.(history := a.history[p := Drop(Past(a.history, p), c)])
      else
        var d := Admit(DeskAt(a, p), c);
        a.(connections := a.connections[p := d.connections], history := a.history[p := d.history],
           tokens := a.tokens + 1)
    case Accept(p, op) =>
      var d := Issue(DeskAt(a, p), op);
      a.(accepts := a.accepts[p := d.accepts], history := a.history[p := d.history],
         tokens := a.tokens + 1)
    case Fire =>
      if a.tokens == 0 then a
      else MatchAt(a.(tokens := a.tokens - 1), a.connections.Keys)
    case Unbind(p) =>
      a.(connections := a.connections - {p}, history := a.history[p := CloseAll(DeskAt(a, p)).history])
    case CleanAccepts(p) =>
      a.(accepts := a.accepts - {p}, history := a.history[p := CancelAll(DeskAt(a, p)).history])
  }

  ghost function Run(a: Acceptor, events: seq<Event>): Acceptor
  {
    if events == [] then a else Step(Run(a, events[..|events| - 1]), events[|events| - 1])
  }

  /** What an event does at one place: it is about another place, or it is one of the things
      that happen at a rendezvous. */
  function DeskStep(d: Desk, bound: bool, running: bool, e: Event): Desk
  {
    match e
    case Bind(_) => d
    case Arrive(_, c) => if bound then Admit(d, c) else d.(history := Drop(d.history, c))
    case Accept(_, op) => Issue(d, op)
    case Fire => if running && d.connections != [] && d.accepts != [] then Meet(d) else d
    case Unbind(_) => CloseAll(d)
    case CleanAccepts(_) => CancelAll(d)
  }

  predicate Concerns(e: Event, p: Place)
  {
    e.Fire? || e.place == p
  }

  /** Seen from one place, a step of the service is a step of that place's rendezvous. */
  lemma StepAtPlace(a: Acceptor, e: Event, p: Place)
    ensures DeskAt(Step(a, e), p) ==
            if Concerns(e, p) then DeskStep(DeskAt(a, p), p in a.connections, a.tokens > 0, e)
            else DeskAt(a, p)
  {
    hide MatchAt, Meet;
    if e.Fire? && a.tokens > 0 { DeskMatched(a.(tokens := a.tokens - 1), a.connections.Keys, p); }
  }

  // --------------------------------------------------------------- invariants

  /** At one endpoint: enough runs for every possible match, and an orderly rendezvous. */
  ghost predicate Fine(a: Acceptor, p: Place)
  {
    && Min(|DeskAt(a, p).connections|, |DeskAt(a, p).accepts|) <= a.tokens
    && Orderly(DeskAt(a, p))
  }

  ghost predicate Inv(a: Acceptor)
  {
    forall p: Place :: Fine(a, p)
  }

  lemma DeskStepKeepsOrderly(d: Desk, bound: bool, running: bool, e: Event)
    requires Orderly(d)
    ensures Orderly(DeskStep(d, bound, running, e))
  {
    hide Orderly, Admit, Drop, Issue, Meet, CancelAll, CloseAll;
    match e
    case Bind(_) =>
    case Arrive(_, c) =>
      AdmitKeepsOrderly(d, c);
      DropKeepsOrderly(d, c);
    case Accept(_, op) => IssueKeepsOrderly(d, op);
    case Fire => if d.connections != [] && d.accepts != [] { MeetKeepsOrderly(d); }
    case Unbind(_) => CleanKeepsOrderly(d);
    case CleanAccepts(_) => CleanKeepsOrderly(d);
  }

  /** A run removes one token and adds one for each match. */
  lemma TokensOfStep(a: Acceptor, e: Event, p: Place)
    ensures var t := Step(a, e).tokens;
            && (e.Arrive? && p in a.connections && e.place == p ==> t == a.tokens + 1)
            && (e.Accept? ==> t == a.tokens + 1)
            && (!e.Fire? ==> t >= a.tokens)
            && (e.Fire? && a.tokens > 0 ==> t >= a.tokens - 1 + (if Ready(a, p) then 1 else 0))
            && (e.Fire? && a.tokens == 0 ==> t == 0)
  {
    hide Popped, Met;
    if e.Fire? && a.tokens > 0 && Ready(a, p) {
      assert p in ReadyIn(a.(tokens := a.tokens - 1), a.connections.Keys);
    }
  }

  lemma StepKeepsFine(a: Acceptor, e: Event, p: Place)
    requires Fine(a, p)
    ensures Fine(Step(a, e), p)
  {
    hide Step, Orderly;
    StepAtPlace(a, e, p);
    TokensOfStep(a, e, p);
    DeskStepKeepsOrderly(DeskAt(a, p), p in a.connections, a.tokens > 0, e);
  }

  /** What the events brought to one place. */
  function Arrivals(events: seq<Event>, p: Place): seq<Conn>
  {
    if events == [] then []
    else
      var last := events[|events| - 1];
      Arrivals(events[..|events| - 1], p)
      + (if last.Arrive? && last.place == p then [last.conn] else [])
  }

  function Requests(events: seq<Event>, p: Place): seq<Op>
  {
    if events == [] then []
    else
      var last := events[|events| - 1];
      Requests(events[..|events| - 1], p)
      + (if last.Accept? && last.place == p then [last.op] else [])
  }

  lemma DeskStepRecords(d: Desk, bound: bool, running: bool, e: Event)
    ensures var h, g := d.history, DeskStep(d, bound, running, e).history;
            && g.arrived == h.arrived + (if e.Arrive? then [e.conn] else [])
            && g.issued == h.issued + (if e.Accept? then [e.op] else [])
  {
    hide Cancels, Closes;
  }

  lemma {:induction false} HistoryIsEvents(events: seq<Event>, p: Place)
    ensures var h := DeskAt(Run(FRESH, events), p).history;
            h.arrived == Arrivals(events, p) && h.issued == Requests(events, p)
  {
    if events != [] {
      hide Step, DeskStep;
      var a, e := Run(FRESH, events[..|events| - 1]), events[|events| - 1];
      HistoryIsEvents(events[..|events| - 1], p);
      StepAtPlace(a, e, p);
      DeskStepRecords(DeskAt(a, p), p in a.connections, a.tokens > 0, e);
    }
  }

  lemma {:induction false} RunKeepsFine(events: seq<Event>, p: Place)
    ensures Fine(Run(FRESH, events), p)
  {
    if events == [] {
      BlankIsOrderly();
    } else {
      hide Step, Fine;
      RunKeepsFine(events[..|events| - 1], p);
      StepKeepsFine(Run(FRESH, events[..|events| - 1]), events[|events| - 1], p);
    }
  }

  /** The circuit acceptor, over every interleaving and at every endpoint, through all binds,
      unbinds and cleanings: min(queued connections, queued accepts) never exceeds the
      scheduled runs; connections are taken in the order they were admitted and accepts in the
      order they were issued, and the pairs taken together are the same on both sides; every
      connection that arrived is in exactly one of delivered or closed, queued, or dropped;
      every accept is served, cancelled or queued. */
  lemma RendezvousTheorem(events: seq<Event>, p: Place)
    ensures var a := Run(FRESH, events);
            var d := DeskAt(a, p);
            && Inv(a) && Fine(a, p)
            && multiset(Arrivals(events, p)) ==
               multiset(Conns(d.history.connLog)) + multiset(d.connections) + multiset(d.history.dropped)
            && multiset(Requests(events, p)) == multiset(Ops(d.history.opLog)) + multiset(d.accepts)
  {
    hide Step, Conns, Ops;
    forall q: Place ensures Fine(Run(FRESH, events), q) { RunKeepsFine(events, q); }
    RunKeepsFine(events, p);
    HistoryIsEvents(events, p);
    EachInOnePlace(DeskAt(Run(FRESH, events), p));
  }

  // ----------------------------------------------- who is queued and who is dropped

  /** Whether a place is bound, going by the last bind or unbind of it. */
  predicate Bound(events: seq<Event>, p: Place)
  {
    if events == [] then false
    else
      var last := events[|events| - 1];
      if last.Bind? && last.place == p then true
      else if last.Unbind? && last.place == p then false
      else Bound(events[..|events| - 1], p)
  }

  lemma StepBinds(a: Acceptor, e: Event, p: Place)
    ensures p in Step(a, e).connections <==>
            (e.Bind? && e.place == p) || (p in a.connections && !(e.Unbind? && e.place == p))
  {
    hide Met;
    if e.Fire? && a.tokens > 0 {
      PoppedAt(a.connections, ReadyIn(a.(tokens := a.tokens - 1), a.connections.Keys), p);
    }
  }

  lemma {:induction false} QueueWhileBound(events: seq<Event>, p: Place)
    ensures p in Run(FRESH, events).connections <==> Bound(events, p)
  {
    if events != [] {
      hide Step;
      QueueWhileBound(events[..|events| - 1], p);
      StepBinds(Run(FRESH, events[..|events| - 1]), events[|events| - 1], p);
    }
  }

  /** A connection that arrives at a bound place joins the end of its queue; at any other place
      it is dropped. */
  lemma ArrivalOutcome(events: seq<Event>, p: Place, c: Conn)
    ensures var a, b := DeskAt(Run(FRESH, events), p), DeskAt(Run(FRESH, events + [Arrive(p, c)]), p);
            if Bound(events, p)
            then b.connections == a.connections + [c] && b.history.dropped == a.history.dropped
            else b.connections == a.connections && b.history.dropped == a.history.dropped + [c]
  {
    hide MatchAt;
    assert (events + [Arrive(p, c)])[..|events|] == events;
    QueueWhileBound(events, p);
  }

  /** What a scheduled handler run does at each place: with both sides waiting, the oldest
      connection goes to the oldest accept operation; otherwise nothing happens. */
  lemma HandlerRunMatches(events: seq<Event>, p: Place)
    requires Run(FRESH, events).tokens > 0
    ensures var d, g := DeskAt(Run(FRESH, events), p), DeskAt(Run(FRESH, events + [Fire]), p);
            if d.connections != [] && d.accepts != [] then HeadsMet(d, g) else g == d
  {
    hide Step, DeskAt, Meet, HeadsMet;
    assert (events + [Fire])[..|events|] == events;
    var a := Run(FRESH, events);
    var d := DeskAt(a, p);
    StepAtPlace(a, Fire, p);
    if d.connections != [] && d.accepts != [] { HeadsMeet(d); }
  }

  /** What cleaning and unbinding a place do to it. */
  lemma CleaningSteps(events: seq<Event>, p: Place)
    ensures AllCancelled(DeskAt(Run(FRESH, events), p), DeskAt(Run(FRESH, events + [CleanAccepts(p)]), p))
    ensures AllClosed(DeskAt(Run(FRESH, events), p), DeskAt(Run(FRESH, events + [Unbind(p)]), p))
  {
    hide MatchAt, AllCancelled, AllClosed, Cancels, Closes;
    assert (events + [CleanAccepts(p)])[..|events|] == events;
    assert (events + [Unbind(p)])[..|events|] == events;
    CleaningEmpties(DeskAt(Run(FRESH, events), p));
  }

  /** With no run scheduled, no endpoint has both a connection and an accept waiting. */
  lemma AtRestNoPairWaits(events: seq<Event>, p: Place)
    requires Run(FRESH, events).tokens == 0
    ensures !Ready(Run(FRESH, events), p)
  {
    RunKeepsFine(events, p);
  }

  // ------------------------------------------------------------- as an object

  class AcceptorService {
    var pendingConnections: map<Place, seq<Conn>>
    var pendingAccepts: map<Place, seq<Op>>
    var tokens: nat
    var history: map<Place, History>

    function View(): Acceptor
      reads this
    {
      Acceptor(pendingConnections, pendingAccepts, tokens, history)
    }

    constructor ()
      ensures View() == FRESH
    {
      pendingConnections, pendingAccepts, tokens, history := map[], map[], 0, map[];
    }

    /** do_connection_accept: without a binding the connection is closed. */
    method DoConnectionAccept(place: Place, conn: Conn)
      modifies this
      ensures View() == Step(old(View()), Arrive(place, conn))
    {
      var h := Past(history, place);
      if place !in pendingConnections {
        history := history[place := h.(arrived := h.arrived + [conn], dropped := h.dropped + [conn])];
        return;
      }
      pendingConnections := pendingConnections[place := pendingConnections[place] + [conn]];
      history := history[place := h.(arrived := h.arrived + [conn], admitted := h.admitted + [conn])];
      tokens := tokens + 1;
    }

    method AsyncAccept(place: Place, op: Op)
      modifies this
      ensures View() == Step(old(View()), Accept(place, op))
    {
      var h := Past(history, place);
      pendingAccepts := pendingAccepts[place := At(pendingAccepts, place) + [op]];
      history := history[place := h.(issued := h.issued + [op])];
      tokens := tokens + 1;
    }

    /** connection_queue_handler: goes over all connection queues. */
    method ConnectionQueueHandler()
      requires tokens > 0
      modifies this
      ensures View() == Step(old(View()), Fire)
    {
      hide MatchAt, MatchOne;
      tokens := tokens - 1;
      ghost var start := View();
      ghost var done: set<Place> := {};
      var todo := pendingConnections.Keys;
      MatchNone(start);
      while todo != {}
        modifies this`pendingConnections, this`pendingAccepts, this`tokens, this`history
        invariant todo !! done && todo + done == start.connections.Keys
        invariant View() == MatchAt(start, done)
        decreases todo
      {
        var p :| p in todo;
        MatchOneMore(start, done, p);
        MatchAtPlace(p);
        todo, done := todo - {p}, done + {p};
      }
      assert done == start.connections.Keys;
    }

    /** The body of the loop of connection_queue_handler. */
    method MatchAtPlace(p: Place)
      requires p in pendingConnections
      modifies this`pendingConnections, this`pendingAccepts, this`tokens, this`history
      ensures View() == MatchOne(old(View()), p)
    {
      if pendingConnections[p] == [] || p !in pendingAccepts || pendingAccepts[p] == [] {
        return;
      }
      var conn, op := pendingConnections[p][0], pendingAccepts[p][0];
      pendingConnections := pendingConnections[p := pendingConnections[p][1..]];
      pendingAccepts := pendingAccepts[p := pendingAccepts[p][1..]];
      var h := Past(history, p);
      history := history[p := h.(connLog := h.connLog + [Delivered(conn, op)],
                                 opLog := h.opLog + [Served(op, conn)])];
      tokens := tokens + 1;
    }

    /** The part of bind that makes a connection queue, unless there is one. */
    method BindPlace(place: Place)
      modifies this
      ensures View() == Step(old(View()), Bind(place))
    {
      if place !in pendingConnections {
        pendingConnections := pendingConnections[place := []];
      }
    }

    /** The part of close that erases the connection queue, with the connections in it. */
    method UnbindPlace(place: Place)
      modifies this
      ensures View() == Step(old(View()), Unbind(place))
    {
      var h := Past(history, place);
      history := history[place := h.(connLog := h.connLog + Closes(At(pendingConnections, place)))];
      pendingConnections := pendingConnections - {place};
    }

    /** clean_pending_accepts. */
    method CleanPendingAccepts(place: Place)
      modifies this
      ensures View() == Step(old(View()), CleanAccepts(place))
    {
      var queue, h := At(pendingAccepts, place), Past(history, place);
      ghost var ops, was := queue, h;
      ghost var done := 0;
      while queue != []
        invariant 0 <= done <= |ops| && queue == ops[done..]
        invariant h == was.(opLog := was.opLog + Cancels(ops[..done]))
        decreases |queue|
      {
        assert ops[..done + 1] == ops[..done] + [queue[0]];
        h := h.(opLog := h.opLog + [Cancelled(queue[0])]);
        queue := queue[1..];
        done := done + 1;
      }
      assert ops[..done] == ops;
      history := history[place := h];
      pendingAccepts := pendingAccepts - {place};
    }
  }

  /** Matching at a single endpoint. */
  function MatchOne(a: Acceptor, p: Place): Acceptor
  {
    if !Ready(a, p) then a
    else
      var d := Meet(DeskAt(a, p));
      Acceptor(a.connections[p := d.connections], a.accepts[p := d.accepts], a.tokens + 1,
               a.history[p := d.history])
  }

  lemma MatchNone(a: Acceptor)
    ensures MatchAt(a, {}) == a
  {
    assert ReadyIn(a, {}) == {};
    assert Popped(a.connections, {}) == a.connections && Popped(a.accepts, {}) == a.accepts;
    assert Met(a, {}) == a.history;
  }

  lemma MatchOneMore(a: Acceptor, places: set<Place>, p: Place)
    requires p !in places
    ensures MatchOne(MatchAt(a, places), p) == MatchAt(a, places + {p})
    ensures MatchAt(a, places).connections.Keys == a.connections.Keys
  {
    hide Popped, Met, Meet;
    var ready := ReadyIn(a, places);
    DeskMatched(a, places, p);
    PoppedAt(a.connections, ready, p);
    if Ready(a, p) {
      PoppedMore(a.connections, ready, p);
      PoppedMore(a.accepts, ready, p);
      MetMore(a, ready, p);
      assert ReadyIn(a, places + {p}) == ready + {p};
      MeetQueues(DeskAt(a, p));
    } else {
      assert ReadyIn(a, places + {p}) == ready;
    }
  }

  lemma MeetQueues(d: Desk)
    requires d.connections != [] && d.accepts != []
    ensures Meet(d).connections == d.connections[1..] && Meet(d).accepts == d.accepts[1..]
  {
  }
}
