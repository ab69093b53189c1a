/** Circuit correctness: running a compiled query over the wire, relay by relay,
    is the same as walking the configured route. */
module CircuitRoute {
  import opened MessagePack
  import opened ParameterStack
  import opened StringFrame
  import opened Circuit
  import opened CircuitQuery
  import opened CircuitSize
  import CNumerals

  // ------------------------------------------------------ the reference: a walk

  /** The endpoint a node dials for a hop: its own layers and the hop's address. */
  function DialFrom(me: ServerConfig, hop: Host): Dial
  {
    Dial(me.tls, me.proxy, PhysicalLayer(hop))
  }

  /** Walking the remaining hops one by one, without queries, strings or limits. */
  function Walk(net: Net, me: ServerConfig, hops: seq<Host>): Journey
    decreases hops
  {
    if hops == [] then (if me.bound then Accepted(LOCAL_ID) else Refused)
    else
      var dial := DialFrom(me, hops[0]);
      if !net.resolves(dial) then Refused
      else match net.at(hops[0])
        case None => Onward(dial, Refused)
        case Some(next) => Onward(dial, Walk(net, next, hops[1..]))
  }

  /** Whether every step of the route can be taken and its end accepts. */
  predicate Passable(net: Net, me: ServerConfig, hops: seq<Host>)
    decreases hops
  {
    if hops == [] then me.bound
    else net.resolves(DialFrom(me, hops[0]))
         && net.at(hops[0]).Some? && Passable(net, net.at(hops[0]).value, hops[1..])
  }

  /** The node that dials the i-th hop of a route. */
  function Dialler(net: Net, me: ServerConfig, hops: seq<Host>, i: nat): Option<ServerConfig>
    requires i < |hops|
  {
    if i == 0 then Some(me)
    else match net.at(hops[i - 1]) case None => None case Some(s) => Some(s)
  }

  lemma HostOfDial(me: ServerConfig, hop: Host)
    ensures HostOf(DialFrom(me, hop)) == hop
  {
    KeysDiffer();
  }

  /** A walk dials a prefix of the route and is accepted exactly when the whole route
      is passable; the accepting end then sees the id "-1". */
  lemma {:induction false} WalkVisitsRoute(net: Net, me: ServerConfig, hops: seq<Host>)
    ensures var j := Walk(net, me, hops);
            && Hosts(Dials(j)) <= hops
            && (End(j).Accepted? <==> Passable(net, me, hops))
            && (End(j).Accepted? ==> Hosts(Dials(j)) == hops && End(j).id == LOCAL_ID)
    decreases hops
  {
    hide Serialize;
    var j := Walk(net, me, hops);
    if j.Onward? {
      HostOfDial(me, hops[0]);
      if net.at(hops[0]).Some? {
        var next: ServerConfig := net.at(hops[0]).value;
        var k := Walk(net, next, hops[1..]);
        WalkVisitsRoute(net, next, hops[1..]);
        HostsCons(DialFrom(me, hops[0]), Dials(k));
        assert hops == [hops[0]] + hops[1..];
      } else {
        HostsCons(DialFrom(me, hops[0]), []);
      }
    }
  }

  lemma HostsCons(d: Dial, ds: seq<Dial>)
    ensures Hosts([d] + ds) == [HostOf(d)] + Hosts(ds)
  {
  }

  /** Each dial of a walk uses the layers of the node that has just been reached. */
  lemma {:induction false} WalkDials(net: Net, me: ServerConfig, hops: seq<Host>, i: nat)
    requires i < |hops|
    ensures var dials, d := Dials(Walk(net, me, hops)), Dialler(net, me, hops, i);
            i < |dials| ==> d.Some? && dials[i] == DialFrom(d.value, hops[i])
    decreases hops
  {
    hide Serialize;
    if i > 0 && net.at(hops[0]).Some? {
      var next: ServerConfig := net.at(hops[0]).value;
      WalkDials(net, next, hops[1..], i - 1);
    }
  }

  // ----------------------------------------------------------- reading tickets

  lemma ForwardFlags()
    ensures CNumerals.StoulOf("1") == CNumerals.Number(1)
    ensures CNumerals.StoulOf("0") == CNumerals.Number(0)
  {
    CNumerals.StrtoulOfDecimal(1, "");
    CNumerals.StrtoulOfDecimal(0, "");
    assert CNumerals.ToDecimal(1) + "" == "1" && CNumerals.ToDecimal(0) + "" == "0";
  }

  /** The substituted stack of a hop: the relay's own TLS and proxy layers where the
      client asked for defaults, every other layer as the client wrote it. */
  lemma SubstituteHop(server: ServerConfig, rest: string, hop: Host)
    ensures Substitute(HopStack(rest, hop), DefaultsOf(server)) ==
            [ForwardLayer(rest), server.tls, server.proxy, PhysicalLayer(hop)]
  {
    KeysDiffer();
    assert "default" !in ForwardLayer(rest) && "default" !in PhysicalLayer(hop);
  }

  /** What a server makes of a ticket: peel one level, or accept at the end. */
  lemma DecideTicket(resolves: Dial -> bool, server: ServerConfig, hops: seq<Host>)
    ensures Ticket(hops).Some? ==>
              Decide(resolves, DefaultsOf(server), Ticket(hops).value) ==
              if hops == [] then Accept(Context(false, "", "", LOCAL_ID))
              else if !resolves(DialFrom(server, hops[0])) then Refuse
              else Relay(DialFrom(server, hops[0]), Ticket(hops[1..]).value)
  {
    hide Serialize, Unserialize, CNumerals.StoulOf;
    if Ticket(hops).Some? {
      KeysDiffer();
      ForwardFlags();
      if hops == [] {
        SerializeRoundTrip([DESTINATION_LAYER]);
      } else {
        var rest := Ticket(hops[1..]).value;
        SerializeRoundTrip(HopStack(rest, hops[0]));
        SubstituteHop(server, rest, hops[0]);
      }
    }
  }

  // ------------------------------------------------------------- the refinement

  /** A server that gets the ticket for some hops walks those hops. */
  lemma {:induction false} HandleTicket(net: Net, server: Server, hops: seq<Host>)
    requires MessageLength(hops) <= SIZE_LIMIT
    ensures Ticket(hops).Some?
    ensures Handle(net, server, Ticket(hops).value) == Walk(net, server, hops)
    decreases |hops|, 0
  {
    hide Decide, Serialize, Arrive;
    ShortCompiles(hops);
    TicketLength(hops);
    DecideTicket(net.resolves, server, hops);
    if hops != [] { ArriveTicket(net, server, hops[0], hops[1..]); }
  }

  lemma {:induction false} ArriveTicket(net: Net, me: ServerConfig, hop: Host, hops: seq<Host>)
    requires MessageLength(hops) <= SIZE_LIMIT
    ensures Ticket(hops).Some?
    ensures Arrive(net, DialFrom(me, hop), Ticket(hops).value) ==
            match net.at(hop) case None => Refused case Some(s) => Walk(net, s, hops)
    decreases |hops|, 1
  {
    hide Handle, SendString, ReceiveString, Ticket, MessageLength;
    ShortCompiles(hops);
    TicketLength(hops);
    HostOfDial(me, hop);
    var m := Ticket(hops).value;
    DeliveryExact(m, "");
    assert SendString(m) + "" == SendString(m);
    if net.at(hop).Some? { HandleTicket(net, net.at(hop).value, hops); }
  }

  /** A ticket over the limit is refused by the first node that is sent it, also
      when its size field wraps around and it arrives cut short. */
  lemma OversizedTicketIsRefused(net: Net, dial: Dial, hops: seq<Host>)
    requires MessageLength(hops) > SIZE_LIMIT
    ensures Ticket(hops).Some? ==> Arrive(net, dial, Ticket(hops).value) == Refused
  {
    hide SendString, ReceiveString, Unserialize, CNumerals.StoulOf, MessageLength;
    if Ticket(hops).Some? {
      TicketLength(hops);
      var m := Ticket(hops).value;
      DeliveryExact(m, "");
      assert SendString(m) + "" == SendString(m);
      var n := |m| % MAX_SIZE;
      if n <= SIZE_LIMIT {
        assert exists stack :: Serialize(stack) == Some(m) by { TicketIsSerialized(hops); }
        var stack :| Serialize(stack) == Some(m);
        TruncationIsRejected(stack, n);
      }
    }
  }

  lemma TicketIsSerialized(hops: seq<Host>)
    ensures Ticket(hops).Some? ==> exists stack :: Serialize(stack) == Ticket(hops)
  {
    if hops == [] {
      assert Serialize([DESTINATION_LAYER]) == Ticket(hops);
    } else if Ticket(hops[1..]).Some? {
      assert Serialize(HopStack(Ticket(hops[1..]).value, hops[0])) == Ticket(hops);
    }
  }

  /** The client as a walker: it dials with its own layers. */
  function Walker(config: ClientConfig): ServerConfig
  {
    ServerConfig(config.tls, config.proxy, false)
  }

  /** Making the client's query and running it; without a query nothing happens. */
  function Connect(net: Net, config: ClientConfig, route: seq<Host>): Journey
    requires route != []
  {
    match Query(config, route) case None => Refused case Some(query) => RunQuery(net, query)
  }

  /** An oversized message: the first host is dialled if it can be, and refuses. */
  lemma OversizedRun(net: Net, config: ClientConfig, route: seq<Host>)
    requires route != [] && MessageLength(route[1..]) > SIZE_LIMIT
    ensures var dial := DialFrom(Walker(config), route[0]);
            Connect(net, config, route) ==
            if Ticket(route[1..]).Some? && net.resolves(dial) then Onward(dial, Refused) else Refused
  {
    hide Arrive, Serialize, CNumerals.StoulOf, MessageLength, Ticket;
    KeysDiffer();
    var dial := DialFrom(Walker(config), route[0]);
    if Ticket(route[1..]).Some? {
      var query := Query(config, route).value;
      assert Dial(query[2], query[3], query[4]) == dial;
      assert MakeContext(query[1]).forwardBlocks == Ticket(route[1..]).value;
      OversizedTicketIsRefused(net, dial, route[1..]);
    }
  }

  /** Connecting is walking the route, provided the one string the client sends is within
      the receivers' limit; otherwise no host after the first is dialled. */
  lemma RunIsWalk(net: Net, config: ClientConfig, route: seq<Host>)
    requires route != []
    ensures var run := Connect(net, config, route);
            if MessageLength(route[1..]) <= SIZE_LIMIT then run == Walk(net, Walker(config), route)
            else !End(run).Accepted? && Hosts(Dials(run)) <= route[..1]
  {
    hide Arrive, Serialize, CNumerals.StoulOf, MessageLength, Ticket;
    KeysDiffer();
    var me, hops := Walker(config), route[1..];
    var dial := DialFrom(me, route[0]);
    HostOfDial(me, route[0]);
    if MessageLength(hops) <= SIZE_LIMIT {
      ArriveTicket(net, me, route[0], hops);
      var query := Query(config, route).value;
      assert Dial(query[2], query[3], query[4]) == dial;
      assert MakeContext(query[1]).forwardBlocks == Ticket(hops).value;
    } else {
      OversizedRun(net, config, route);
      assert Hosts([dial]) == [route[0]] == route[..1];
    }
  }

  /** Circuit correctness, for every configured hop list, target, network and client: the
      hosts dialled are always a prefix of the configured route in order; the
      connection is accepted exactly when the route is passable and the message, whose length
      is a function of the lengths of addresses and ports, is at most 1 MiB; and then every
      hop was visited, each with the dialling node's own TLS and proxy layers, and the target
      sees the id "-1". */
  lemma CircuitVisitsRoute(net: Net, config: ClientConfig, configured: seq<Host>, target: Host)
    ensures var route := configured + [target];
            var run := Connect(net, config, route);
            && Hosts(Dials(run)) <= route
            && (End(run).Accepted? <==>
                  Passable(net, Walker(config), route) && MessageLength(route[1..]) <= 1024 * 1024)
            && (End(run).Accepted? ==>
                  && Hosts(Dials(run)) == route && End(run).id == "-1"
                  && Dials(run)[0] == DialFrom(Walker(config), route[0])
                  && forall i :: 0 <= i < |configured| ==>
                       net.at(route[i]).Some? &&
                       Dials(run)[i + 1] == DialFrom(net.at(route[i]).value, route[i + 1]))
  {
    hide Serialize, Connect, MessageLength, Walk, Passable, Dials, End;
    var route := configured + [target];
    var run := Connect(net, config, route);
    RunIsWalk(net, config, route);
    WalkVisitsRoute(net, Walker(config), route);
    if End(run).Accepted? {
      assert |Dials(run)| == |Hosts(Dials(run))| == |route|;
      FullWalkDials(net, Walker(config), route);
    }
  }

  /** The dials of a walk that goes all the way. */
  lemma FullWalkDials(net: Net, me: ServerConfig, route: seq<Host>)
    requires route != []
    ensures var dials := Dials(Walk(net, me, route));
            |dials| == |route| ==>
              && dials[0] == DialFrom(me, route[0])
              && forall i :: 0 <= i < |route| - 1 ==>
                   net.at(route[i]).Some? &&
                   dials[i + 1] == DialFrom(net.at(route[i]).value, route[i + 1])
  {
    hide Serialize, Walk, Dials;
    var dials := Dials(Walk(net, me, route));
    if |dials| == |route| {
      WalkDials(net, me, route, 0);
      forall i | 0 <= i < |route| - 1
        ensures net.at(route[i]).Some? && dials[i + 1] == DialFrom(net.at(route[i]).value, route[i + 1])
      {
        WalkDials(net, me, route, i + 1);
      }
    }
  }

  // ------------------------------------------------ what the route depends on

  /** Two networks that differ at most in TLS and proxy layers: the same hosts listen, are
      bound alike, and an endpoint resolves in both or in neither, going by its host. */
  ghost predicate SameButLayers(a: Net, b: Net)
  {
    && (forall h :: (a.at(h).Some? <==> b.at(h).Some?)
                    && (a.at(h).Some? ==> a.at(h).value.bound == b.at(h).value.bound))
    && (forall d, e :: HostOf(d) == HostOf(e) ==> a.resolves(d) == b.resolves(e))
  }

  lemma {:induction false} WalkIgnoresLayers(a: Net, b: Net, ma: ServerConfig, mb: ServerConfig,
                                             hops: seq<Host>)
    requires SameButLayers(a, b) && ma.bound == mb.bound
    ensures var walkA, walkB := Walk(a, ma, hops), Walk(b, mb, hops);
            Hosts(Dials(walkA)) == Hosts(Dials(walkB)) && End(walkA) == End(walkB)
    decreases hops
  {
    hide Serialize;
    if hops != [] {
      var da, db := DialFrom(ma, hops[0]), DialFrom(mb, hops[0]);
      HostOfDial(ma, hops[0]);
      HostOfDial(mb, hops[0]);
      assert a.resolves(da) == b.resolves(db);
      if a.at(hops[0]).Some? {
        var na: ServerConfig, nb: ServerConfig := a.at(hops[0]).value, b.at(hops[0]).value;
        WalkIgnoresLayers(a, b, na, nb, hops[1..]);
        HostsCons(da, Dials(Walk(a, na, hops[1..])));
        HostsCons(db, Dials(Walk(b, nb, hops[1..])));
      } else {
        assert Hosts([da]) == [hops[0]] == Hosts([db]);
      }
    }
  }

  /** The visited hosts and the outcome do not depend on anyone's TLS or proxy layers, the
      client's own included: over two networks that differ in nothing else they are the same
      for every route, whether the run is accepted, refused on the way, or refused because
      its message is oversized. */
  lemma RouteIgnoresLayers(a: Net, b: Net, ca: ClientConfig, cb: ClientConfig,
                           configured: seq<Host>, target: Host)
    requires SameButLayers(a, b)
    ensures var route := configured + [target];
            var runA, runB := Connect(a, ca, route), Connect(b, cb, route);
            Hosts(Dials(runA)) == Hosts(Dials(runB)) && End(runA) == End(runB)
  {
    hide Connect, MessageLength, Ticket;
    var route := configured + [target];
    if MessageLength(route[1..]) <= SIZE_LIMIT {
      RunIsWalk(a, ca, route);
      RunIsWalk(b, cb, route);
      WalkIgnoresLayers(a, b, Walker(ca), Walker(cb), route);
    } else {
      OversizedRun(a, ca, route);
      OversizedRun(b, cb, route);
      var da, db := DialFrom(Walker(ca), route[0]), DialFrom(Walker(cb), route[0]);
      HostOfDial(Walker(ca), route[0]);
      HostOfDial(Walker(cb), route[0]);
      assert a.resolves(da) == b.resolves(db);
      assert Hosts([da]) == [route[0]] == Hosts([db]);
    }
  }

  /** Once a message of any content has passed the limit, so does every message a
      relay derives from it, and the next node receives that message whole. */
  lemma LaterMessagesFit(resolves: Dial -> bool, server: Server, received: string, after: string)
    requires |received| <= SIZE_LIMIT
    ensures var d := Decide(resolves, DefaultsOf(server), received);
            d.Relay? ==>
              |d.message| < |received| && ReceiveString(SendString(d.message) + after) == Got(d.message, after)
  {
    hide Decide;
    var d := Decide(resolves, DefaultsOf(server), received);
    RelayedStringShrinks(resolves, DefaultsOf(server), received);
    if d.Relay? { DeliveryExact(d.message, after); }
  }

  /** The TCP-only build pairs stacks of depth three with defaults of depth two, so a
      relay there never substitutes anything: "default" layers stay as they are. */
  lemma TcpDefaultsNeverApply(rest: string, hop: Host, proxy: LayerParameters)
    ensures Substitute([ForwardLayer(rest), DEFAULT_LAYER, PhysicalLayer(hop)], [proxy, map[]])
            == [ForwardLayer(rest), DEFAULT_LAYER, PhysicalLayer(hop)]
  {
  }
}
