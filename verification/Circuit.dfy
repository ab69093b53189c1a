/** The relay circuit of the TLS build: what a node does with the string it
    receives, and what a whole chain of nodes does with the client's query
    (simple_circuit_policy.h, basic_circuit_acceptor_service.h, circuit_op.h). */
module Circuit {
  import opened MessagePack
  import opened ParameterStack
  import opened StringFrame
  import CNumerals

  datatype Host = Host(addr: string, port: string)

  /** Endpoint data a node uses to open a connection: its TLS and proxy layers
      and the physical layer naming the peer. */
  datatype Dial = Dial(tls: LayerParameters, proxy: LayerParameters, physical: LayerParameters)

  /** helpers::GetField: an absent key reads as the empty string. */
  function Field(key: string, layer: LayerParameters): string
  {
    if key in layer then layer[key] else ""
  }

  function HostOf(dial: Dial): Host
  {
    Host(Field("addr", dial.physical), Field("port", dial.physical))
  }

  // ----------------------------------------------------- one node's decision

  /** CircuitEndpointContext, without the default parameters. */
  datatype Context = Context(forward: bool, id: string, forwardBlocks: string, details: string)

  /** make_circuit_context: `forward` is a number other than zero; text that is
      not a number counts as not forwarding. */
  function MakeContext(layer: LayerParameters): Context
  {
    var n := CNumerals.StoulOf(Field("forward", layer));
    Context(n.Number? && n.value != 0, Field("circuit_id", layer),
            Field("circuit_nodes", layer), Field("details", layer))
  }

  /** Layers marked "default" are replaced, but only by a stack of equal depth. */
  function Substitute(stack: Stack, defaults: Stack): (r: Stack)
    ensures |r| == |stack|
  {
    if |defaults| == |stack|
    then seq(|stack|, i requires 0 <= i < |stack| =>
                        if "default" in stack[i] then defaults[i] else stack[i])
    else stack
  }

  /** Substitution changes a stack exactly when the depths agree and some layer marked
      "default" is not already the relay's own. */
  lemma SubstituteChangesIff(stack: Stack, defaults: Stack)
    ensures Substitute(stack, defaults) != stack <==>
            |defaults| == |stack| &&
            exists i :: 0 <= i < |stack| && "default" in stack[i] && stack[i] != defaults[i]
  {
    if Substitute(stack, defaults) != stack {
      assert exists i :: 0 <= i < |stack| && Substitute(stack, defaults)[i] != stack[i];
    }
  }

  /** Layers of basic_CircuitProtocol over TLS over proxy over TCP. */
  const STACK_DEPTH: nat := 4

  datatype Decision =
    | Refuse
    | Accept(context: Context)
    | Relay(dial: Dial, message: string)

  /** What the acceptor decides on a received string, given which endpoints can be resolved.
      A stack of one layer is the final endpoint; its endpoint object is never set, so it
      cannot forward.  Any other stack is resolved first, whether it forwards or not. */
  function Decide(resolves: Dial -> bool, defaults: Stack, received: string): Decision
  {
    var stack := Unserialize(received);
    if |stack| == 1 then Accept(MakeContext(stack[0]))
    else
      var full := Substitute(stack, defaults);
      if |full| < STACK_DEPTH then Refuse
      else
        var context, dial := MakeContext(full[0]), Dial(full[1], full[2], full[3]);
        if !resolves(dial) then Refuse
        else if context.forward then Relay(dial, context.forwardBlocks)
        else Accept(context)
  }

  /** The layers a relay works with, one by one. */
  function LayerAt(defaults: Stack, stack: Stack, i: nat): LayerParameters
    requires i < |stack|
  {
    if |defaults| == |stack| && "default" in stack[i] then defaults[i] else stack[i]
  }

  /** What becomes of a message, in terms of the stack that was sent: a single layer is
      accepted; fewer than four layers, or an endpoint that does not resolve, are refused; and
      otherwise the first layer says whether the message is accepted, or what it holds in
      circuit_nodes is relayed to the endpoint of the next three layers. */
  lemma DecideSent(resolves: Dial -> bool, defaults: Stack, stack: Stack)
    ensures Serialize(stack).Some? ==>
              (var d := Decide(resolves, defaults, Serialize(stack).value);
               if |stack| == 1 then d.Accept?
               else if |stack| < 4 then d == Refuse
               else
                 var first := LayerAt(defaults, stack, 0);
                 var dial := Dial(LayerAt(defaults, stack, 1), LayerAt(defaults, stack, 2), LayerAt(defaults, stack, 3));
                 var n := CNumerals.StoulOf(if "forward" in first then first["forward"] else "");
                 var forwards := n.Number? && n.value > 0;
                 && (d == Refuse <==> !resolves(dial))
                 && (d.Accept? <==> resolves(dial) && !forwards)
                 && (d.Relay? ==> d.dial == dial
                                  && d.message == (if "circuit_nodes" in first then first["circuit_nodes"] else ""))
                 && (d.Accept? ==> d.context.details == (if "details" in first then first["details"] else "")))
  {
    hide Serialize, Unserialize, CNumerals.StoulOf;
    if Serialize(stack).Some? {
      SerializeRoundTrip(stack);
      var full := Substitute(stack, defaults);
      assert forall i :: 0 <= i < |stack| ==> full[i] == LayerAt(defaults, stack, i);
    }
  }

  lemma EmptyLayerDoesNotForward()
    ensures !MakeContext(map[]).forward
  {
    assert CNumerals.Digits(""[0..]) == 0;
  }

  /** The string passed on is strictly shorter than any string received, whatever
      bytes it holds, as long as the first default layer is empty. */
  lemma RelayedStringShrinks(resolves: Dial -> bool, defaults: Stack, received: string)
    requires defaults != [] ==> defaults[0] == map[]
    ensures var d := Decide(resolves, defaults, received); d.Relay? ==> |d.message| < |received|
  {
    hide ReadStack, CNumerals.StoulOf;
    EmptyLayerDoesNotForward();
    var stack := Unserialize(received);
    if stack != [] {
      var first := Substitute(stack, defaults)[0];
      assert first == stack[0] || first == map[];
    }
  }

  /** AsyncInitConnectionServer as written: the layers of the received stack are
      overwritten in place by two iterators moving together, and the result is resolved. */
  method InitConnectionServer(resolves: Dial -> bool, received: string, defaultParameters: string)
    returns (r: Decision)
    ensures r == Decide(resolves, Unserialize(defaultParameters), received)
  {
    var stack := Unserialize(received);
    if |stack| == 1 {
      return Accept(MakeContext(stack[0]));
    }
    var defaults := Unserialize(defaultParameters);
    ghost var before := stack;
    if |defaults| == |stack| {
      var it := 0;
      while it != |stack|
        invariant 0 <= it <= |stack| == |before|
        invariant forall i :: 0 <= i < it ==> stack[i] == Substitute(before, defaults)[i]
        invariant forall i :: it <= i < |stack| ==> stack[i] == before[i]
      {
        if "default" in stack[it] {
          stack := stack[it := defaults[it]];
        }
        it := it + 1;
      }
    }
    assert stack == Substitute(before, defaults);
    if |stack| < STACK_DEPTH {
      return Refuse;
    }
    var dial := Dial(stack[1], stack[2], stack[3]);
    if !resolves(dial) {
      return Refuse;
    }
    var context := MakeContext(stack[0]);
    if context.forward {
      r := Relay(dial, context.forwardBlocks);
    } else {
      r := Accept(context);
    }
  }

  // --------------------------------------------------------- a chain of nodes

  /** A server of the TLS build: its own TLS and proxy layers, which make up the
      defaults {}, tls, proxy, {} of GenerateServerTLSQuery, and whether its
      acceptor is bound for connections that end here. */
  datatype ServerConfig = ServerConfig(tls: LayerParameters, proxy: LayerParameters, bound: bool)

  function DefaultsOf(s: ServerConfig): Stack
  {
    [map[], s.tls, s.proxy, map[]]
  }

  /** A server whose defaults cannot be serialised never gets to bind. */
  type Server = s: ServerConfig | Serialize(DefaultsOf(s)).Some?
    witness (
      assert Packable(DefaultsOf(ServerConfig(map[], map[], true)));
      ServerConfig(map[], map[], true))

  /** The world around the protocol: who listens where, and which endpoints can be
      resolved (certificates load, names resolve). */
  datatype Net = Net(at: Host -> Option<Server>, resolves: Dial -> bool)

  /** The course of a connection attempt, from the node that handles it on. */
  datatype Journey =
    | Refused
    | Accepted(id: string)
    | Onward(dial: Dial, next: Journey)

  /** The default parameters as the acceptor hands them to the policy: unserialised
      when it binds, serialised again for each accepted connection. */
  function DefaultsOnArrival(server: Server): (s: string)
    ensures Unserialize(s) == DefaultsOf(server)
  {
    SerializeRoundTrip(DefaultsOf(server));
    var kept := Unserialize(Serialize(DefaultsOf(server)).value);
    Serialize(kept).value
  }

  /** A server handling a received string.  On local acceptance the `details` of the
      received context become the remote endpoint's id. */
  function Handle(net: Net, server: Server, received: string): (j: Journey)
    ensures |Dials(j)| <= |received|
    decreases |received|, 0
  {
    hide Decide;
    var decision := Decide(net.resolves, Unserialize(DefaultsOnArrival(server)), received);
    RelayedStringShrinks(net.resolves, DefaultsOf(server), received);
    match decision
    case Refuse => Refused
    case Accept(context) => if server.bound then Accepted(context.details) else Refused
    case Relay(dial, message) => Onward(dial, Arrive(net, dial, message))
  }

  /** Connecting to a dialled host and sending it a string. */
  function Arrive(net: Net, dial: Dial, message: string): (j: Journey)
    ensures |Dials(j)| <= |message|
    decreases |message|, 1
  {
    hide SendString, ReceiveString;
    match net.at(HostOf(dial))
    case None => Refused
    case Some(server) =>
      DeliveryExact(message, "");
      assert SendString(message) + "" == SendString(message);
      match ReceiveString(SendString(message))
      case Got(received, _) => Handle(net, server, received)
      case _ => Refused
  }

  /** The client: the outermost layer of its query is the end-to-end TLS session,
      the circuit stack is below it. */
  function RunQuery(net: Net, query: Stack): Journey
  {
    if |query| < 1 + STACK_DEPTH then Refused
    else
      var dial := Dial(query[2], query[3], query[4]);
      if net.resolves(dial)
      then Onward(dial, Arrive(net, dial, MakeContext(query[1]).forwardBlocks))
      else Refused
  }

  function Dials(j: Journey): seq<Dial>
  {
    match j case Onward(dial, next) => [dial] + Dials(next) case _ => []
  }

  function End(j: Journey): (e: Journey)
    ensures !e.Onward?
  {
    match j case Onward(_, next) => End(next) case _ => j
  }

  function Hosts(dials: seq<Dial>): (hs: seq<Host>)
    ensures |hs| == |dials|
  {
    seq(|dials|, i requires 0 <= i < |dials| => HostOf(dials[i]))
  }
}
