/** The client's side of a circuit: folding the configured hops into one nested
    query (client_helper.cpp, network_protocol.cpp, circuit_helpers.cpp). */
module CircuitQuery {
  import opened MessagePack
  import opened ParameterStack
  import opened Circuit

  /** The layers a client derives from its own configuration. */
  datatype ClientConfig = ClientConfig(tls: LayerParameters, proxy: LayerParameters)

  // ------------------------------------------------------------------- layers

  const DEFAULT_LAYER: LayerParameters := map["default" := "true"]

  function PhysicalLayer(h: Host): LayerParameters
  {
    map["addr" := h.addr, "port" := h.port]
  }

  /** make_next_forward_node_ciruit_layer_parameters, given the serialised rest. */
  function ForwardLayer(rest: string): LayerParameters
  {
    map["forward" := "1", "circuit_id" := "", "circuit_nodes" := rest, "details" := ""]
  }

  /** make_destination_node_parameter_stack, with get_local_id() = "-1". */
  const LOCAL_ID: string := "-1"
  const DESTINATION_LAYER: LayerParameters :=
    map["forward" := "0", "circuit_id" := "", "circuit_nodes" := "", "details" := LOCAL_ID]

  /** The layer keys in play are pairwise different strings. */
  lemma KeysDiffer()
    ensures "default" != "forward" && "default" != "details" && "forward" != "details"
    ensures "addr" != "port"
  {
    assert "default"[0] != "forward"[0] && "default"[2] != "details"[2] && "forward"[0] != "details"[0];
    assert "addr"[0] != "port"[0];
  }

  // ---------------------------------------------- what a route is compiled to

  function HopStack(rest: string, hop: Host): Stack
  {
    [ForwardLayer(rest), DEFAULT_LAYER, DEFAULT_LAYER, PhysicalLayer(hop)]
  }

  /** The string for a node from which the route still goes on through `hops`. */
  function Ticket(hops: seq<Host>): Option<string>
  {
    if hops == [] then Serialize([DESTINATION_LAYER])
    else match Ticket(hops[1..])
      case None => None
      case Some(rest) => Serialize(HopStack(rest, hops[0]))
  }

  /** The client's query for a route, first hop first, target last. */
  function Query(config: ClientConfig, route: seq<Host>): Option<Stack>
    requires route != []
  {
    match Ticket(route[1..])
    case None => None
    case Some(rest) =>
      Some([config.tls, ForwardLayer(rest)["forward" := "0"]["circuit_id" := "client"],
            config.tls, config.proxy, PhysicalLayer(route[0])])
  }

  // ------------------------------------------------------- the code as written

  /** NodeParameterList: the back node is the front of the underlying list. */
  class NodeParameterList {
    var nodes: seq<Stack>

    constructor ()
      ensures nodes == []
    {
      nodes := [];
    }

    method PushBackNode()
      modifies this
      ensures nodes == [[]] + old(nodes)
    {
      nodes := [[]] + nodes;
    }

    method AddTopLayerToBackNode(top: LayerParameters)
      requires nodes != []
      modifies this
      ensures nodes == [[top] + old(nodes)[0]] + old(nodes)[1..]
    {
      nodes := nodes[0 := [top] + nodes[0]];
    }
  }

  /** Putting a circuit layer on each node of a list in turn, every time around the
      serialised stack built so far; None when one is too large to serialise. */
  function Wrapped(nodes: seq<Stack>, inner: Stack): (r: Option<Stack>)
    requires inner != []
    ensures r.Some? ==> r.value != []
  {
    if nodes == [] then Some(inner)
    else match Serialize(inner)
      case None => None
      case Some(packed) => Wrapped(nodes[1..], [ForwardLayer(packed)] + nodes[0])
  }

  function Labelled(stack: Stack, id: string): Stack
    requires stack != []
  {
    stack[0 := stack[0]["forward" := "0"]["circuit_id" := id]]
  }

  /** make_client_full_circuit_parameter_stack. */
  method MakeClientFullCircuit(remoteId: string, list: NodeParameterList)
    returns (r: Option<Stack>)
    ensures r == match Wrapped(list.nodes, [DESTINATION_LAYER])
                 case None => None
                 case Some(stack) => Some(Labelled(stack, remoteId))
  {
    hide Serialize;
    var next: Stack := [DESTINATION_LAYER];
    var i := 0;
    assert list.nodes[0..] == list.nodes;
    while i < |list.nodes|
      invariant 0 <= i <= |list.nodes| && next != []
      invariant Wrapped(list.nodes, [DESTINATION_LAYER]) == Wrapped(list.nodes[i..], next)
    {
      var packed := Serialize(next);
      if packed == None {
        return None;
      }
      next := [ForwardLayer(packed.value)] + list.nodes[i];
      assert list.nodes[i..][1..] == list.nodes[i + 1..];
      i := i + 1;
    }
    assert Wrapped(list.nodes, [DESTINATION_LAYER]) == Some(next);
    ghost var inner := next;
    next := next[0 := next[0]["forward" := "0"]];
    next := next[0 := next[0]["circuit_id" := remoteId]];
    assert next == Labelled(inner, remoteId);
    r := Some(next);
  }

  /** A hop's stack before its circuit layer is put on top. */
  function PlainNode(hop: Host): Stack
  {
    [DEFAULT_LAYER, DEFAULT_LAYER, PhysicalLayer(hop)]
  }

  /** The list nodes of some hops: the last hop comes first. */
  function PlainNodes(hops: seq<Host>): seq<Stack>
  {
    if hops == [] then [] else PlainNodes(hops[1..]) + [PlainNode(hops[0])]
  }

  lemma {:induction false} PlainNodesSnoc(hops: seq<Host>, hop: Host)
    ensures PlainNodes(hops + [hop]) == [PlainNode(hop)] + PlainNodes(hops)
  {
    if hops == [] {
      assert hops + [hop] == [hop];
    } else {
      assert (hops + [hop])[1..] == hops[1..] + [hop];
      PlainNodesSnoc(hops[1..], hop);
    }
  }

  function FirstNode(config: ClientConfig, first: Host): Stack
  {
    [config.tls, config.proxy, PhysicalLayer(first)]
  }

  /** Wrapping the list of a route's hops, last hop first, produces their ticket. */
  lemma {:induction false} WrappedHops(hops: seq<Host>, tail: seq<Stack>)
    requires tail != []
    ensures Wrapped(PlainNodes(hops) + tail, [DESTINATION_LAYER]) ==
            match Ticket(hops)
            case None => None
            case Some(t) => Wrapped(tail[1..], [ForwardLayer(t)] + tail[0])
  {
    hide Serialize;
    if hops == [] {
      assert PlainNodes(hops) + tail == tail;
    } else {
      var more := [PlainNode(hops[0])] + tail;
      assert PlainNodes(hops) + tail == PlainNodes(hops[1..]) + more;
      WrappedHops(hops[1..], more);
      assert more[1..] == tail;
      if Ticket(hops[1..]).Some? {
        var rest := Ticket(hops[1..]).value;
        assert [ForwardLayer(rest)] + more[0] == HopStack(rest, hops[0]);
      }
    }
  }

  /** The query is the wrapped list, labelled, under the client's own TLS layer. */
  lemma QueryFromList(config: ClientConfig, first: Host, circuit: seq<Host>)
    ensures Query(config, [first] + circuit) ==
            match Wrapped(PlainNodes(circuit) + [FirstNode(config, first)], [DESTINATION_LAYER])
            case None => None
            case Some(stack) => Some([config.tls] + Labelled(stack, "client"))
  {
    hide Serialize;
    WrappedHops(circuit, [FirstNode(config, first)]);
    assert ([first] + circuit)[1..] == circuit;
    if Ticket(circuit).Some? {
      var inner := [ForwardLayer(Ticket(circuit).value)] + FirstNode(config, first);
      assert Query(config, [first] + circuit).value == [config.tls] + Labelled(inner, "client");
    }
  }

  /** The statements before the loop of GenerateClientTLSQuery. */
  method PushFirst(list: NodeParameterList, config: ClientConfig, first: Host)
    modifies list
    ensures list.nodes == [FirstNode(config, first)] + old(list.nodes)
  {
    list.PushBackNode();
    list.AddTopLayerToBackNode(PhysicalLayer(first));
    list.AddTopLayerToBackNode(config.proxy);
    list.AddTopLayerToBackNode(config.tls);
    assert list.nodes[0] == FirstNode(config, first);
  }

  /** The body of the loop of GenerateClientTLSQuery. */
  method PushHop(list: NodeParameterList, hop: Host)
    modifies list
    ensures list.nodes == [PlainNode(hop)] + old(list.nodes)
  {
    list.PushBackNode();
    list.AddTopLayerToBackNode(PhysicalLayer(hop));
    list.AddTopLayerToBackNode(DEFAULT_LAYER);
    list.AddTopLayerToBackNode(DEFAULT_LAYER);
    assert list.nodes[0] == PlainNode(hop);
  }

  /** GenerateClientTLSQuery. */
  method GenerateClientTlsQuery(first: Host, config: ClientConfig, circuit: seq<Host>)
    returns (r: Option<Stack>)
    ensures r == Query(config, [first] + circuit)
  {
    hide Wrapped, Query, Labelled;
    var list := new NodeParameterList();
    PushFirst(list, config, first);
    var i := 0;
    while i < |circuit|
      invariant 0 <= i <= |circuit|
      invariant list.nodes == PlainNodes(circuit[..i]) + [FirstNode(config, first)]
      invariant fresh(list)
    {
      PushHop(list, circuit[i]);
      PlainNodesSnoc(circuit[..i], circuit[i]);
      assert circuit[..i + 1] == circuit[..i] + [circuit[i]];
      i := i + 1;
    }
    assert circuit[..i] == circuit;
    QueryFromList(config, first, circuit);
    var query := MakeClientFullCircuit("client", list);
    if query == None {
      return None;
    }
    r := Some([config.tls] + query.value);
  }

  /** GenerateNetworkQuery: the first configured hop becomes the dialled remote and
      the target takes the last place of the list. */
  method GenerateNetworkQuery(target: Host, config: ClientConfig, configured: seq<Host>)
    returns (r: Option<Stack>)
    ensures r == Query(config, configured + [target])
  {
    var nodes := configured;
    var first := target;
    if |nodes| != 0 {
      first := nodes[0];
      nodes := nodes[1..];
      nodes := nodes + [target];
    }
    assert [first] + nodes == configured + [target];
    r := GenerateClientTlsQuery(first, config, nodes);
  }
}
