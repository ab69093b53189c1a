/** How long the strings of a circuit are: an exact count that needs only the lengths of
    the configured addresses and ports. */
module CircuitSize {
  import opened MessagePack
  import opened ParameterStack
  import opened Circuit
  import opened CircuitQuery

  // --------------------------------------------------- the size of one layer

  function StrSize(n: nat): nat
  {
    n + if n < 32 then 1 else if n < 0x100 then 2 else if n < 0x1_0000 then 3 else 5
  }

  lemma PackStrSize(v: string)
    ensures |PackStr(v)| == StrSize(|v|)
  {
  }

  /** The bytes of a layer's pairs. */
  ghost function Body(layer: LayerParameters): nat
  {
    |PackPairs(SortedKeys(layer.Keys), layer)|
  }

  lemma {:induction false} PairsIgnoreOthers(ks: seq<string>, a: LayerParameters, b: LayerParameters)
    requires forall k :: k in ks ==> k in a && k in b && a[k] == b[k]
    ensures PackPairs(ks, a) == PackPairs(ks, b)
  {
    hide PackStr;
    if ks != [] { PairsIgnoreOthers(ks[1..], a, b); }
  }

  lemma LeastOfFewer(keys: set<string>, k: string)
    requires k in keys && k != Least(keys)
    ensures keys - {k} != {} && Least(keys - {k}) == Least(keys)
  {
    assert Least(keys) in keys - {k};
    AtMostAntisymmetric(Least(keys - {k}), Least(keys));
  }

  lemma UnfoldSorted(keys: set<string>, layer: LayerParameters)
    requires keys != {} && keys <= layer.Keys
    ensures var l := Least(keys);
            |PackPairs(SortedKeys(keys), layer)| ==
            |PackStr(l)| + |PackStr(layer[l])| + |PackPairs(SortedKeys(keys - {l}), layer)|
  {
    hide PackStr, Least;
    var l := Least(keys);
    assert SortedKeys(keys) == [l] + SortedKeys(keys - {l});
    assert SortedKeys(keys)[1..] == SortedKeys(keys - {l});
  }

  /** Any key may be counted first. */
  lemma {:induction false} AnyKeyFirst(keys: set<string>, layer: LayerParameters, k: string)
    requires k in keys && keys <= layer.Keys
    ensures |PackPairs(SortedKeys(keys), layer)| ==
            |PackStr(k)| + |PackStr(layer[k])| + |PackPairs(SortedKeys(keys - {k}), layer)|
    decreases |keys|
  {
    hide PackStr, SortedKeys, PackPairs;
    var l := Least(keys);
    UnfoldSorted(keys, layer);
    if k != l {
      LeastOfFewer(keys, k);
      AnyKeyFirst(keys - {l}, layer, k);
      UnfoldSorted(keys - {k}, layer);
      assert keys - {l} - {k} == keys - {k} - {l};
    }
  }

  lemma OnePairMore(m: LayerParameters, k: string, v: string)
    requires k !in m
    ensures Body(m[k := v]) == StrSize(|k|) + StrSize(|v|) + Body(m)
    ensures |m[k := v]| == |m| + 1
  {
    hide PackStr, SortedKeys, PackPairs, StrSize;
    var layer := m[k := v];
    AnyKeyFirst(layer.Keys, layer, k);
    assert layer.Keys - {k} == m.Keys;
    PairsIgnoreOthers(SortedKeys(m.Keys), layer, m);
    PackStrSize(k);
    PackStrSize(v);
  }

  lemma NoPairs()
    ensures Body(map[]) == 0
  {
  }

  lemma PackLayerSize(layer: LayerParameters)
    requires |layer| < 16
    ensures |PackLayer(layer)| == 1 + Body(layer)
  {
  }

  // ------------------------------------------------------- the layers in use

  lemma CircuitLayerSize(forward: string, rest: string, details: string)
    ensures var layer := map["forward" := forward, "circuit_id" := "", "circuit_nodes" := rest,
                             "details" := details];
            |PackLayer(layer)| == 43 + StrSize(|forward|) + StrSize(|rest|) + StrSize(|details|)
  {
    hide Body, PackLayer;
    NoPairs();
    var a: LayerParameters := map["forward" := forward];
    OnePairMore(map[], "forward", forward);
    var b := a["circuit_id" := ""];
    assert "circuit_id" !in a;
    OnePairMore(a, "circuit_id", "");
    var c := b["circuit_nodes" := rest];
    assert "circuit_nodes" !in b;
    OnePairMore(b, "circuit_nodes", rest);
    assert "details" !in c by { KeysDiffer(); }
    OnePairMore(c, "details", details);
    PackLayerSize(c["details" := details]);
    assert c["details" := details] == map["forward" := forward, "circuit_id" := "",
                                          "circuit_nodes" := rest, "details" := details];
  }

  lemma DefaultLayerSize()
    ensures |PackLayer(DEFAULT_LAYER)| == 14
  {
    hide Body, PackLayer;
    NoPairs();
    OnePairMore(map[], "default", "true");
    PackLayerSize(DEFAULT_LAYER);
  }

  lemma PhysicalLayerSize(hop: Host)
    ensures |PackLayer(PhysicalLayer(hop))| == 11 + StrSize(|hop.addr|) + StrSize(|hop.port|)
  {
    hide Body, PackLayer;
    NoPairs();
    KeysDiffer();
    var a: LayerParameters := map["addr" := hop.addr];
    OnePairMore(map[], "addr", hop.addr);
    OnePairMore(a, "port", hop.port);
    PackLayerSize(a["port" := hop.port]);
    assert a["port" := hop.port] == PhysicalLayer(hop);
  }

  // ---------------------------------------------------- the size of a message

  /** The length of the string for the node from which the route goes on through `hops`. */
  function MessageLength(hops: seq<Host>): nat
  {
    if hops == [] then 50
    else 86 + StrSize(MessageLength(hops[1..])) + StrSize(|hops[0].addr|) + StrSize(|hops[0].port|)
  }

  /** Whether every part of the nest fits a 32-bit length. */
  predicate Compiles(hops: seq<Host>)
  {
    hops == [] || (Compiles(hops[1..]) && MessageLength(hops[1..]) < MAX_SIZE
                   && |hops[0].addr| < MAX_SIZE && |hops[0].port| < MAX_SIZE)
  }

  lemma FixedLayersPackable()
    ensures PackableLayer(DESTINATION_LAYER) && PackableLayer(DEFAULT_LAYER)
  {
  }

  lemma ForwardPackable(rest: string)
    ensures PackableLayer(ForwardLayer(rest)) <==> |rest| < MAX_SIZE
  {
    var f := ForwardLayer(rest);
    assert f["circuit_nodes"] == rest && |f| <= 4;
  }

  lemma PhysicalPackable(hop: Host)
    ensures PackableLayer(PhysicalLayer(hop)) <==> |hop.addr| < MAX_SIZE && |hop.port| < MAX_SIZE
  {
    KeysDiffer();
    var p := PhysicalLayer(hop);
    assert p["addr"] == hop.addr && p["port"] == hop.port && |p| <= 2;
  }

  lemma HopPackable(rest: string, hop: Host)
    ensures Serialize(HopStack(rest, hop)).Some? <==>
            |rest| < MAX_SIZE && |hop.addr| < MAX_SIZE && |hop.port| < MAX_SIZE
  {
    hide PackLayers, Header, PackableLayer, ForwardLayer, PhysicalLayer;
    FixedLayersPackable();
    ForwardPackable(rest);
    PhysicalPackable(hop);
    var stack := HopStack(rest, hop);
    assert stack[0] == ForwardLayer(rest) && stack[3] == PhysicalLayer(hop);
  }

  lemma HopSize(rest: string, hop: Host)
    requires |rest| < MAX_SIZE && |hop.addr| < MAX_SIZE && |hop.port| < MAX_SIZE
    ensures Serialize(HopStack(rest, hop)).Some?
    ensures |Serialize(HopStack(rest, hop)).value| ==
            86 + StrSize(|rest|) + StrSize(|hop.addr|) + StrSize(|hop.port|)
  {
    hide PackLayer, Packable;
    HopPackable(rest, hop);
    CircuitLayerSize("1", rest, "");
    DefaultLayerSize();
    PhysicalLayerSize(hop);
    var last: Stack := [PhysicalLayer(hop)];
    OneLayerMore(PhysicalLayer(hop), []);
    OneLayerMore(DEFAULT_LAYER, last);
    OneLayerMore(DEFAULT_LAYER, [DEFAULT_LAYER] + last);
    OneLayerMore(ForwardLayer(rest), [DEFAULT_LAYER, DEFAULT_LAYER] + last);
    assert last + [] == last;
    assert HopStack(rest, hop) == [ForwardLayer(rest)] + ([DEFAULT_LAYER, DEFAULT_LAYER] + last);
    assert [DEFAULT_LAYER, DEFAULT_LAYER] + last == [DEFAULT_LAYER] + ([DEFAULT_LAYER] + last);
    assert |PackLayers(HopStack(rest, hop))| == 85 + StrSize(|rest|) + StrSize(|hop.addr|) + StrSize(|hop.port|);
  }

  lemma OneLayerMore(layer: LayerParameters, stack: Stack)
    ensures |PackLayers([layer] + stack)| == |PackLayer(layer)| + |PackLayers(stack)|
    ensures PackLayers([]) == ""
  {
    assert ([layer] + stack)[1..] == stack;
  }

  lemma DestinationSize()
    ensures Serialize([DESTINATION_LAYER]).Some? && |Serialize([DESTINATION_LAYER]).value| == 50
  {
    hide PackLayer, PackableLayer;
    FixedLayersPackable();
    CircuitLayerSize("0", "", LOCAL_ID);
    OneLayerMore(DESTINATION_LAYER, []);
    assert [DESTINATION_LAYER] + [] == [DESTINATION_LAYER];
    assert |PackLayers([DESTINATION_LAYER])| == |PackLayer(DESTINATION_LAYER)| == 49;
  }

  /** A route compiles exactly when its parts fit, and the length of its message depends on
      the lengths of addresses and ports alone. */
  lemma {:induction false} TicketLength(hops: seq<Host>)
    ensures Ticket(hops).Some? <==> Compiles(hops)
    ensures Ticket(hops).Some? ==> |Ticket(hops).value| == MessageLength(hops)
  {
    hide Serialize, StrSize;
    if hops == [] {
      DestinationSize();
    } else {
      TicketLength(hops[1..]);
      if Ticket(hops[1..]).Some? {
        var rest := Ticket(hops[1..]).value;
        HopPackable(rest, hops[0]);
        if Serialize(HopStack(rest, hops[0])).Some? { HopSize(rest, hops[0]); }
      }
    }
  }

  /** A route whose message is within 32 bits compiles. */
  lemma {:induction false} ShortCompiles(hops: seq<Host>)
    requires MessageLength(hops) < MAX_SIZE
    ensures Compiles(hops)
  {
    if hops != [] { ShortCompiles(hops[1..]); }
  }
}
