/** Parameter stacks and their wire form (src/network/ssf/layer/parameters.cpp).
    A layer is a std::map<string, string>: the encoder walks its keys in
    ascending byte order, the decoder keeps the first of two equal keys. */
module ParameterStack {
  import opened MessagePack

  type LayerParameters = map<string, string>
  type Stack = seq<LayerParameters>

  // ---------------------------------------------- the key order of std::map

  /** Lexicographic order, as std::less<std::string>. */
  predicate AtMost(a: string, b: string)
  {
    a == "" || (b != "" && (a[0] < b[0] || (a[0] == b[0] && AtMost(a[1..], b[1..]))))
  }

  lemma {:induction false} AtMostTotal(a: string, b: string)
    ensures AtMost(a, b) || AtMost(b, a)
  {
    if a != "" && b != "" { AtMostTotal(a[1..], b[1..]); }
  }

  lemma {:induction false} AtMostTransitive(a: string, b: string, c: string)
    requires AtMost(a, b) && AtMost(b, c)
    ensures AtMost(a, c)
  {
    if a != "" && b != "" && c != "" && a[0] == b[0] == c[0] {
      AtMostTransitive(a[1..], b[1..], c[1..]);
    }
  }

  lemma {:induction false} AtMostAntisymmetric(a: string, b: string)
    requires AtMost(a, b) && AtMost(b, a)
    ensures a == b
  {
    if a != "" {
      AtMostAntisymmetric(a[1..], b[1..]);
      assert a == [a[0]] + a[1..] && b == [b[0]] + b[1..];
    }
  }

  predicate IsLeast(k: string, keys: set<string>)
  {
    k in keys && forall j :: j in keys ==> AtMost(k, j)
  }

  lemma {:induction false} LeastExists(keys: set<string>)
    requires keys != {}
    ensures exists k :: IsLeast(k, keys)
    decreases |keys|
  {
    var x :| x in keys;
    AtMostTotal(x, x);
    if keys == {x} {
      assert IsLeast(x, keys);
    } else {
      var others := keys - {x};
      assert others != {} && keys == others + {x};
      LeastExists(others);
      var k :| IsLeast(k, others);
      AtMostTotal(x, k);
      if AtMost(k, x) {
        assert IsLeast(k, keys);
      } else {
        forall j | j in others ensures AtMost(x, j) { AtMostTransitive(x, k, j); }
        assert IsLeast(x, keys);
      }
    }
  }

  function Least(keys: set<string>): (k: string)
    requires keys != {}
    ensures IsLeast(k, keys)
  {
    LeastExists(keys);
    assert forall k, j :: IsLeast(k, keys) && IsLeast(j, keys) ==> k == j by {
      forall k, j | IsLeast(k, keys) && IsLeast(j, keys) ensures k == j {
        AtMostAntisymmetric(k, j);
      }
    }
    var k :| IsLeast(k, keys);
    k
  }

  /** All the keys, each once, in ascending order. */
  ghost predicate Enumerates(ks: seq<string>, keys: set<string>)
  {
    && |ks| == |keys| && (forall k :: k in ks <==> k in keys)
    && (forall i, j :: 0 <= i < j < |ks| ==> ks[i] != ks[j] && AtMost(ks[i], ks[j]))
  }

  lemma LeastFirst(keys: set<string>, k: string, rest: seq<string>)
    requires IsLeast(k, keys) && Enumerates(rest, keys - {k})
    ensures Enumerates([k] + rest, keys)
  {
    hide AtMost;
    assert keys == {k} + (keys - {k});
    assert forall j :: 0 <= j < |rest| ==> rest[j] in keys - {k};
  }

  /** The keys in the order in which std::map iterates over them. */
  function SortedKeys(keys: set<string>): (ks: seq<string>)
    ensures Enumerates(ks, keys)
    decreases |keys|
  {
    if keys == {} then []
    else
      hide Enumerates, AtMost;
      var k := Least(keys);
      assert keys == {k} + (keys - {k});
      var rest := SortedKeys(keys - {k});
      LeastFirst(keys, k, rest);
      [k] + rest
  }

  // ------------------------------------------------------------------ writing

  /** Whether every length fits the 32-bit size fields; otherwise packing throws. */
  predicate PackableLayer(layer: LayerParameters)
  {
    |layer| < MAX_SIZE && forall k :: k in layer ==> |k| < MAX_SIZE && |layer[k]| < MAX_SIZE
  }

  predicate Packable(stack: Stack)
  {
    |stack| < MAX_SIZE && forall i :: 0 <= i < |stack| ==> PackableLayer(stack[i])
  }

  function PackPairs(ks: seq<string>, layer: LayerParameters): string
    requires forall k :: k in ks ==> k in layer
  {
    if ks == [] then ""
    else PackStr(ks[0]) + PackStr(layer[ks[0]]) + PackPairs(ks[1..], layer)
  }

  function PackLayer(layer: LayerParameters): string
  {
    Header(Map, |layer|) + PackPairs(SortedKeys(layer.Keys), layer)
  }

  function PackLayers(stack: Stack): string
  {
    if stack == [] then "" else PackLayer(stack[0]) + PackLayers(stack[1..])
  }

  /** serialize_parameter_stack; None is the exception thrown on an oversized part. */
  function Serialize(stack: Stack): Option<string>
  {
    if Packable(stack) then Some(Header(Array, |stack|) + PackLayers(stack)) else None
  }

  // ------------------------------------------------------------------ reading

  function ReadPairs(n: nat, s: string): (r: Parsed<LayerParameters>)
    ensures r.Done? ==> |r.rest| <= |s|
    ensures r.Done? ==> forall k :: k in r.value ==> |r.value[k]| < |s|
    decreases n
  {
    if n == 0 then Done(map[], s)
    else match ReadStr(s)
      case Fail => Fail
      case Done(k, t) => match ReadStr(t)
        case Fail => Fail
        case Done(v, u) => match ReadPairs(n - 1, u)
          case Fail => Fail
          case Done(others, w) => Done(others[k := v], w)
  }

  function ReadLayer(s: string): (r: Parsed<LayerParameters>)
    ensures r.Done? ==> |r.rest| < |s|
    ensures r.Done? ==> forall k :: k in r.value ==> |r.value[k]| < |s|
  {
    match ReadHeader(Map, s)
    case Fail => Fail
    case Done(n, t) => ReadPairs(n, t)
  }

  function ReadLayers(n: nat, s: string): (r: Parsed<Stack>)
    ensures r.Done? ==> |r.value| == n
    ensures r.Done? ==> forall i, k :: 0 <= i < n && k in r.value[i] ==> |r.value[i][k]| < |s|
    decreases n
  {
    if n == 0 then Done([], s)
    else match ReadLayer(s)
      case Fail => Fail
      case Done(layer, t) => match ReadLayers(n - 1, t)
        case Fail => Fail
        case Done(layers, u) => Done([layer] + layers, u)
  }

  function ReadStack(s: string): (r: Parsed<Stack>)
    ensures r.Done? ==> forall i, k :: 0 <= i < |r.value| && k in r.value[i] ==> |r.value[i][k]| < |s|
  {
    match ReadHeader(Array, s)
    case Fail => Fail
    case Done(n, t) => ReadLayers(n, t)
  }

  /** unserialize_parameter_stack: any malformed input gives the empty stack, and
      bytes after the first object are ignored.  Whatever is read, every value in
      it is strictly shorter than the input it was read from. */
  function Unserialize(s: string): (stack: Stack)
    ensures forall i, k :: 0 <= i < |stack| && k in stack[i] ==> |stack[i][k]| < |s|
  {
    match ReadStack(s)
    case Fail => []
    case Done(stack, _) => stack
  }

  // --------------------------------------------------------------- round trip

  /** `layer` restricted to the listed keys. */
  function Restrict(ks: seq<string>, layer: LayerParameters): LayerParameters
  {
    map k | k in ks && k in layer :: layer[k]
  }

  lemma RestrictToAll(layer: LayerParameters)
    ensures Restrict(SortedKeys(layer.Keys), layer) == layer
  {
  }

  lemma RestrictStep(ks: seq<string>, layer: LayerParameters)
    requires ks != [] && ks[0] in layer
    ensures Restrict(ks, layer) == Restrict(ks[1..], layer)[ks[0] := layer[ks[0]]]
  {
    assert ks == [ks[0]] + ks[1..];
  }

  lemma PackPairsStep(ks: seq<string>, layer: LayerParameters, t: string)
    requires ks != [] && forall k :: k in ks ==> k in layer
    ensures PackPairs(ks, layer) + t ==
            PackStr(ks[0]) + (PackStr(layer[ks[0]]) + (PackPairs(ks[1..], layer) + t))
  {
    hide PackStr;
  }

  lemma ReadPairsStep(n: nat, s: string, k: string, v: string, t: string, u: string)
    requires n > 0 && ReadStr(s) == Done(k, t) && ReadStr(t) == Done(v, u)
    requires ReadPairs(n - 1, u).Done?
    ensures ReadPairs(n, s) == Done(ReadPairs(n - 1, u).value[k := v], ReadPairs(n - 1, u).rest)
  {
    hide ReadStr;
  }

  lemma {:induction false} PairsRoundTrip(ks: seq<string>, layer: LayerParameters, t: string)
    requires PackableLayer(layer)
    requires forall k :: k in ks ==> k in layer
    ensures ReadPairs(|ks|, PackPairs(ks, layer) + t) == Done(Restrict(ks, layer), t)
  {
    if ks == [] {
      assert PackPairs(ks, layer) + t == t;
    } else {
      hide PackStr, ReadStr, Restrict, PackPairs, ReadPairs;
      var k, v := ks[0], layer[ks[0]];
      var more := PackPairs(ks[1..], layer) + t;
      PackPairsStep(ks, layer, t);
      PairsRoundTrip(ks[1..], layer, t);
      StrRoundTrip(k, PackStr(v) + more);
      StrRoundTrip(v, more);
      ReadPairsStep(|ks|, PackPairs(ks, layer) + t, k, v, PackStr(v) + more, more);
      RestrictStep(ks, layer);
    }
  }

  lemma LayerRoundTrip(layer: LayerParameters, t: string)
    requires PackableLayer(layer)
    ensures ReadLayer(PackLayer(layer) + t) == Done(layer, t)
  {
    hide Header, ReadHeader, PackPairs, ReadPairs, Restrict, SortedKeys;
    var ks := SortedKeys(layer.Keys);
    assert PackLayer(layer) + t == Header(Map, |layer|) + (PackPairs(ks, layer) + t);
    HeaderRoundTrip(Map, |layer|, PackPairs(ks, layer) + t);
    PairsRoundTrip(ks, layer, t);
    RestrictToAll(layer);
    assert |ks| == |layer.Keys| == |layer|;
  }

  lemma {:induction false} LayersRoundTrip(stack: Stack, t: string)
    requires forall i :: 0 <= i < |stack| ==> PackableLayer(stack[i])
    ensures ReadLayers(|stack|, PackLayers(stack) + t) == Done(stack, t)
  {
    hide PackLayer, ReadLayer;
    if stack == [] {
      assert PackLayers(stack) + t == t;
    } else {
      assert PackLayers(stack) + t == PackLayer(stack[0]) + (PackLayers(stack[1..]) + t);
      LayerRoundTrip(stack[0], PackLayers(stack[1..]) + t);
      LayersRoundTrip(stack[1..], t);
      assert stack == [stack[0]] + stack[1..];
    }
  }

  /** Reading back a written stack gives that stack and leaves exactly what followed. */
  lemma StackRoundTrip(stack: Stack, t: string)
    requires Serialize(stack).Some?
    ensures ReadStack(Serialize(stack).value + t) == Done(stack, t)
    ensures Unserialize(Serialize(stack).value + t) == stack
  {
    hide Header, ReadHeader, PackLayers, ReadLayers;
    var body := PackLayers(stack) + t;
    assert Serialize(stack).value + t == Header(Array, |stack|) + body;
    HeaderRoundTrip(Array, |stack|, body);
    LayersRoundTrip(stack, t);
  }

  /** unserialize(serialize(s)) = s for every stack that can be packed at all. */
  lemma SerializeRoundTrip(stack: Stack)
    requires Serialize(stack).Some?
    ensures Unserialize(Serialize(stack).value) == stack
  {
    StackRoundTrip(stack, "");
    assert Serialize(stack).value + "" == Serialize(stack).value;
  }

  // ------------------------------------------------------- a prefix-free code

  lemma {:induction false} PairsExtend(n: nat, s: string, t: string)
    requires ReadPairs(n, s).Done?
    ensures ReadPairs(n, s + t) == Done(ReadPairs(n, s).value, ReadPairs(n, s).rest + t)
    decreases n
  {
    hide ReadStr;
    if n > 0 {
      StrExtends(s, t);
      var u := ReadStr(s).rest;
      StrExtends(u, t);
      PairsExtend(n - 1, ReadStr(u).rest, t);
    }
  }

  lemma {:induction false} LayersExtend(n: nat, s: string, t: string)
    requires ReadLayers(n, s).Done?
    ensures ReadLayers(n, s + t) == Done(ReadLayers(n, s).value, ReadLayers(n, s).rest + t)
    decreases n
  {
    hide ReadHeader, ReadPairs;
    if n > 0 {
      HeaderExtends(Map, s, t);
      var h := ReadHeader(Map, s);
      PairsExtend(h.value, h.rest, t);
      LayersExtend(n - 1, ReadLayer(s).rest, t);
    }
  }

  lemma StackExtends(s: string, t: string)
    requires ReadStack(s).Done?
    ensures ReadStack(s + t) == Done(ReadStack(s).value, ReadStack(s).rest + t)
  {
    hide ReadHeader, ReadLayers;
    HeaderExtends(Array, s, t);
    var h := ReadHeader(Array, s);
    LayersExtend(h.value, h.rest, t);
  }

  /** A message cut short anywhere is unreadable: it decodes to the empty stack. */
  lemma TruncationIsRejected(stack: Stack, n: nat)
    requires Serialize(stack).Some? && n < |Serialize(stack).value|
    ensures Unserialize(Serialize(stack).value[..n]) == []
  {
    var whole := Serialize(stack).value;
    var cut, lost := whole[..n], whole[n..];
    assert whole == cut + lost;
    StackRoundTrip(stack, "");
    assert whole + "" == whole;
    if ReadStack(cut).Done? {
      StackExtends(cut, lost);
      assert false;
    }
  }

  /** Two different stacks never share a wire form. */
  lemma SerializeInjective(a: Stack, b: Stack)
    requires Serialize(a).Some? && Serialize(a) == Serialize(b)
    ensures a == b
  {
    SerializeRoundTrip(a);
    SerializeRoundTrip(b);
  }
}
