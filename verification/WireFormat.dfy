/** The wire form of parameter stacks written out byte by byte, as the "Formats" section of
    the MessagePack specification gives it, and the proof that the writer produces exactly
    these bytes and the reader takes exactly the forms listed here. */
module WireFormat {
  import opened MessagePack
  import opened ParameterStack
  import opened CircuitQuery

  // ------------------------------------------------------------------- numbers

  /** Lengths are written most significant byte first. */
  function Two(s: string): nat
    requires |s| == 2
  {
    s[0] as int * 0x100 + s[1] as int
  }

  function Four(s: string): nat
    requires |s| == 4
  {
    s[0] as int * 0x100_0000 + s[1] as int * 0x1_0000 + s[2] as int * 0x100 + s[3] as int
  }

  predicate Bytes(s: string)
  {
    forall i :: 0 <= i < |s| ==> s[i] as int <= 0xff
  }

  /** Exactly these bytes, as a length. */
  predicate OneByte(s: string, n: nat) { |s| == 1 && s[0] as int == n }
  predicate TwoBytes(s: string, n: nat) { |s| == 2 && Bytes(s) && Two(s) == n }
  predicate FourBytes(s: string, n: nat) { |s| == 4 && Bytes(s) && Four(s) == n }

  // ------------------------------------------------- headers, as they are written

  predicate ArrayHead(h: string, n: nat)
  {
    && h != ""
    && (if n <= 15 then h[0] as int == 0x90 + n && h[1..] == ""
        else if n <= 0xffff then h[0] as int == 0xdc && TwoBytes(h[1..], n)
        else h[0] as int == 0xdd && FourBytes(h[1..], n))
  }

  predicate MapHead(h: string, n: nat)
  {
    && h != ""
    && (if n <= 15 then h[0] as int == 0x80 + n && h[1..] == ""
        else if n <= 0xffff then h[0] as int == 0xde && TwoBytes(h[1..], n)
        else h[0] as int == 0xdf && FourBytes(h[1..], n))
  }

  predicate StrHead(h: string, n: nat)
  {
    && h != ""
    && (if n <= 31 then h[0] as int == 0xa0 + n && h[1..] == ""
        else if n <= 0xff then h[0] as int == 0xd9 && OneByte(h[1..], n)
        else if n <= 0xffff then h[0] as int == 0xda && TwoBytes(h[1..], n)
        else h[0] as int == 0xdb && FourBytes(h[1..], n))
  }

  predicate Head(f: Family, h: string, n: nat)
  {
    match f case Array => ArrayHead(h, n) case Map => MapHead(h, n) case Str => StrHead(h, n)
  }

  lemma WrittenTwo(n: nat, s: string)
    requires n < 0x1_0000
    ensures s == BigEndian(n, 2) <==> TwoBytes(s, n)
  {
    assert BigEndian(n / 256, 1) == BigEndian(n / 256 / 256, 0) + [(n / 256 % 256) as char];
    assert BigEndian(n, 2) == [(n / 256 % 256) as char, (n % 256) as char];
    if |s| == 2 && Bytes(s) && Two(s) == n {
      assert s[1] as int == n % 256 && s[0] as int == n / 256;
    }
  }

  lemma BigEndianFour(n: nat)
    requires n < MAX_SIZE
    ensures BigEndian(n, 4) == BigEndian(n / 0x1_0000, 2) + BigEndian(n % 0x1_0000, 2)
  {
    var high, low := n / 0x1_0000, n % 0x1_0000;
    assert BigEndian(n, 4) == BigEndian(n / 256, 3) + [(n % 256) as char];
    assert BigEndian(n / 256, 3) == BigEndian(n / 256 / 256, 2) + [(n / 256 % 256) as char];
    assert n / 256 / 256 == high;
    WrittenTwo(low, BigEndian(low, 2));
    var l := BigEndian(low, 2);
    assert l[0] as int * 256 + l[1] as int == low;
    assert n % 256 == l[1] as int && n / 256 % 256 == l[0] as int;
    assert l == [(n / 256 % 256) as char, (n % 256) as char];
  }

  lemma WrittenFour(n: nat, s: string)
    requires n < MAX_SIZE
    ensures s == BigEndian(n, 4) <==> FourBytes(s, n)
  {
    BigEndianFour(n);
    var high, low := n / 0x1_0000, n % 0x1_0000;
    if |s| == 4 {
      assert s == s[..2] + s[2..];
      WrittenTwo(high, s[..2]);
      WrittenTwo(low, s[2..]);
      assert Four(s) == Two(s[..2]) * 0x1_0000 + Two(s[2..]);
      if Bytes(s) && Four(s) == n {
        assert Two(s[2..]) < 0x1_0000;
      }
      if s == BigEndian(n, 4) {
        assert s[..2] == BigEndian(high, 2) && s[2..] == BigEndian(low, 2);
        assert Bytes(s) by { assert forall i :: 0 <= i < 4 ==> s[i] == (if i < 2 then s[..2][i] else s[2..][i - 2]); }
      }
    }
  }

  lemma WrittenOne(n: nat, s: string)
    requires n < 0x100
    ensures s == BigEndian(n, 1) <==> OneByte(s, n)
  {
    assert BigEndian(n, 1) == BigEndian(n / 256, 0) + [(n % 256) as char] == [n as char];
    if OneByte(s, n) { assert s == [n as char]; }
  }

  lemma LeadAndRest(lead: nat, h: string, rest: string)
    requires lead <= 0xff
    ensures h == [lead as char] + rest <==> h != "" && h[0] as int == lead && h[1..] == rest
  {
    if h != "" { assert h == [h[0]] + h[1..]; }
  }

  /** The header written for a count is the one form the format lists for it. */
  lemma HeaderExact(f: Family, h: string, n: nat)
    requires n < MAX_SIZE
    ensures h == Header(f, n) <==> Head(f, h, n)
  {
    hide BigEndian, TwoBytes, FourBytes, OneByte;
    var rest := if h == "" then "" else h[1..];
    if n < FixLimit(f) {
      LeadAndRest(FixBase(f) + n, h, "");
      assert [(FixBase(f) + n) as char] + "" == [(FixBase(f) + n) as char];
    } else if f.Str? && n < 0x100 {
      LeadAndRest(0xd9, h, BigEndian(n, 1));
      WrittenOne(n, rest);
    } else if n < 0x1_0000 {
      LeadAndRest(WideBase(f), h, BigEndian(n, 2));
      WrittenTwo(n, rest);
    } else {
      LeadAndRest(WideBase(f) + 1, h, BigEndian(n, 4));
      WrittenFour(n, rest);
    }
  }

  // ----------------------------------------------------- headers, as they are read

  /** All the forms a reader takes for a count: also longer ones than needed, and the bin forms
      for strings. */
  predicate AnyHead(f: Family, h: string, n: nat)
  {
    && h != ""
    && var lead, rest := h[0] as int, h[1..];
       match f
       case Array =>
         || (0x90 <= lead <= 0x9f && rest == "" && n == lead - 0x90)
         || (lead == 0xdc && |rest| == 2 && n == Two(rest))
         || (lead == 0xdd && |rest| == 4 && n == Four(rest))
       case Map =>
         || (0x80 <= lead <= 0x8f && rest == "" && n == lead - 0x80)
         || (lead == 0xde && |rest| == 2 && n == Two(rest))
         || (lead == 0xdf && |rest| == 4 && n == Four(rest))
       case Str =>
         || (0xa0 <= lead <= 0xbf && rest == "" && n == lead - 0xa0)
         || ((lead == 0xd9 || lead == 0xc4) && |rest| == 1 && n == rest[0] as int)
         || ((lead == 0xda || lead == 0xc5) && |rest| == 2 && n == Two(rest))
         || ((lead == 0xdb || lead == 0xc6) && |rest| == 4 && n == Four(rest))
  }

  lemma ReadNumbers(s: string)
    ensures |s| == 1 ==> FromBigEndian(s) == s[0] as int
    ensures |s| == 2 ==> FromBigEndian(s) == Two(s)
    ensures |s| == 4 ==> FromBigEndian(s) == Four(s)
  {
    if |s| >= 1 {
      assert FromBigEndian(s) == FromBigEndian(s[..|s| - 1]) * 256 + s[|s| - 1] as int;
    }
    if |s| == 4 {
      var a, b, c := s[..3], s[..2], s[..1];
      assert a[..2] == b && b[..1] == c && c[..0] == "";
      assert FromBigEndian(a) == FromBigEndian(b) * 256 + s[2] as int;
      assert FromBigEndian(b) == FromBigEndian(c) * 256 + s[1] as int;
      assert FromBigEndian(c) == s[0] as int;
    } else if |s| == 2 {
      var c := s[..1];
      assert c[..0] == "" && FromBigEndian(c) == s[0] as int;
    }
  }

  /** The length field of `width` bytes in front of `t`. */
  lemma ReadLengthExact(s: string, width: nat, n: nat, t: string)
    ensures ReadLength(s, width) == Done(n, t) <==>
            |s| == width + |t| && s[width..] == t && FromBigEndian(s[..width]) == n
  {
  }

  /** A reader takes exactly the listed forms, and leaves what follows the header. */
  lemma HeaderReadExact(f: Family, h: string, n: nat, t: string)
    requires h != ""
    ensures ReadHeader(f, h + t) == Done(n, t) <==> AnyHead(f, h, n)
  {
    hide FromBigEndian, Two, Four;
    var rest := h[1..];
    assert (h + t)[0] == h[0] && (h + t)[1..] == rest + t;
    ReadNumbers(rest);
    forall width: nat
      ensures ReadLength(rest + t, width) == Done(n, t) <==> |rest| == width && FromBigEndian(rest) == n
    {
      ReadLengthExact(rest + t, width, n, t);
      if |rest| == width { assert (rest + t)[..width] == rest && (rest + t)[width..] == t; }
    }
  }

  // --------------------------------------------------------------- whole messages

  /** A string: its header and then its bytes. */
  predicate WireStr(s: string, v: string)
  {
    |v| <= |s| && s[|s| - |v|..] == v && StrHead(s[..|s| - |v|], |v|)
  }

  /** Keys and values in turn. */
  ghost predicate WirePairs(s: string, ks: seq<string>, layer: LayerParameters)
    decreases ks
  {
    if ks == [] then s == ""
    else ks[0] in layer && exists k, v, more ::
           WireStr(k, ks[0]) && WireStr(v, layer[ks[0]]) && WirePairs(more, ks[1..], layer)
           && s == k + v + more
  }

  /** A layer: a map header and its pairs in ascending order of the keys. */
  ghost predicate WireLayer(s: string, layer: LayerParameters)
  {
    exists h, ks, body ::
      MapHead(h, |layer|) && Enumerates(ks, layer.Keys) && WirePairs(body, ks, layer) && s == h + body
  }

  ghost predicate WireLayers(s: string, stack: Stack)
    decreases stack
  {
    if stack == [] then s == ""
    else exists first, more :: WireLayer(first, stack[0]) && WireLayers(more, stack[1..]) && s == first + more
  }

  /** A message: an array header and the layers. */
  ghost predicate WireStack(s: string, stack: Stack)
  {
    exists h, body :: ArrayHead(h, |stack|) && WireLayers(body, stack) && s == h + body
  }

  lemma WireStrExact(s: string, v: string)
    requires |v| < MAX_SIZE
    ensures WireStr(s, v) <==> s == PackStr(v)
  {
    hide Header, StrHead;
    if |v| <= |s| {
      var h := s[..|s| - |v|];
      assert s == h + s[|s| - |v|..];
      HeaderExact(Str, h, |v|);
    }
    if s == PackStr(v) { assert s[..|s| - |v|] == Header(Str, |v|); }
  }

  lemma {:induction false} WirePairsExact(s: string, ks: seq<string>, layer: LayerParameters)
    requires PackableLayer(layer) && forall k :: k in ks ==> k in layer
    ensures WirePairs(s, ks, layer) <==> s == PackPairs(ks, layer)
    decreases ks
  {
    if ks != [] {
      hide WireStr, PackStr;
      var key, value := ks[0], layer[ks[0]];
      if WirePairs(s, ks, layer) {
        var k, v, more :| WireStr(k, key) && WireStr(v, value) && WirePairs(more, ks[1..], layer)
                          && s == k + v + more;
        WireStrExact(k, key);
        WireStrExact(v, value);
        WirePairsExact(more, ks[1..], layer);
      }
      if s == PackPairs(ks, layer) {
        var more := PackPairs(ks[1..], layer);
        WireStrExact(PackStr(key), key);
        WireStrExact(PackStr(value), value);
        WirePairsExact(more, ks[1..], layer);
        assert s == PackStr(key) + PackStr(value) + more;
      }
    }
  }

  /** There is only one ascending enumeration of a set. */
  lemma {:induction false} OneEnumeration(a: seq<string>, b: seq<string>, keys: set<string>)
    requires Enumerates(a, keys) && Enumerates(b, keys)
    ensures a == b
    decreases |keys|
  {
    if keys != {} {
      assert a[0] in a && b[0] in b;
      FirstIsLeast(a, keys);
      FirstIsLeast(b, keys);
      AtMostAntisymmetric(a[0], b[0]);
      TailEnumerates(a, keys);
      TailEnumerates(b, keys);
      OneEnumeration(a[1..], b[1..], keys - {a[0]});
      assert a == [a[0]] + a[1..] && b == [b[0]] + b[1..];
    }
  }

  lemma FirstIsLeast(a: seq<string>, keys: set<string>)
    requires Enumerates(a, keys) && keys != {}
    ensures a != [] && forall k :: k in keys ==> AtMost(a[0], k)
  {
    hide AtMost;
    AtMostTotal(a[0], a[0]);
    forall k | k in keys ensures AtMost(a[0], k) {
      assert k in a;
      var i :| 0 <= i < |a| && a[i] == k;
    }
  }

  lemma TailEnumerates(a: seq<string>, keys: set<string>)
    requires Enumerates(a, keys) && keys != {}
    ensures a != [] && Enumerates(a[1..], keys - {a[0]})
  {
    hide AtMost;
    var rest := a[1..];
    assert a == [a[0]] + rest && a[0] in a && |rest| == |keys - {a[0]}|;
    forall i, j | 0 <= i < j < |rest| ensures rest[i] != rest[j] && AtMost(rest[i], rest[j]) {
      assert rest[i] == a[i + 1] && rest[j] == a[j + 1];
    }
    forall k ensures k in rest <==> k in keys - {a[0]} {
      if k in rest {
        var i :| 0 <= i < |rest| && rest[i] == k;
        assert a[i + 1] == k && a[0] != a[i + 1];
      }
    }
  }

  lemma WireLayerExact(s: string, layer: LayerParameters)
    requires PackableLayer(layer)
    ensures WireLayer(s, layer) <==> s == PackLayer(layer)
  {
    hide Header, MapHead, Enumerates, PackPairs, WirePairs;
    var sorted := SortedKeys(layer.Keys);
    KeysOf(sorted, layer);
    if WireLayer(s, layer) {
      var h, ks, body :| MapHead(h, |layer|) && Enumerates(ks, layer.Keys) && WirePairs(body, ks, layer)
                         && s == h + body;
      OneEnumeration(ks, sorted, layer.Keys);
      HeaderExact(Map, h, |layer|);
      WirePairsExact(body, ks, layer);
    }
    if s == PackLayer(layer) {
      HeaderExact(Map, Header(Map, |layer|), |layer|);
      WirePairsExact(PackPairs(sorted, layer), sorted, layer);
    }
  }

  lemma KeysOf(ks: seq<string>, layer: LayerParameters)
    requires Enumerates(ks, layer.Keys)
    ensures forall k :: k in ks ==> k in layer
  {
  }

  lemma LayersWritten(stack: Stack, first: string, more: string)
    requires stack != [] && WireLayer(first, stack[0]) && WireLayers(more, stack[1..])
    ensures WireLayers(first + more, stack)
  {
    hide WireLayer;
  }

  lemma LayersSplit(s: string, stack: Stack) returns (first: string, more: string)
    requires stack != [] && WireLayers(s, stack)
    ensures WireLayer(first, stack[0]) && WireLayers(more, stack[1..]) && s == first + more
  {
    hide WireLayer;
    first, more :| WireLayer(first, stack[0]) && WireLayers(more, stack[1..]) && s == first + more;
  }

  lemma {:induction false} WireLayersExact(s: string, stack: Stack)
    requires forall i :: 0 <= i < |stack| ==> PackableLayer(stack[i])
    ensures WireLayers(s, stack) <==> s == PackLayers(stack)
    decreases stack
  {
    if stack != [] {
      hide WireLayer, WireLayers, PackLayer, PackableLayer;
      if WireLayers(s, stack) {
        var first, more := LayersSplit(s, stack);
        WireLayerExact(first, stack[0]);
        WireLayersExact(more, stack[1..]);
      }
      if s == PackLayers(stack) {
        WireLayerExact(PackLayer(stack[0]), stack[0]);
        WireLayersExact(PackLayers(stack[1..]), stack[1..]);
        LayersWritten(stack, PackLayer(stack[0]), PackLayers(stack[1..]));
      }
    }
  }

  /** The bytes of a message: what the writer makes of a stack is exactly its MessagePack form,
      and a stack has no other. */
  lemma SerializeIsMessagePack(s: string, stack: Stack)
    ensures Serialize(stack) == Some(s) <==> Packable(stack) && WireStack(s, stack)
  {
    hide Header, ArrayHead, PackLayers, WireLayers, PackableLayer;
    if Packable(stack) && WireStack(s, stack) {
      var h, body :| ArrayHead(h, |stack|) && WireLayers(body, stack) && s == h + body;
      HeaderExact(Array, h, |stack|);
      WireLayersExact(body, stack);
    }
    if Serialize(stack) == Some(s) {
      HeaderExact(Array, Header(Array, |stack|), |stack|);
      WireLayersExact(PackLayers(stack), stack);
    }
  }

  /** And the reader gives back the stack of every message in that form. */
  lemma MessagePackIsRead(s: string, stack: Stack)
    ensures Packable(stack) && WireStack(s, stack) ==> Unserialize(s) == stack
  {
    hide Serialize, Unserialize, Packable, WireStack;
    SerializeIsMessagePack(s, stack);
    if Serialize(stack).Some? { SerializeRoundTrip(stack); }
  }

  /** Of two pairs with the same key the first counts. */
  lemma FirstOfEqualKeysCounts(k: string, v: string, w: string, t: string)
    requires |k| < MAX_SIZE && |v| < MAX_SIZE && |w| < MAX_SIZE
    ensures ReadPairs(2, PackStr(k) + (PackStr(v) + (PackStr(k) + (PackStr(w) + t)))) == Done(map[k := v], t)
  {
    hide PackStr, ReadStr;
    assert map[][k := w][k := v] == map[k := v];
    StrRoundTrip(w, t);
    StrRoundTrip(k, PackStr(w) + t);
    StrRoundTrip(v, PackStr(k) + (PackStr(w) + t));
    StrRoundTrip(k, PackStr(v) + (PackStr(k) + (PackStr(w) + t)));
    var tail := PackStr(k) + (PackStr(w) + t);
    assert ReadPairs(0, t) == Done(map[], t);
    ReadPairsStep(1, tail, k, w, PackStr(w) + t, t);
    hide ReadPairs;
    ReadPairsStep(2, PackStr(k) + (PackStr(v) + tail), k, v, PackStr(v) + tail, tail);
  }

  // ------------------------------------------------------------ a literal message

  /** The message that ends a circuit, byte by byte. */
  const DESTINATION_MESSAGE: string :=
    [0x91 as char, 0x84 as char]
    + ([0xaa as char] + "circuit_id" + [0xa0 as char]
       + ([0xad as char] + "circuit_nodes" + [0xa0 as char]
          + ([0xa7 as char] + "details" + [0xa2 as char, '-', '1']
             + ([0xa7 as char] + "forward" + [0xa1 as char, '0']))))

  lemma {:induction false} AtMostAfter(p: string, a: string, b: string)
    requires AtMost(a, b)
    ensures AtMost(p + a, p + b)
  {
    if p == "" {
      assert p + a == a && p + b == b;
    } else {
      AtMostAfter(p[1..], a, b);
      assert (p + a)[1..] == p[1..] + a && (p + b)[1..] == p[1..] + b;
    }
  }

  lemma AtMostByFirst(a: string, b: string)
    requires a != "" && b != "" && a[0] < b[0]
    ensures AtMost(a, b) && a != b
  {
  }

  lemma FourInOrder(a: string, b: string, c: string, d: string)
    requires AtMost(a, b) && AtMost(b, c) && AtMost(c, d)
    requires a != b && a != c && a != d && b != c && b != d && c != d
    ensures Enumerates([a, b, c, d], {a, b, c, d})
  {
    hide AtMost;
    AtMostTransitive(a, b, c);
    AtMostTransitive(a, c, d);
    AtMostTransitive(b, c, d);
  }

  const ID: string := "circuit_id"
  const NODES: string := "circuit_nodes"
  const KEYS: seq<string> := [ID, NODES, "details", "forward"]

  lemma DestinationKeys()
    ensures Enumerates(KEYS, DESTINATION_LAYER.Keys)
  {
    hide AtMost, Enumerates;
    assert AtMost("id", "nodes") by { AtMostByFirst("id", "nodes"); }
    AtMostAfter("circuit_", "id", "nodes");
    assert "circuit_" + "id" == ID && "circuit_" + "nodes" == NODES;
    AtMostByFirst(ID, "details");
    AtMostByFirst(ID, "forward");
    AtMostByFirst(NODES, "details");
    AtMostByFirst(NODES, "forward");
    AtMostByFirst("details", "forward");
    assert |ID| != |NODES|;
    FourInOrder(ID, NODES, "details", "forward");
    assert DESTINATION_LAYER.Keys == {ID, NODES, "details", "forward"};
  }

  lemma ShortStr(v: string)
    requires |v| <= 31
    ensures WireStr([(0xa0 + |v|) as char] + v, v)
  {
    var s := [(0xa0 + |v|) as char] + v;
    assert s[..|s| - |v|] == [(0xa0 + |v|) as char];
  }

  lemma OnePair(ks: seq<string>, layer: LayerParameters, k: string, v: string, more: string)
    requires ks != [] && ks[0] in layer
    requires WireStr(k, ks[0]) && WireStr(v, layer[ks[0]]) && WirePairs(more, ks[1..], layer)
    ensures WirePairs(k + v + more, ks, layer)
  {
  }

  /** One more pair of short strings in front. */
  lemma ShortPair(ks: seq<string>, layer: LayerParameters, key: string, value: string, more: string)
    requires ks != [] && ks[0] == key && key in layer && layer[key] == value
    requires |key| <= 31 && |value| <= 31 && WirePairs(more, ks[1..], layer)
    ensures WirePairs([(0xa0 + |key|) as char] + key + ([(0xa0 + |value|) as char] + value) + more, ks, layer)
  {
    hide WireStr, WirePairs;
    ShortStr(key);
    ShortStr(value);
    OnePair(ks, layer, [(0xa0 + |key|) as char] + key, [(0xa0 + |value|) as char] + value, more);
  }

  const FORWARD_BYTES: string := [0xa7 as char] + "forward" + [0xa1 as char, '0']
  const DETAILS_BYTES: string := [0xa7 as char] + "details" + [0xa2 as char, '-', '1'] + FORWARD_BYTES
  const NODES_BYTES: string := [0xad as char] + NODES + [0xa0 as char] + DETAILS_BYTES
  const ID_BYTES: string := [0xaa as char] + ID + [0xa0 as char] + NODES_BYTES

  lemma LastTwoPairs()
    ensures WirePairs(DETAILS_BYTES, KEYS[2..], DESTINATION_LAYER)
  {
    hide WirePairs;
    DestinationValues();
    NoPairs(DESTINATION_LAYER);
    assert KEYS[3..][1..] == [] && KEYS[2..][1..] == KEYS[3..];
    ShortPair(KEYS[3..], DESTINATION_LAYER, "forward", "0", "");
    assert [0xa7 as char] + "forward" + ([0xa1 as char] + "0") + "" == FORWARD_BYTES;
    ShortPair(KEYS[2..], DESTINATION_LAYER, "details", "-1", FORWARD_BYTES);
    assert [0xa7 as char] + "details" + ([0xa2 as char] + "-1") + FORWARD_BYTES == DETAILS_BYTES;
  }

  lemma DestinationPairs()
    ensures WirePairs(ID_BYTES, KEYS, DESTINATION_LAYER)
  {
    hide WirePairs;
    LastTwoPairs();
    DestinationValues();
    assert KEYS[1..][1..] == KEYS[2..];
    ShortPair(KEYS[1..], DESTINATION_LAYER, NODES, "", DETAILS_BYTES);
    assert [0xad as char] + NODES + ([0xa0 as char] + "") + DETAILS_BYTES == NODES_BYTES;
    ShortPair(KEYS, DESTINATION_LAYER, ID, "", NODES_BYTES);
    assert [0xaa as char] + ID + ([0xa0 as char] + "") + NODES_BYTES == ID_BYTES;
  }

  lemma NoPairs(layer: LayerParameters)
    ensures WirePairs("", [], layer)
  {
  }

  lemma DestinationValues()
    ensures ID in DESTINATION_LAYER && NODES in DESTINATION_LAYER
    ensures "details" in DESTINATION_LAYER && "forward" in DESTINATION_LAYER
    ensures DESTINATION_LAYER[ID] == "" && DESTINATION_LAYER[NODES] == ""
    ensures DESTINATION_LAYER["details"] == "-1" && DESTINATION_LAYER["forward"] == "0"
    ensures |DESTINATION_LAYER| == 4 && PackableLayer(DESTINATION_LAYER)
  {
    assert |ID| != |NODES| && "details"[0] != "forward"[0] && ID[0] == 'c' && NODES[0] == 'c';
    assert DESTINATION_LAYER.Keys == {ID, NODES, "details", "forward"};
    assert |{ID, NODES, "details", "forward"}| == 4;
  }

  lemma OneLayer(layer: LayerParameters, ks: seq<string>, body: string)
    requires |layer| == 4 && Enumerates(ks, layer.Keys) && WirePairs(body, ks, layer)
    ensures WireStack([0x91 as char, 0x84 as char] + body, [layer])
  {
    hide Enumerates, WirePairs, WireLayers;
    var first := [0x84 as char] + body;
    assert MapHead([0x84 as char], 4);
    assert WireLayer(first, layer);
    hide WireLayer, MapHead;
    NoLayers();
    assert first + "" == first && [layer][1..] == [];
    LayersWritten([layer], first, "");
    assert ArrayHead([0x91 as char], 1);
    assert [0x91 as char, 0x84 as char] + body == [0x91 as char] + first;
  }

  lemma NoLayers()
    ensures WireLayers("", [])
  {
  }

  /** That message is what is written for the destination, and it is read as the destination. */
  lemma DestinationMessage()
    ensures Serialize([DESTINATION_LAYER]) == Some(DESTINATION_MESSAGE)
    ensures Unserialize(DESTINATION_MESSAGE) == [DESTINATION_LAYER]
    ensures |DESTINATION_MESSAGE| == 50
  {
    hide Enumerates, WirePairs, WireStack, Serialize, Unserialize, PackableLayer;
    DestinationKeys();
    DestinationPairs();
    DestinationValues();
    OneLayer(DESTINATION_LAYER, KEYS, ID_BYTES);
    assert DESTINATION_MESSAGE == [0x91 as char, 0x84 as char] + ID_BYTES;
    SerializeIsMessagePack(DESTINATION_MESSAGE, [DESTINATION_LAYER]);
    SerializeRoundTrip([DESTINATION_LAYER]);
  }
}
