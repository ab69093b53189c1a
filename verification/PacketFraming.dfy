/** Fiber packets on the shared stream: header layout and payload framing
    (fiber_header.hpp, fiber_buffer.hpp), what a send puts into packets and what the
    demultiplexer hands to each fiber (basic_fiber_demux_service.ipp). */
module PacketFraming {
  import opened ReadBuffers
  import opened MessagePack
  import opened StringFrame
  import FiberStream

  datatype FiberId = FiberId(remote: nat, local: nat)

  datatype Packet = Packet(id: FiberId, flags: nat, payload: Bytes)

  const VERSION: nat := 1
  const PUSH: nat := 16
  const DATAGRAM: nat := 8
  const HEADER_SIZE: nat := 12
  const MAX_MTU: nat := 60 * 1024

  /** fiberize: a larger MTU is replaced by the maximum. */
  function ClampMtu(mtu: nat): nat { if mtu > MAX_MTU then MAX_MTU else mtu }

  /** Fields within their widths, payload within the largest MTU. */
  predicate Sendable(p: Packet)
  {
    p.id.remote < MAX_SIZE && p.id.local < MAX_SIZE && p.flags < 256 && |p.payload| <= MAX_MTU
  }

  predicate AllSendable(ps: seq<Packet>)
  {
    forall i :: 0 <= i < |ps| ==> Sendable(ps[i])
  }

  // ------------------------------------------------------------------ the wire

  /** raw_fiber_header, packed: version, local port, remote port, flags, data size. */
  function HeaderBytes(p: Packet): (s: Bytes)
    requires p.flags < 256
    ensures |s| == HEADER_SIZE
  {
    [VERSION as char] + LittleEndian(p.id.local, 4) + LittleEndian(p.id.remote, 4)
    + [p.flags as char] + LittleEndian(|p.payload|, 2)
  }

  function Encode(p: Packet): Bytes
    requires Sendable(p)
  {
    HeaderBytes(p) + p.payload
  }

  function EncodeAll(ps: seq<Packet>): Bytes
    requires AllSendable(ps)
  {
    if ps == [] then "" else Encode(ps[0]) + EncodeAll(ps[1..])
  }

  /** Reading one packet: twelve header bytes, then as many as the size field says.
      The version byte is read and not looked at. */
  function Decode(wire: Bytes): (r: Parsed<Packet>)
    ensures r.Done? ==> |r.rest| < |wire|
  {
    if |wire| < HEADER_SIZE then Fail
    else
      var local := FromLittleEndian(wire[1..5]);
      var remote := FromLittleEndian(wire[5..9]);
      var flags := wire[9] as int;
      var size := FromLittleEndian(wire[10..12]);
      if |wire| - HEADER_SIZE < size then Fail
      else Done(Packet(FiberId(remote, local), flags, wire[12..12 + size]), wire[12 + size..])
  }

  /** All the packets complete in `wire`, and the bytes of a packet still on its way. */
  function DecodeAll(wire: Bytes): (seq<Packet>, Bytes)
    decreases |wire|
  {
    match Decode(wire)
    case Fail => ([], wire)
    case Done(p, rest) => var (ps, tail) := DecodeAll(rest); ([p] + ps, tail)
  }

  lemma HeaderFields(p: Packet, s: Bytes)
    requires p.flags < 256 && HeaderBytes(p) <= s
    ensures s[1..5] == LittleEndian(p.id.local, 4) && s[5..9] == LittleEndian(p.id.remote, 4)
    ensures s[9] as int == p.flags && s[10..12] == LittleEndian(|p.payload|, 2)
  {
    var h := HeaderBytes(p);
    var a := [VERSION as char] + LittleEndian(p.id.local, 4);
    var b := a + LittleEndian(p.id.remote, 4);
    assert h[..5] == a && h[..9] == b;
    assert a[1..5] == LittleEndian(p.id.local, 4);
    assert b[5..9] == LittleEndian(p.id.remote, 4);
    assert h[1..5] == a[1..5] && h[5..9] == b[5..9];
    assert h[10..12] == LittleEndian(|p.payload|, 2);
    assert s[..12] == h;
    assert s[1..5] == h[1..5] && s[5..9] == h[5..9] && s[10..12] == h[10..12];
  }

  /** The bytes of a packet: version 1, the local and the remote port, the flags, the payload's
      size, all least significant byte first, and the payload. */
  lemma PacketLayout(p: Packet)
    requires Sendable(p)
    ensures var s := Encode(p);
            && |s| == 12 + |p.payload| && s[0] as int == 1
            && s[1] as int + 0x100 * s[2] as int + 0x1_0000 * s[3] as int + 0x100_0000 * s[4] as int == p.id.local
            && s[5] as int + 0x100 * s[6] as int + 0x1_0000 * s[7] as int + 0x100_0000 * s[8] as int == p.id.remote
            && s[9] as int == p.flags
            && s[10] as int + 0x100 * s[11] as int == |p.payload|
            && s[12..] == p.payload
  {
    hide HeaderBytes, LittleEndian;
    var s := Encode(p);
    assert HeaderBytes(p) <= s && s[0] == HeaderBytes(p)[0];
    HeaderFields(p, s);
    VersionFirst(p);
    LittleEndianLayout(p.id.local);
    LittleEndianLayout(p.id.remote);
    LittleEndianLayout(|p.payload|);
    var l, m, n := s[1..5], s[5..9], s[10..12];
    assert s[1] == l[0] && s[2] == l[1] && s[3] == l[2] && s[4] == l[3];
    assert s[5] == m[0] && s[6] == m[1] && s[7] == m[2] && s[8] == m[3];
    assert s[10] == n[0] && s[11] == n[1];
  }

  lemma VersionFirst(p: Packet)
    requires p.flags < 256
    ensures HeaderBytes(p)[0] as int == 1
  {
  }

  /** One packet in front of anything decodes to itself and leaves the rest. */
  lemma PacketRoundTrip(p: Packet, after: Bytes)
    requires Sendable(p)
    ensures Decode(Encode(p) + after) == Done(p, after)
  {
    hide HeaderBytes;
    var wire := Encode(p) + after;
    assert HeaderBytes(p) <= wire;
    HeaderFields(p, wire);
    Pow256Values();
    LittleEndianRoundTrip(p.id.local, 4);
    LittleEndianRoundTrip(p.id.remote, 4);
    LittleEndianRoundTrip(|p.payload|, 2);
    assert wire[12..12 + |p.payload|] == p.payload;
    assert wire[12 + |p.payload|..] == after;
  }

  /** A packet that is not there in full yet is not decoded. */
  lemma PartialPacketWaits(p: Packet, n: nat)
    requires Sendable(p) && n < |Encode(p)|
    ensures Decode(Encode(p)[..n]) == Fail
  {
    hide HeaderBytes;
    var cut := Encode(p)[..n];
    if n >= HEADER_SIZE {
      assert cut[..12] == HeaderBytes(p);
      HeaderFields(p, cut);
      Pow256Values();
      LittleEndianRoundTrip(|p.payload|, 2);
    }
  }

  /** Packet framing: whatever packets were sent, the bytes that have arrived so far (any
      prefix of the stream) decode to exactly the packets they contain in full, with the
      ids, flags and payloads that were sent, in order. */
  lemma {:induction false} FramingTheorem(ps: seq<Packet>, n: nat)
    requires AllSendable(ps)
    requires n <= |EncodeAll(ps)|
    ensures var (got, tail) := DecodeAll(EncodeAll(ps)[..n]);
            && got <= ps && EncodeAll(got) + tail == EncodeAll(ps)[..n]
            && (|got| < |ps| ==> |tail| < |Encode(ps[|got|])|)
            && (n == |EncodeAll(ps)| ==> got == ps && tail == "")
  {
    hide Encode, Decode;
    var arrived := EncodeAll(ps)[..n];
    if ps == [] {
      DecodeEmpty();
    } else {
      var first, more := Encode(ps[0]), EncodeAll(ps[1..]);
      if n < |first| {
        assert arrived == first[..n];
        PartialPacketWaits(ps[0], n);
        FirstIsLonger(ps);
      } else {
        var m := n - |first|;
        assert arrived == first + more[..m];
        PacketRoundTrip(ps[0], more[..m]);
        FramingTheorem(ps[1..], m);
        var (got, tail) := DecodeAll(more[..m]);
        assert DecodeAll(arrived) == ([ps[0]] + got, tail);
        assert ([ps[0]] + got)[1..] == got;
        assert first + EncodeAll(got) + tail == arrived;
      }
    }
  }

  lemma DecodeEmpty()
    ensures Decode("") == Fail
  {
  }

  lemma FirstIsLonger(ps: seq<Packet>)
    requires ps != [] && AllSendable(ps)
    ensures 0 < |Encode(ps[0])| <= |EncodeAll(ps)|
  {
  }

  // ------------------------------------------------- receiving into one buffer

  /** fiber_buffer together with read_fiber_buf_op.  The data vector is only ever enlarged to
      fit a packet, so bytes that were in it stay behind the current ones. */
  class FiberBuffer {
    var id: FiberId
    var flags: nat
    var data: array<char>
    var transferred: nat

    constructor ()
      ensures data.Length == 4096 && transferred == 0 && fresh(data)
    {
      id, flags, transferred := FiberId(0, 0), 0, 0;
      data := new char[4096](_ => '\0');
    }

    /** What the demultiplexer takes out: the header and the bytes transferred. */
    function Contents(): Packet
      reads this, data
      requires transferred <= data.Length
    {
      Packet(id, flags, data[..transferred])
    }

    /** For any earlier state of the buffer, its contents afterwards are the packet read. */
    method ReadPacket(wire: Bytes) returns (complete: bool, rest: Bytes)
      modifies this, data
      ensures complete == Decode(wire).Done?
      ensures data == old(data) || fresh(data)
      ensures data.Length >= old(data.Length)
      ensures complete ==> transferred <= data.Length && Contents() == Decode(wire).value
                           && rest == Decode(wire).rest
    {
      rest := wire;
      if |wire| < HEADER_SIZE {
        return false, rest;
      }
      var local, remote := FromLittleEndian(wire[1..5]), FromLittleEndian(wire[5..9]);
      id, flags := FiberId(remote, local), wire[9] as int;
      var size := FromLittleEndian(wire[10..12]);
      if size > data.Length {
        Resize(size);
      }
      if |wire| - HEADER_SIZE < size {
        return false, rest;
      }
      var buffer := data;
      for i := 0 to size
        modifies buffer
        invariant buffer[..i] == wire[12..12 + i]
      {
        buffer[i] := wire[12 + i];
      }
      transferred := size;
      complete, rest := true, wire[12 + size..];
    }

    method Resize(size: nat)
      requires size > data.Length
      modifies this`data
      ensures fresh(data) && data.Length == size && data[..old(data.Length)] == old(data[..])
    {
      var bigger := new char[size](_ => '\0');
      for i := 0 to data.Length
        modifies bigger
        invariant bigger[..i] == data[..i]
      {
        bigger[i] := data[i];
      }
      data := bigger;
    }
  }

  // ------------------------------------------------------------------- sending

  /** get_partial_buffer_sequence: the first `length` bytes of the buffers. */
  method PartialBuffers(buffers: seq<Bytes>, length: nat) returns (r: seq<Bytes>)
    requires length <= |Concat(buffers)|
    ensures Concat(r) == Concat(buffers)[..length]
  {
    r := [];
    var left, i := length, 0;
    assert buffers[0..] == buffers;
    while i < |buffers|
      invariant 0 <= i <= |buffers| && 0 <= left && |Concat(r)| + left == length
      invariant Concat(buffers) == Concat(r) + Concat(buffers[i..])
    {
      assert buffers[i..][1..] == buffers[i + 1..];
      if left >= |buffers[i]| {
        ConcatSnoc(r, buffers[i]);
        r := r + [buffers[i]];
        left := left - |buffers[i]|;
      } else {
        ConcatSnoc(r, buffers[i][..left]);
        r := r + [buffers[i][..left]];
        return;
      }
      i := i + 1;
    }
  }

  datatype Sent = Oversized | Sent(packet: Packet)

  /** async_send under a configured MTU: an oversized datagram is an error, other payloads are
      cut to the clamped MTU. */
  method AsyncSend(id: FiberId, flags: nat, buffers: seq<Bytes>, mtu: nat) returns (r: Sent)
    requires id.remote < MAX_SIZE && id.local < MAX_SIZE && flags < 256
    ensures r.Oversized? <==> |Concat(buffers)| > (if mtu > 61440 then 61440 else mtu) && (flags / 8) % 2 == 1
    ensures r.Sent? ==> Sendable(r.packet) && r.packet.id == id && r.packet.flags == flags
    ensures r.Sent? ==> r.packet.payload <= Concat(buffers)
    ensures r.Sent? ==> |r.packet.payload| == Min(|Concat(buffers)|, if mtu > 61440 then 61440 else mtu)
  {
    var size := |Concat(buffers)|;
    if size > ClampMtu(mtu) {
      if (flags / DATAGRAM) % 2 == 1 {
        return Oversized;
      }
      size := ClampMtu(mtu);
    }
    var parts := PartialBuffers(buffers, size);
    r := Sent(Packet(id, flags, Concat(parts)));
  }

  /** A composed write on a stream fiber: sends push packets until all is accepted. */
  function PushAll(id: FiberId, data: Bytes, mtu: nat): (ps: seq<Packet>)
    requires 0 < mtu && id.remote < MAX_SIZE && id.local < MAX_SIZE
    ensures AllSendable(ps)
    ensures forall i :: 0 <= i < |ps| ==> ps[i].id == id && ps[i].flags == PUSH
    decreases |data|
  {
    if data == "" then []
    else
      var n := Min(|data|, ClampMtu(mtu));
      [Packet(id, PUSH, data[..n])] + PushAll(id, data[n..], mtu)
  }

  function Payloads(ps: seq<Packet>): (r: seq<Bytes>)
    ensures |r| == |ps|
  {
    seq(|ps|, i requires 0 <= i < |ps| => ps[i].payload)
  }

  lemma {:induction false} PushAllCarriesData(id: FiberId, data: Bytes, mtu: nat)
    requires 0 < mtu && id.remote < MAX_SIZE && id.local < MAX_SIZE
    ensures Concat(Payloads(PushAll(id, data, mtu))) == data
    decreases |data|
  {
    if data != "" {
      var n := Min(|data|, ClampMtu(mtu));
      PushAllCarriesData(id, data[n..], mtu);
      var ps := PushAll(id, data, mtu);
      assert Payloads(ps)[1..] == Payloads(PushAll(id, data[n..], mtu));
      assert data == data[..n] + data[n..];
    }
  }

  /** Push packets, none of them empty, and full up to the limit except the last. */
  ghost predicate Full(ps: seq<Packet>, limit: nat)
  {
    && (forall i :: 0 <= i < |ps| ==> ps[i].flags == 16 && 0 < |ps[i].payload| <= limit)
    && (forall i :: 0 <= i < |ps| - 1 ==> |ps[i].payload| == limit)
  }

  /** The packets of a composed write are as full as the MTU, and the maximum, allow. */
  lemma {:induction false} PushAllFillsPackets(id: FiberId, data: Bytes, mtu: nat)
    requires 0 < mtu && id.remote < MAX_SIZE && id.local < MAX_SIZE
    ensures Full(PushAll(id, data, mtu), if mtu > 61440 then 61440 else mtu)
    decreases |data|
  {
    if data != "" {
      var n := Min(|data|, ClampMtu(mtu));
      PushAllFillsPackets(id, data[n..], mtu);
      var more := PushAll(id, data[n..], mtu);
      assert more != [] ==> data[n..] != "";
    }
  }

  // ----------------------------------------------------------- demultiplexing

  /** The push packets of one fiber, in order. */
  function Only(id: FiberId, ps: seq<Packet>): seq<Packet>
  {
    if ps == [] then []
    else (if ps[0].id == id && ps[0].flags == PUSH then [ps[0]] else []) + Only(id, ps[1..])
  }

  /** dispatch_buffer for push packets: the chunks handed to each bound fiber.  A packet
      for an id that is not bound is answered with a reset and changes no fiber. */
  function Dispatch(bound: map<FiberId, seq<Bytes>>, p: Packet): map<FiberId, seq<Bytes>>
  {
    if p.flags == PUSH && p.id in bound
    then bound[p.id := bound[p.id] + [p.payload]] else bound
  }

  function DispatchAll(bound: map<FiberId, seq<Bytes>>, ps: seq<Packet>)
    : (after: map<FiberId, seq<Bytes>>)
    ensures after.Keys == bound.Keys
    decreases ps
  {
    if ps == [] then bound else DispatchAll(Dispatch(bound, ps[0]), ps[1..])
  }

  lemma PayloadsConcat(a: seq<Packet>, b: seq<Packet>)
    ensures Payloads(a + b) == Payloads(a) + Payloads(b)
  {
  }

  lemma DispatchOne(bound: map<FiberId, seq<Bytes>>, p: Packet, id: FiberId)
    requires id in bound
    ensures Dispatch(bound, p).Keys == bound.Keys
    ensures Dispatch(bound, p)[id] == bound[id] + Payloads(Only(id, [p]))
    ensures Only(id, [p]) == if p.id == id && p.flags == PUSH then [p] else []
  {
  }

  /** Each bound fiber gets exactly its own push packets, in order, and nothing else. */
  lemma {:induction false} DispatchProjects(bound: map<FiberId, seq<Bytes>>, ps: seq<Packet>, id: FiberId)
    requires id in bound
    ensures DispatchAll(bound, ps)[id] == bound[id] + Payloads(Only(id, ps))
    decreases ps
  {
    if ps == [] {
      assert bound[id] + Payloads(Only(id, ps)) == bound[id];
    } else {
      hide Dispatch;
      var more := Only(id, ps[1..]);
      DispatchOne(bound, ps[0], id);
      DispatchProjects(Dispatch(bound, ps[0]), ps[1..], id);
      hide Payloads;
      PayloadsConcat(Only(id, [ps[0]]), more);
    }
  }

  /** The chunks a schedule of fiber events delivers. */
  function Chunks(events: seq<FiberStream.Event>): seq<Bytes>
  {
    if events == [] then []
    else
      var last := events[|events| - 1];
      Chunks(events[..|events| - 1]) + (if last.Arrive? then [last.bytes] else [])
  }

  lemma {:induction false} ChunksAreArrivals(events: seq<FiberStream.Event>)
    ensures Concat(Chunks(events)) == FiberStream.Arrivals(events)
  {
    if events != [] {
      var before, last := events[..|events| - 1], events[|events| - 1];
      ChunksAreArrivals(before);
      if last.Arrive? {
        ConcatSnoc(Chunks(before), last.bytes);
      } else {
        assert Chunks(before) + [] == Chunks(before);
      }
    }
  }

  /** From the shared stream to the reads of one fiber, for any packets: after the stream has
      been decoded and dispatched, and the chunks of the fiber have met its reads under any
      schedule, the bytes given to reads followed by the bytes still buffered are those of the
      chunks it had before and of its own push packets, in order. */
  lemma PacketsReachReads(ps: seq<Packet>, id: FiberId, bound: map<FiberId, seq<Bytes>>,
                          events: seq<FiberStream.Event>)
    requires AllSendable(ps) && id in bound
    requires Chunks(events) == DispatchAll(bound, DecodeAll(EncodeAll(ps)).0)[id]
    ensures var f := FiberStream.Run(FiberStream.IDLE, events);
            FiberStream.Delivered(f.log) + f.data == Concat(bound[id] + Payloads(Only(id, ps)))
  {
    hide FiberStream.Run, DecodeAll, EncodeAll, DispatchAll, Only, Chunks;
    assert EncodeAll(ps)[..|EncodeAll(ps)|] == EncodeAll(ps);
    FramingTheorem(ps, |EncodeAll(ps)|);
    DispatchProjects(bound, ps, id);
    ChunksAreArrivals(events);
    FiberStream.StreamConservation(events);
    FiberStream.ReceivedIsArrivals(events);
  }

  /** The packets of several composed writes, one after another. */
  function PushWrites(id: FiberId, writes: seq<Bytes>, mtu: nat): (ps: seq<Packet>)
    requires 0 < mtu && id.remote < MAX_SIZE && id.local < MAX_SIZE
    ensures AllSendable(ps)
  {
    if writes == [] then [] else PushAll(id, writes[0], mtu) + PushWrites(id, writes[1..], mtu)
  }

  lemma {:induction false} ConcatAppend(a: seq<Bytes>, b: seq<Bytes>)
    ensures Concat(a + b) == Concat(a) + Concat(b)
  {
    if a == [] {
      assert a + b == b;
    } else {
      assert (a + b)[1..] == a[1..] + b;
      ConcatAppend(a[1..], b);
    }
  }

  lemma {:induction false} PushWritesCarryData(id: FiberId, writes: seq<Bytes>, mtu: nat)
    requires 0 < mtu && id.remote < MAX_SIZE && id.local < MAX_SIZE
    ensures Concat(Payloads(PushWrites(id, writes, mtu))) == Concat(writes)
  {
    if writes != [] {
      hide PushAll;
      var first, more := PushAll(id, writes[0], mtu), PushWrites(id, writes[1..], mtu);
      PushAllCarriesData(id, writes[0], mtu);
      PushWritesCarryData(id, writes[1..], mtu);
      hide Payloads;
      PayloadsConcat(first, more);
      ConcatAppend(Payloads(first), Payloads(more));
    }
  }

  /** From the writes on one fiber to the reads on its peer: whatever else is on the shared
      stream, the bytes given to reads followed by the bytes still buffered are exactly the
      bytes of all the writes. */
  lemma WriteReachesReads(ps: seq<Packet>, id: FiberId, writes: seq<Bytes>, mtu: nat,
                          bound: map<FiberId, seq<Bytes>>, events: seq<FiberStream.Event>)
    requires AllSendable(ps) && 0 < mtu && id.remote < MAX_SIZE && id.local < MAX_SIZE
    requires Only(id, ps) == PushWrites(id, writes, mtu)
    requires id in bound && bound[id] == []
    requires Chunks(events) == DispatchAll(bound, DecodeAll(EncodeAll(ps)).0)[id]
    ensures var f := FiberStream.Run(FiberStream.IDLE, events);
            FiberStream.Delivered(f.log) + f.data == Concat(writes)
  {
    hide FiberStream.Run, DecodeAll, EncodeAll, DispatchAll, Only, PushWrites, Chunks;
    PacketsReachReads(ps, id, bound, events);
    PushWritesCarryData(id, writes, mtu);
    assert [] + Payloads(Only(id, ps)) == Payloads(Only(id, ps));
  }
}
