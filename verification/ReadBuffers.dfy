/** Pending reads and the copy into their buffers
    (src/common/boost/fiber/detail/io_fiber_read_op.hpp). */
module ReadBuffers {

  type Bytes = string

  /** A pending read: the sizes of the caller's buffers, in order. */
  datatype ReadOp = ReadOp(name: nat, sizes: seq<nat>)

  function Total(sizes: seq<nat>): nat
  {
    if sizes == [] then 0 else sizes[0] + Total(sizes[1..])
  }

  function Min(a: nat, b: nat): nat { if a <= b then a else b }

  function Concat(parts: seq<Bytes>): Bytes
  {
    if parts == [] then "" else parts[0] + Concat(parts[1..])
  }

  lemma {:induction false} ConcatSnoc(parts: seq<Bytes>, part: Bytes)
    ensures Concat(parts + [part]) == Concat(parts) + part
  {
    if parts == [] {
      assert parts + [part] == [part];
      assert Concat([part]) == part + Concat([part][1..]);
    } else {
      assert (parts + [part])[1..] == parts[1..] + [part];
      ConcatSnoc(parts[1..], part);
    }
  }

  lemma {:induction false} TotalSplit(sizes: seq<nat>, i: nat)
    requires i < |sizes|
    ensures Total(sizes[i..]) == sizes[i] + Total(sizes[i + 1..])
  {
    assert sizes[i..][1..] == sizes[i + 1..];
  }

  /** do_fill_buffers: copies into one buffer after another, consuming the stream,
      until the stream is empty or the buffers are used up. */
  method FillBuffers(sizes: seq<nat>, stream: Bytes)
    returns (parts: seq<Bytes>, rest: Bytes, copied: nat)
    ensures copied == Min(Total(sizes), |stream|)
    ensures Concat(parts) == stream[..copied] && rest == stream[copied..]
    ensures |parts| <= |sizes| && forall i :: 0 <= i < |parts| ==> |parts[i]| <= sizes[i]
    ensures forall i :: 0 <= i < |parts| - 1 ==> |parts[i]| == sizes[i]
  {
    parts, rest, copied := [], stream, 0;
    var i := 0;
    assert sizes[0..] == sizes;
    while i < |sizes|
      invariant 0 <= i <= |sizes| && i == |parts|
      invariant copied <= |stream| && rest == stream[copied..] && Concat(parts) == stream[..copied]
      invariant copied + Total(sizes[i..]) == Total(sizes)
      invariant forall k :: 0 <= k < i ==> |parts[k]| == sizes[k]
    {
      var just := Min(sizes[i], |rest|);
      TotalSplit(sizes, i);
      ConcatSnoc(parts, rest[..just]);
      assert stream[..copied] + rest[..just] == stream[..copied + just];
      parts := parts + [rest[..just]];
      rest := rest[just..];
      copied := copied + just;
      if |rest| == 0 {
        return;
      }
      i := i + 1;
    }
  }
}
