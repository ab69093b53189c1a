/** Length-prefixed strings on a socket (src/network/ssf/network/object_io_helpers.h).
    The size field is a uint32_t in the host's (little-endian) byte order. */
module StringFrame {
  import opened MessagePack

  const SIZE_LIMIT: nat := 1024 * 1024

  function LittleEndian(n: nat, width: nat): (s: string)
    ensures |s| == width
  {
    if width == 0 then "" else [(n % 256) as char] + LittleEndian(n / 256, width - 1)
  }

  function FromLittleEndian(s: string): nat
  {
    if s == "" then 0 else s[0] as int + 256 * FromLittleEndian(s[1..])
  }

  lemma {:induction false} LittleEndianRoundTrip(n: nat, width: nat)
    requires n < Pow256(width)
    ensures FromLittleEndian(LittleEndian(n, width)) == n
  {
    if width > 0 {
      assert n / 256 < Pow256(width - 1);
      LittleEndianRoundTrip(n / 256, width - 1);
      assert LittleEndian(n, width)[1..] == LittleEndian(n / 256, width - 1);
    }
  }

  /** Two and four bytes, least significant first. */
  lemma LittleEndianLayout(n: nat)
    ensures n < 0x1_0000 ==>
              (var s := LittleEndian(n, 2);
               s[0] as int <= 0xff && s[1] as int <= 0xff && s[0] as int + 0x100 * s[1] as int == n)
    ensures n < 0x1_0000_0000 ==>
              (var s := LittleEndian(n, 4);
               && (forall i :: 0 <= i < 4 ==> s[i] as int <= 0xff)
               && s[0] as int + 0x100 * s[1] as int + 0x1_0000 * s[2] as int + 0x100_0000 * s[3] as int == n)
  {
    if n < 0x1_0000_0000 {
      var s, a := LittleEndian(n, 4), n / 256;
      var b := a / 256;
      var c := b / 256;
      assert s == [(n % 256) as char] + LittleEndian(a, 3);
      assert LittleEndian(a, 3) == [(a % 256) as char] + LittleEndian(b, 2);
      assert LittleEndian(b, 2) == [(b % 256) as char] + LittleEndian(c, 1);
      assert LittleEndian(c, 1) == [(c % 256) as char] + LittleEndian(c / 256, 0);
      assert s == [(n % 256) as char, (a % 256) as char, (b % 256) as char, (c % 256) as char];
    }
    if n < 0x1_0000 {
      assert LittleEndian(n / 256, 1) == [(n / 256 % 256) as char] + LittleEndian(n / 256 / 256, 0);
    }
  }

  /** SendString: the size is cast to 32 bits, the string follows in full. */
  function SendString(s: string): string
  {
    LittleEndian(|s| % MAX_SIZE, 4) + s
  }

  datatype Received = Broken | TooLong | Got(value: string, rest: string)

  /** ReceiveString: size field, limit test, then exactly that many bytes. */
  function ReceiveString(stream: string): Received
  {
    if |stream| < 4 then Broken
    else
      var size := FromLittleEndian(stream[..4]);
      if size > SIZE_LIMIT then TooLong
      else if |stream| - 4 < size then Broken
      else Got(stream[4..4 + size], stream[4 + size..])
  }

  /** The receiver gets the string whole, in front of whatever is sent after it,
      if and only if it is at most 1 MiB long. */
  lemma DeliveryExact(s: string, after: string)
    ensures ReceiveString(SendString(s) + after) == Got(s, after) <==> |s| <= 1024 * 1024
    ensures ReceiveString(SendString(s) + after) ==
            var n := |s| % MAX_SIZE;
            if n > 1024 * 1024 then TooLong else Got(s[..n], s[n..] + after)
  {
    var n := |s| % MAX_SIZE;
    var stream := SendString(s) + after;
    assert stream[..4] == LittleEndian(n, 4);
    Pow256Values();
    LittleEndianRoundTrip(n, 4);
    assert n <= |s|;
    assert stream[4..4 + n] == s[..n];
    assert stream[4 + n..] == s[n..] + after;
    if n == |s| { assert s[..n] == s && s[n..] + after == after; }
  }

  /** The bytes on the socket: a four-byte size and then the string. */
  lemma FrameLayout(s: string)
    requires |s| < 0x1_0000_0000
    ensures var f := SendString(s);
            && |f| == 4 + |s| && f[4..] == s
            && f[0] as int + 0x100 * f[1] as int + 0x1_0000 * f[2] as int + 0x100_0000 * f[3] as int == |s|
  {
    hide LittleEndian;
    var size := LittleEndian(|s| % MAX_SIZE, 4);
    assert |s| % MAX_SIZE == |s|;
    LittleEndianLayout(|s|);
    assert SendString(s) == size + s && (size + s)[4..] == s;
  }
}
