/** The part of MessagePack that parameter stacks travel in: the array, map and
    str families of the "Formats" section of the MessagePack specification on the
    way out, and those plus the bin family (which the C++ string adaptor also
    accepts) on the way in.  A C++ std::string is a Dafny string. */
module MessagePack {

  datatype Option<+T> = None | Some(value: T)

  /** What a reader leaves behind: a value and the unread input, or nothing. */
  datatype Parsed<+T> = Fail | Done(value: T, rest: string)

  const MAX_SIZE: nat := 0x1_0000_0000

  // ---------------------------------------------------------------- integers

  function BigEndian(n: nat, width: nat): (s: string)
    ensures |s| == width
  {
    if width == 0 then "" else BigEndian(n / 256, width - 1) + [(n % 256) as char]
  }

  function FromBigEndian(s: string): nat
  {
    if s == "" then 0
    else FromBigEndian(s[..|s| - 1]) * 256 + s[|s| - 1] as int
  }

  function Pow256(width: nat): (p: nat)
    ensures p > 0
  {
    if width == 0 then 1 else 256 * Pow256(width - 1)
  }

  lemma {:induction false} BigEndianRoundTrip(n: nat, width: nat)
    requires n < Pow256(width)
    ensures FromBigEndian(BigEndian(n, width)) == n
  {
    if width > 0 {
      assert n / 256 < Pow256(width - 1);
      BigEndianRoundTrip(n / 256, width - 1);
      var s := BigEndian(n, width);
      assert s[..|s| - 1] == BigEndian(n / 256, width - 1);
    }
  }

  lemma Pow256Values()
    ensures Pow256(1) == 0x100 && Pow256(2) == 0x1_0000 && Pow256(4) == MAX_SIZE
  {
    assert Pow256(3) == 0x100_0000;
  }

  /** A big-endian length of `width` bytes at the head of the input. */
  function ReadLength(s: string, width: nat): (r: Parsed<nat>)
    ensures r.Done? ==> |r.rest| + width == |s|
  {
    if |s| < width then Fail else Done(FromBigEndian(s[..width]), s[width..])
  }

  lemma ReadLengthRoundTrip(n: nat, width: nat, t: string)
    requires n < Pow256(width)
    ensures ReadLength(BigEndian(n, width) + t, width) == Done(n, t)
  {
    BigEndianRoundTrip(n, width);
    var s := BigEndian(n, width) + t;
    assert s[..width] == BigEndian(n, width) && s[width..] == t;
  }

  // ----------------------------------------------------------------- headers

  datatype Family = Array | Map | Str

  /** Items a family holds in the one-byte form, and that form's base byte. */
  function FixLimit(f: Family): nat { if f.Str? then 32 else 16 }
  function FixBase(f: Family): nat
  {
    match f case Array => 0x90 case Map => 0x80 case Str => 0xa0
  }

  /** Lead byte of the form with a two-byte length; the four-byte form follows it. */
  function WideBase(f: Family): nat
  {
    match f case Array => 0xdc case Map => 0xde case Str => 0xda
  }

  function Header(f: Family, n: nat): (s: string)
    ensures 1 <= |s| <= 5
  {
    if n < FixLimit(f) then [(FixBase(f) + n) as char]
    else if f.Str? && n < 0x100 then [0xd9 as char] + BigEndian(n, 1)
    else if n < 0x1_0000 then [WideBase(f) as char] + BigEndian(n, 2)
    else [(WideBase(f) + 1) as char] + BigEndian(n, 4)
  }

  /** Reads a header of the family; for Str also the bin forms 0xc4..0xc6. */
  function ReadHeader(f: Family, s: string): (r: Parsed<nat>)
    ensures r.Done? ==> |r.rest| < |s|
  {
    if s == "" then Fail
    else
      var lead, t := s[0] as int, s[1..];
      if FixBase(f) <= lead < FixBase(f) + FixLimit(f) then Done(lead - FixBase(f), t)
      else if f.Str? && lead in {0xd9, 0xc4} then ReadLength(t, 1)
      else if lead == WideBase(f) || (f.Str? && lead == 0xc5) then ReadLength(t, 2)
      else if lead == WideBase(f) + 1 || (f.Str? && lead == 0xc6) then ReadLength(t, 4)
      else Fail
  }

  lemma HeaderRoundTrip(f: Family, n: nat, t: string)
    requires n < MAX_SIZE
    ensures ReadHeader(f, Header(f, n) + t) == Done(n, t)
  {
    Pow256Values();
    var s := Header(f, n) + t;
    if n < FixLimit(f) {
      assert s[1..] == t;
    } else {
      var width := if f.Str? && n < 0x100 then 1 else if n < 0x1_0000 then 2 else 4;
      assert s[1..] == BigEndian(n, width) + t;
      ReadLengthRoundTrip(n, width, t);
    }
  }

  /** A header read from `s` is read the same way when more input follows. */
  lemma HeaderExtends(f: Family, s: string, t: string)
    requires ReadHeader(f, s).Done?
    ensures ReadHeader(f, s + t) ==
            Done(ReadHeader(f, s).value, ReadHeader(f, s).rest + t)
  {
    assert (s + t)[1..] == s[1..] + t;
    forall width: nat | width <= |s[1..]|
      ensures ReadLength(s[1..] + t, width) == Done(FromBigEndian(s[1..][..width]), s[1..][width..] + t)
    {
      assert (s[1..] + t)[..width] == s[1..][..width];
      assert (s[1..] + t)[width..] == s[1..][width..] + t;
    }
  }

  // ----------------------------------------------------------------- strings

  function PackStr(v: string): (s: string)
    ensures |v| < |s| <= |v| + 5
  {
    Header(Str, |v|) + v
  }

  function ReadStr(s: string): (r: Parsed<string>)
    ensures r.Done? ==> |r.value| + |r.rest| < |s|
  {
    match ReadHeader(Str, s)
    case Fail => Fail
    case Done(n, t) => if |t| < n then Fail else Done(t[..n], t[n..])
  }

  lemma StrRoundTrip(v: string, t: string)
    requires |v| < MAX_SIZE
    ensures ReadStr(PackStr(v) + t) == Done(v, t)
  {
    assert PackStr(v) + t == Header(Str, |v|) + (v + t);
    HeaderRoundTrip(Str, |v|, v + t);
    assert (v + t)[..|v|] == v && (v + t)[|v|..] == t;
  }

  lemma StrExtends(s: string, t: string)
    requires ReadStr(s).Done?
    ensures ReadStr(s + t) == Done(ReadStr(s).value, ReadStr(s).rest + t)
  {
    HeaderExtends(Str, s, t);
    var n, u := ReadHeader(Str, s).value, ReadHeader(Str, s).rest;
    assert (u + t)[..n] == u[..n] && (u + t)[n..] == u[n..] + t;
  }
}
