/** Decimal numerals as the C and C++ libraries print and read them: strtoul
    (section 7.22.1.4 of ISO C11), std::stoul on top of it, and std::to_string. */
module CNumerals {

  /** ULONG_MAX of a 64-bit unsigned long. */
  const ULONG_MAX: nat := 0xFFFF_FFFF_FFFF_FFFF

  predicate IsSpace(c: char)
  {
    c == ' ' || ('\t' <= c <= '\r')
  }

  predicate IsDigit(c: char)
  {
    '0' <= c <= '9'
  }

  predicate AllDigits(s: string)
  {
    forall i :: 0 <= i < |s| ==> IsDigit(s[i])
  }

  /** How many characters at the head of `s` are white space. */
  function Spaces(s: string): (n: nat)
    ensures n <= |s|
    ensures forall i :: 0 <= i < n ==> IsSpace(s[i])
    ensures n < |s| ==> !IsSpace(s[n])
  {
    if s == "" || !IsSpace(s[0]) then 0 else 1 + Spaces(s[1..])
  }

  /** How many characters at the head of `s` are digits. */
  function Digits(s: string): (n: nat)
    ensures n <= |s|
    ensures AllDigits(s[..n])
    ensures n < |s| ==> !IsDigit(s[n])
  {
    if s == "" || !IsDigit(s[0]) then 0 else 1 + Digits(s[1..])
  }

  function DecimalValue(s: string): nat
    requires AllDigits(s)
  {
    if s == "" then 0
    else DecimalValue(s[..|s| - 1]) * 10 + (s[|s| - 1] as int - '0' as int)
  }

  /** What strtoul(s, &end, 10) yields: the value, the offset of `end` from the
      start of the string (0 when nothing was converted), and whether it set
      ERANGE.  A minus sign negates modulo ULONG_MAX + 1. */
  datatype Numeral = Numeral(value: nat, end: nat, overflow: bool)

  /** Offset of the first digit: after white space and at most one sign. */
  function DigitsStart(s: string): (n: nat)
    ensures Spaces(s) <= n <= |s| && n <= Spaces(s) + 1
  {
    var w := Spaces(s);
    if w < |s| && (s[w] == '+' || s[w] == '-') then w + 1 else w
  }

  function Converted(negative: bool, digits: string, end: nat): (r: Numeral)
    requires AllDigits(digits)
    ensures r.end == end && r.value <= ULONG_MAX
  {
    var v := DecimalValue(digits);
    if v > ULONG_MAX then Numeral(ULONG_MAX, end, true)
    else if negative && v > 0 then Numeral(ULONG_MAX + 1 - v, end, false)
    else Numeral(v, end, false)
  }

  function Strtoul(s: string): (r: Numeral)
    ensures r.end <= |s| && r.value <= ULONG_MAX
  {
    var d := DigitsStart(s);
    var n := Digits(s[d..]);
    if n == 0 then Numeral(0, 0, false)
    else Converted(d > 0 && s[d - 1] == '-', s[d..][..n], d + n)
  }

  /** std::stoul; None is the exception for no digits or an out-of-range value. */
  datatype Stoul = NotANumber | Number(value: nat)

  function StoulOf(s: string): Stoul
  {
    var r := Strtoul(s);
    if r.end == 0 || r.overflow then NotANumber else Number(r.value)
  }

  // --------------------------------------------------------------- printing

  function ToDecimal(n: nat): (s: string)
    ensures s != "" && AllDigits(s)
  {
    if n < 10 then [(n + '0' as int) as char]
    else ToDecimal(n / 10) + [(n % 10 + '0' as int) as char]
  }

  lemma {:induction false} DecimalRoundTrip(n: nat)
    ensures DecimalValue(ToDecimal(n)) == n
  {
    var s := ToDecimal(n);
    if n < 10 {
      assert s[..0] == "";
    } else {
      DecimalRoundTrip(n / 10);
      assert s[..|s| - 1] == ToDecimal(n / 10);
    }
  }

  lemma {:induction false} DigitsOf(ds: string, t: string)
    requires AllDigits(ds)
    requires t != "" ==> !IsDigit(t[0])
    ensures Digits(ds + t) == |ds|
  {
    if ds == "" {
      assert ds + t == t;
    } else {
      assert (ds + t)[1..] == ds[1..] + t;
      DigitsOf(ds[1..], t);
    }
  }

  /** Reading what to_string printed gives the number back and stops right after it. */
  lemma StrtoulOfDecimal(n: nat, t: string)
    requires n <= ULONG_MAX
    requires t != "" ==> !IsDigit(t[0])
    ensures Strtoul(ToDecimal(n) + t) == Numeral(n, |ToDecimal(n)|, false)
  {
    var ds := ToDecimal(n);
    var s := ds + t;
    assert IsDigit(s[0]);
    assert Spaces(s) == 0 && DigitsStart(s) == 0;
    assert s[0..] == s;
    DigitsOf(ds, t);
    assert s[..|ds|] == ds;
    DecimalRoundTrip(n);
  }

  // -------------------------------------------- the numerals of the C standard

  predicate White(c: char)
  {
    c as int in {9, 10, 11, 12, 13, 32}
  }

  predicate AllWhite(s: string)
  {
    forall i :: 0 <= i < |s| ==> White(s[i])
  }

  predicate Decimal(s: string)
  {
    forall i :: 0 <= i < |s| ==> s[i] in "0123456789"
  }

  function Pow10(n: nat): nat
  {
    if n == 0 then 1 else 10 * Pow10(n - 1)
  }

  /** The number a row of digits stands for, by the place of each digit. */
  function PlaceValue(ds: string): nat
  {
    if ds == "" then 0 else DigitValue(ds[0]) * Pow10(|ds| - 1) + PlaceValue(ds[1..])
  }

  function DigitValue(c: char): nat
  {
    if '0' <= c <= '9' then c as int - 48 else 0
  }

  lemma {:induction false} PlaceValueSnoc(ds: string, c: char)
    ensures PlaceValue(ds + [c]) == 10 * PlaceValue(ds) + DigitValue(c)
  {
    if ds == "" {
      assert ds + [c] == [c] && [c][1..] == "" && Pow10(0) == 1;
    } else {
      assert (ds + [c])[1..] == ds[1..] + [c];
      PlaceValueSnoc(ds[1..], c);
      assert Pow10(|ds|) == 10 * Pow10(|ds| - 1);
      TenTimes(DigitValue(ds[0]), Pow10(|ds| - 1));
    }
  }

  lemma TenTimes(d: int, p: int)
    ensures d * (10 * p) == 10 * (d * p)
  {
  }

  lemma {:induction false} ValueIsPlaceValue(ds: string)
    requires AllDigits(ds)
    ensures DecimalValue(ds) == PlaceValue(ds)
  {
    if ds != "" {
      var most, last := ds[..|ds| - 1], ds[|ds| - 1];
      ValueIsPlaceValue(most);
      assert most + [last] == ds;
      PlaceValueSnoc(most, last);
    }
  }

  lemma DigitIsDigit(c: char)
    ensures IsDigit(c) <==> c in "0123456789"
    ensures IsSpace(c) <==> White(c)
  {
    if IsDigit(c) { assert "0123456789"[c as int - 48] == c; }
  }

  lemma {:induction false} SpacesBefore(w: string, t: string)
    requires AllWhite(w) && (t == "" || !White(t[0]))
    ensures Spaces(w + t) == |w|
  {
    if w == "" {
      assert w + t == t;
      if t != "" { DigitIsDigit(t[0]); }
    } else {
      DigitIsDigit(w[0]);
      assert (w + t)[1..] == w[1..] + t;
      SpacesBefore(w[1..], t);
    }
  }

  lemma DecimalIsDigits(ds: string)
    ensures Decimal(ds) <==> AllDigits(ds)
  {
    forall i | 0 <= i < |ds| ensures IsDigit(ds[i]) <==> ds[i] in "0123456789" { DigitIsDigit(ds[i]); }
  }

  /** What strtoul makes of white space, a sign and digits: their value, its complement for a
      minus sign, or the largest value when they are too big; and it stops after them. */
  lemma StrtoulExact(w: string, sign: string, ds: string, rest: string)
    requires AllWhite(w) && sign in {"", "+", "-"} && ds != "" && Decimal(ds)
    requires rest == "" || rest[0] !in "0123456789"
    ensures var v, end := PlaceValue(ds), |w| + |sign| + |ds|;
            Strtoul(w + (sign + (ds + rest))) ==
            if v > 0xFFFF_FFFF_FFFF_FFFF then Numeral(0xFFFF_FFFF_FFFF_FFFF, end, true)
            else if sign == "-" && v > 0 then Numeral(0x1_0000_0000_0000_0000 - v, end, false)
            else Numeral(v, end, false)
  {
    hide Strtoul, Decimal;
    DecimalIsDigits(ds);
    if rest != "" { DigitIsDigit(rest[0]); }
    StrtoulConverts(w, sign, ds, rest);
    ValueIsPlaceValue(ds);
  }

  lemma StrtoulConverts(w: string, sign: string, ds: string, rest: string)
    requires AllWhite(w) && sign in {"", "+", "-"} && ds != "" && AllDigits(ds)
    requires rest == "" || !IsDigit(rest[0])
    ensures Strtoul(w + (sign + (ds + rest))) == Converted(sign == "-", ds, |w| + |sign| + |ds|)
  {
    hide Strtoul, Converted, Spaces, Digits, DigitsStart, AllWhite, AllDigits, White, IsDigit;
    var tail := ds + rest;
    SignOrDigitIsBlack(sign, ds, rest);
    SpacesBefore(w, sign + tail);
    DigitsOf(ds, rest);
    NumeralSlices(w, sign, ds, rest);
    SignPlace(w, sign, tail);
    FromParts(w + (sign + tail), |w| + |sign|, ds, rest, sign == "-");
  }

  lemma FromParts(s: string, d: nat, ds: string, rest: string, negative: bool)
    requires DigitsStart(s) == d <= |s| && s[d..] == ds + rest
    requires ds != "" && AllDigits(ds) && Digits(ds + rest) == |ds|
    requires (d > 0 && s[d - 1] == '-') == negative
    ensures Strtoul(s) == Converted(negative, ds, d + |ds|)
  {
    hide Converted, Digits, DigitsStart, AllDigits;
    assert (ds + rest)[..|ds|] == ds;
  }

  lemma NumeralSlices(w: string, sign: string, ds: string, rest: string)
    requires ds != "" && AllDigits(ds)
    ensures var s := w + (sign + (ds + rest));
            s[|w| + |sign|..] == ds + rest && s[|w| + |sign|..][..|ds|] == ds
    ensures IsDigit((ds + rest)[0])
  {
    var s, d := w + (sign + (ds + rest)), |w| + |sign|;
    assert s == (w + sign) + (ds + rest);
    assert (ds + rest)[..|ds|] == ds;
  }

  lemma SignOrDigitIsBlack(sign: string, ds: string, rest: string)
    requires sign in {"", "+", "-"} && ds != "" && AllDigits(ds)
    ensures var t := sign + (ds + rest); t != "" && !White(t[0])
  {
    DigitIsDigit(ds[0]);
  }

  lemma SignPlace(w: string, sign: string, tail: string)
    requires sign in {"", "+", "-"} && tail != "" && IsDigit(tail[0]) && AllWhite(w)
    requires Spaces(w + (sign + tail)) == |w|
    ensures var s, d := w + (sign + tail), |w| + |sign|;
            DigitsStart(s) == d && (d > 0 && s[d - 1] == '-' <==> sign == "-")
  {
    var s := w + (sign + tail);
    if sign == "" {
      assert s[|w|] == tail[0];
      if |w| > 0 { assert s[|w| - 1] == w[|w| - 1]; }
    } else {
      assert s[|w|] == sign[0];
    }
  }

  /** Where no digits follow, nothing is converted. */
  lemma StrtoulNothing(w: string, sign: string, rest: string)
    requires AllWhite(w) && sign in {"", "+", "-"}
    requires rest == "" || rest[0] !in "0123456789"
    requires sign == "" && rest != "" ==> !White(rest[0]) && rest[0] !in "+-"
    ensures Strtoul(w + (sign + rest)) == Numeral(0, 0, false)
  {
    var s := w + (sign + rest);
    if rest != "" { DigitIsDigit(rest[0]); }
    SpacesBefore(w, sign + rest);
    var d := |w| + |sign|;
    assert DigitsStart(s) == d by {
      if |s| > |w| { assert s[|w|] == (sign + rest)[0]; }
    }
    assert s[d..] == rest;
    assert Digits(rest) == 0;
  }
}
