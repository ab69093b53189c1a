/** The value of the -L, -R, -U and -V options, "[bind_address:]port:host:port"
    (src/services/user_services/option_parser.cpp), and its way through the parameter
    bag of the TCP forwarding service (port_forwarding.h). */
module ForwardOptions {
  import opened MessagePack
  import opened CNumerals

  const MAX_PORT: nat := 65535
  const NUL: char := '\0'

  datatype Endpoint = Endpoint(addr: string, port: nat)
  datatype Forward = Forward(from: Endpoint, to: Endpoint)

  predicate ColonFree(s: string)
  {
    ':' !in s
  }

  // -------------------------------------------------- std::string operations

  /** rfind(':', pos) with None for npos, both as a start and as a result. */
  function RFind(s: string, pos: Option<nat>): (r: Option<nat>)
    ensures r.Some? ==> r.value < |s|
    decreases |s|
  {
    if s == "" then None
    else if (pos.None? || |s| - 1 <= pos.value) && s[|s| - 1] == ':' then Some(|s| - 1)
    else RFind(s[..|s| - 1], pos)
  }

  /** The last colon at or before the position, or none there. */
  lemma {:induction false} RFindSpec(s: string, pos: Option<nat>)
    ensures var r := RFind(s, pos);
            && (r.Some? ==> s[r.value] == ':' && (pos.Some? ==> r.value <= pos.value))
            && (forall i | (if r.Some? then r.value + 1 else 0) <= i < |s| && (pos.Some? ==> i <= pos.value)
                  :: s[i] != ':')
    decreases |s|
  {
    if s != "" { RFindSpec(s[..|s| - 1], pos); }
  }

  /** e - 1 in size_type arithmetic: zero wraps around to npos. */
  function Before(e: nat): Option<nat>
  {
    if e == 0 then None else Some(e - 1)
  }

  /** std::string(s, from, to - from): a negative count wraps around to "all the rest". */
  function Slice(s: string, from: nat, to: nat): string
    requires from <= |s|
  {
    if from <= to <= |s| then s[from..to] else s[from..]
  }

  /** The character a pointer into c_str() sees. */
  function CharAt(s: string, i: nat): char
  {
    if i < |s| then s[i] else NUL
  }

  // -------------------------------------------------------------- the parser

  /** strtoul at `p` must convert something, stop at `stop` and stay within a port. */
  function PortBefore(p: string, stop: char): Option<nat>
  {
    var n := Strtoul(p);
    if n.end == 0 || CharAt(p, n.end) != stop || n.value > MAX_PORT then None else Some(n.value)
  }

  function ParseFrom(option: string, e: nat, to: Endpoint): Option<Forward>
  {
    var index := RFind(option, Before(e));
    var addr := if index.None? then ""
                else if option[..index.value] == "" then "*" else option[..index.value];
    match PortBefore(if index.None? then option else option[index.value + 1..], ':')
    case None => None
    case Some(port) => Some(Forward(Endpoint(addr, port), to))
  }

  function Parse(option: string): Option<Forward>
  {
    match RFind(option, None)
    case None => None
    case Some(last) =>
      match PortBefore(option[last + 1..], NUL)
      case None => None
      case Some(port) =>
        match RFind(option, Before(last))
        case None => None
        case Some(middle) =>
          ParseFrom(option, middle, Endpoint(Slice(option, middle + 1, last), port))
  }

  /** ParseForwardOptions as written, reassigning index, e, p and val. */
  method ParseForwardOptions(option: string) returns (r: Option<Forward>)
    ensures r == Parse(option)
  {
    hide RFind, Strtoul;
    var from, to := Endpoint("", 0), Endpoint("", 0);
    var index := RFind(option, None);
    if index == None {
      return None;
    }
    var p := option[index.value + 1..];
    var val := Strtoul(p);
    if val.end == 0 || CharAt(p, val.end) != NUL || val.value > MAX_PORT {
      return None;
    }
    to := to.(port := val.value);

    var e := index.value;
    index := RFind(option, Before(e));
    if index == None {
      return None;
    }
    to := to.(addr := Slice(option, index.value + 1, e));
    assert Parse(option) == ParseFrom(option, index.value, to);

    e := index.value;
    index := RFind(option, Before(e));
    if index != None {
      var s := option[..index.value];
      from := from.(addr := if s == "" then "*" else s);
      p := option[index.value + 1..];
    } else {
      from := from.(addr := "");
      p := option;
    }
    val := Strtoul(p);
    if val.end == 0 || CharAt(p, val.end) != ':' || val.value > MAX_PORT {
      return None;
    }
    from := from.(port := val.value);
    return Some(Forward(from, to));
  }

  // ----------------------------------------------- the texts that are accepted

  function Head(bind: Option<string>): string
  {
    if bind.Some? then bind.value + ":" else ""
  }

  /** `[bind:]p1:host:p2`. */
  function Text(bind: Option<string>, p1: string, host: string, p2: string): string
  {
    Head(bind) + (p1 + ":" + (host + ":" + p2))
  }

  /** A numeral as strtoul reads it, with nothing after it, naming a port. */
  predicate IsPort(text: string, port: nat)
  {
    text != "" && Strtoul(text).end == |text| && Strtoul(text).value == port && port <= MAX_PORT
  }

  function BindAddress(bind: Option<string>): string
  {
    if bind.None? then "" else if bind.value == "" then "*" else bind.value
  }

  /** What `option` must look like for `f` to be its meaning. */
  ghost predicate Means(option: string, bind: Option<string>, p1: string, host: string, p2: string,
                        f: Forward)
  {
    && option == Text(bind, p1, host, p2)
    && ColonFree(p1) && ColonFree(host) && ColonFree(p2)
    && IsPort(p1, f.from.port) && IsPort(p2, f.to.port)
    && f.from.addr == BindAddress(bind) && f.to.addr == host
  }

  // ------------------------------------------------------------ about strtoul

  lemma {:induction false} SpacesOf(a: string, t: string)
    requires t == "" || !IsSpace(t[0])
    ensures Spaces(a + t) == Spaces(a)
  {
    if a == "" {
      assert a + t == t;
    } else {
      assert (a + t)[1..] == a[1..] + t;
      SpacesOf(a[1..], t);
    }
  }

  lemma {:induction false} DigitsStop(a: string, t: string)
    requires t == "" || !IsDigit(t[0])
    ensures Digits(a + t) == Digits(a)
  {
    if a == "" {
      assert a + t == t;
    } else {
      assert (a + t)[1..] == a[1..] + t;
      DigitsStop(a[1..], t);
    }
  }

  lemma DigitsStartOf(a: string, t: string)
    requires t == "" || t[0] == ':'
    ensures DigitsStart(a + t) == DigitsStart(a)
  {
    SpacesOf(a, t);
  }

  /** strtoul does not look past a colon. */
  lemma StrtoulStopsAtColon(a: string, t: string)
    requires t == "" || t[0] == ':'
    ensures Strtoul(a + t) == Strtoul(a)
  {
    hide Digits, DigitsStart, Spaces, Converted, AllDigits;
    DigitsStartOf(a, t);
    var d := DigitsStart(a);
    var n := Digits(a[d..]);
    DigitsStop(a[d..], t);
    SlicesOf(a, t, d, n);
  }

  lemma SlicesOf(a: string, t: string, d: nat, n: nat)
    requires d <= |a| && n <= |a| - d
    ensures (a + t)[d..] == a[d..] + t && (a + t)[d..][..n] == a[d..][..n]
    ensures d > 0 ==> (a + t)[d - 1] == a[d - 1]
  {
  }

  /** At the end of a NUL-free text, a port fills the whole text. */
  lemma PortAtEnd(text: string, port: nat)
    requires NUL !in text
    ensures PortBefore(text, NUL) == Some(port) <==> IsPort(text, port)
  {
  }

  lemma PortAtEndAnyway(text: string, port: nat)
    requires IsPort(text, port)
    ensures PortBefore(text, NUL) == Some(port)
  {
  }

  /** A port is white space, a sign and digits: none of them a NUL. */
  lemma PortHasNoNul(text: string, port: nat)
    requires IsPort(text, port)
    ensures text != "" && NUL !in text
  {
    var d := DigitsStart(text);
    var n := Digits(text[d..]);
    assert d + n == |text|;
    forall i | 0 <= i < |text| ensures text[i] != NUL {
      if i >= d { assert text[i] == text[d..][..n][i - d]; }
    }
  }

  /** A port written as white space, a sign and digits; with a minus sign it is what is missing
      to 2^64. */
  ghost predicate PortNumeral(text: string, w: string, sign: string, ds: string, port: nat)
  {
    && text == w + (sign + ds) && AllWhite(w) && sign in {"", "+", "-"} && ds != "" && Decimal(ds)
    && port <= 65535
    && (PlaceValue(ds) == (if sign == "-" && port > 0 then 0x1_0000_0000_0000_0000 - port else port))
  }

  /** Exactly which texts are ports. */
  lemma IsPortExact(text: string, port: nat)
    ensures IsPort(text, port) <==> exists w, sign, ds :: PortNumeral(text, w, sign, ds, port)
  {
    if exists w, sign, ds :: PortNumeral(text, w, sign, ds, port) {
      var w, sign, ds :| PortNumeral(text, w, sign, ds, port);
      StrtoulExact(w, sign, ds, "");
      assert ds + "" == ds;
    }
    if IsPort(text, port) {
      var w, sign, ds := PortSplits(text, port);
    }
  }

  lemma PortSplits(text: string, port: nat) returns (w: string, sign: string, ds: string)
    requires IsPort(text, port)
    ensures PortNumeral(text, w, sign, ds, port)
  {
    w, sign, ds := NumeralSplits(text);
    hide Strtoul, AllWhite, Decimal;
    StrtoulExact(w, sign, ds, "");
    assert ds + "" == ds;
  }

  /** A text that strtoul reads to its end is white space, a sign and digits. */
  lemma NumeralSplits(text: string) returns (w: string, sign: string, ds: string)
    requires text != "" && Strtoul(text).end == |text|
    ensures text == w + (sign + ds) && AllWhite(w) && sign in {"", "+", "-"} && ds != "" && Decimal(ds)
  {
    hide Converted, Digits, Spaces, AllWhite, AllDigits, Decimal;
    var b, d := Spaces(text), DigitsStart(text);
    w, sign, ds := text[..b], text[b..d], text[d..];
    assert ds[..Digits(ds)] == ds;
    assert sign in {"", "+", "-"} by { if d > b { assert sign == [text[b]]; } }
    assert text == w + (sign + ds);
    SpacesAreWhite(text);
    DecimalIsDigits(ds);
  }

  lemma SpacesAreWhite(text: string)
    ensures AllWhite(text[..Spaces(text)])
  {
    forall i | 0 <= i < Spaces(text) ensures White(text[i]) { DigitIsDigit(text[i]); }
  }

  /** Before a colon, a port fills the colon-free text in front of it. */
  lemma PortAtColon(text: string, rest: string, port: nat)
    requires ColonFree(text)
    ensures PortBefore(text + ":" + rest, ':') == Some(port) <==> IsPort(text, port)
  {
    var p, t := text + ":" + rest, ":" + rest;
    assert p == text + t;
    StrtoulStopsAtColon(text, t);
    var n := Strtoul(text);
    assert n.end < |text| ==> p[n.end] != ':';
    assert p[|text|] == ':';
  }

  // ---------------------------------------------------------- both directions

  lemma RFindIs(s: string, pos: Option<nat>, i: nat)
    requires i < |s| && s[i] == ':' && (pos.Some? ==> i <= pos.value)
    requires forall k :: i < k < |s| && (pos.Some? ==> k <= pos.value) ==> s[k] != ':'
    ensures RFind(s, pos) == Some(i)
  {
    hide RFind;
    RFindSpec(s, pos);
  }

  /** The last three colon-separated parts of `s` start at `b`, after `middle` and after
      `last`. */
  ghost predicate CutAt(s: string, b: nat, middle: nat, last: nat)
  {
    && b <= middle < last < |s| && s[middle] == ':' && s[last] == ':'
    && (b > 0 ==> s[b - 1] == ':')
    && (forall k :: b <= k < |s| && k != middle && k != last ==> s[k] != ':')
  }

  /** Parsing finds those parts. */
  lemma ParseAtCut(s: string, b: nat, middle: nat, last: nat, f: Forward)
    requires CutAt(s, b, middle, last) && 0 < middle
    requires IsPort(s[b..middle], f.from.port) && IsPort(s[last + 1..], f.to.port)
    requires f.to.addr == s[middle + 1..last]
    requires f.from.addr == if b == 0 then "" else if b == 1 then "*" else s[..b - 1]
    ensures Parse(s) == Some(f)
  {
    hide RFind, PortBefore, IsPort;
    RFindIs(s, None, last);
    RFindIs(s, Before(last), middle);
    PortAtEndAnyway(s[last + 1..], f.to.port);
    assert s[b..] == s[b..middle] + ":" + s[middle + 1..];
    PortAtColon(s[b..middle], s[middle + 1..], f.from.port);
    if b > 0 {
      RFindIs(s, Before(middle), b - 1);
      assert s[b - 1 + 1..] == s[b..];
    } else {
      assert s[0..] == s;
      RFindSpec(s, Before(middle));
    }
  }

  /** The positions of the parts of a text. */
  lemma TextSlices(h: string, p1: string, host: string, p2: string)
    ensures var s := h + (p1 + ":" + (host + ":" + p2));
            var middle := |h| + |p1|;
            var last := middle + 1 + |host|;
            && |s| == last + 1 + |p2| && s[..|h|] == h && s[|h|..middle] == p1 && s[middle] == ':'
            && s[middle + 1..last] == host && s[last] == ':' && s[last + 1..] == p2
  {
    var u, t := host + ":" + p2, p1 + ":" + (host + ":" + p2);
    assert t[|p1| + 1..] == u;
    assert (h + t)[|h| + |p1| + 1..] == u;
  }

  lemma TextParts(option: string, bind: Option<string>, p1: string, host: string, p2: string)
    requires option == Text(bind, p1, host, p2)
    ensures var b := |Head(bind)|;
            var middle := b + |p1|;
            var last := middle + 1 + |host|;
            && |option| == last + 1 + |p2|
            && option[b..middle] == p1 && option[middle] == ':'
            && option[middle + 1..last] == host && option[last] == ':' && option[last + 1..] == p2
    ensures bind.Some? ==> option[|bind.value|] == ':' && option[..|bind.value|] == bind.value
  {
    TextSlices(Head(bind), p1, host, p2);
    if bind.Some? { HeadSlices(bind.value, p1 + ":" + (host + ":" + p2)); }
  }

  lemma HeadSlices(bind: string, rest: string)
    ensures var s := (bind + ":") + rest; s[|bind|] == ':' && s[..|bind|] == bind
  {
  }

  lemma ColonFreeSlicesCut(s: string, b: nat, middle: nat, last: nat)
    requires b <= middle < last < |s| && s[middle] == ':' && s[last] == ':'
    requires b > 0 ==> s[b - 1] == ':'
    requires ColonFree(s[b..middle]) && ColonFree(s[middle + 1..last]) && ColonFree(s[last + 1..])
    ensures CutAt(s, b, middle, last)
  {
    forall k | b <= k < |s| && k != middle && k != last ensures s[k] != ':' {
      if k < middle { assert s[k] in s[b..middle]; }
      else if k < last { assert s[k] in s[middle + 1..last]; }
      else { assert s[k] in s[last + 1..]; }
    }
  }

  /** A text of the accepted form parses to its meaning. */
  lemma MeaningIsParsed(option: string, bind: Option<string>, p1: string, host: string, p2: string,
                        f: Forward)
    requires Means(option, bind, p1, host, p2, f)
    ensures Parse(option) == Some(f)
  {
    hide Parse, IsPort, CutAt, ColonFree, Text;
    TextParts(option, bind, p1, host, p2);
    PortHasNoNul(p1, f.from.port);
    var b := if bind.Some? then |bind.value| + 1 else 0;
    var middle := b + |p1|;
    ColonFreeSlicesCut(option, b, middle, middle + 1 + |host|);
    ParseAtCut(option, b, middle, middle + 1 + |host|, f);
  }

  /** A middle colon at position 0 makes the next search wrap around and find the last colon
      again; the numeral after it ends the string, so it is not the port before a colon. */
  lemma WrapIsRejected(option: string, last: nat, middle: nat, to: Endpoint)
    requires RFind(option, None) == Some(last) && PortBefore(option[last + 1..], NUL).Some?
    requires middle == 0
    ensures ParseFrom(option, middle, to) == None
  {
    hide RFind, Strtoul;
    assert RFind(option, Before(middle)) == Some(last);
  }

  /** Cutting a string at two or three of its colons. */
  lemma CutAtColons(s: string, third: Option<nat>, middle: nat, last: nat)
    requires third.Some? ==> third.value < middle
    requires middle < last < |s|
    requires s[middle] == ':' && s[last] == ':' && (third.Some? ==> s[third.value] == ':')
    ensures var b := if third.Some? then third.value + 1 else 0;
            var bind := if third.Some? then Some(s[..third.value]) else None;
            && s == Text(bind, s[b..middle], s[middle + 1..last], s[last + 1..])
            && s[b..] == s[b..middle] + ":" + (s[middle + 1..last] + ":" + s[last + 1..])
  {
    var b := if third.Some? then third.value + 1 else 0;
    assert s[middle + 1..] == s[middle + 1..last] + ":" + s[last + 1..];
    assert s[b..] == s[b..middle] + ":" + s[middle + 1..];
    if third.Some? {
      assert s == s[..third.value] + ":" + s[b..];
    } else {
      assert s == s[0..];
    }
  }

  /** Where a successful parse has cut its input. */
  lemma ParseCuts(option: string) returns (third: Option<nat>, middle: nat, last: nat)
    requires Parse(option).Some?
    ensures RFind(option, None) == Some(last) && RFind(option, Before(last)) == Some(middle)
    ensures third == RFind(option, Before(middle)) && 0 < middle < last
    ensures var f := Parse(option).value;
            && PortBefore(option[last + 1..], NUL) == Some(f.to.port)
            && PortBefore(option[if third.Some? then third.value + 1 else 0..], ':') == Some(f.from.port)
            && f.to.addr == option[middle + 1..last]
            && f.from.addr == BindAddress(if third.Some? then Some(option[..third.value]) else None)
  {
    hide RFind, Strtoul, PortBefore;
    last := RFind(option, None).value;
    middle := RFind(option, Before(last)).value;
    third := RFind(option, Before(middle));
    RFindSpec(option, Before(last));
    if middle == 0 {
      WrapIsRejected(option, last, middle, Endpoint(Slice(option, 1, last), Parse(option).value.to.port));
      assert false;
    }
    assert option[0..] == option;
  }

  /** The text after the last colon. */
  function LastPart(option: string): string
  {
    match RFind(option, None) case None => option case Some(last) => option[last + 1..]
  }

  /** Whatever parses has the accepted form, if no NUL follows its last colon. */
  lemma ParsedHasMeaning(option: string) returns (bind: Option<string>, p1: string, host: string, p2: string)
    ensures Parse(option).Some? && NUL !in LastPart(option) ==>
              Means(option, bind, p1, host, p2, Parse(option).value)
  {
    hide RFind, Parse, Text, PortBefore, IsPort;
    if Parse(option).None? {
      return None, "", "", "";
    }
    var third, middle, last := ParseCuts(option);
    RFindSpec(option, None);
    RFindSpec(option, Before(last));
    RFindSpec(option, Before(middle));
    var b := if third.Some? then third.value + 1 else 0;
    bind := if third.Some? then Some(option[..third.value]) else None;
    p1, host, p2 := option[b..middle], option[middle + 1..last], option[last + 1..];
    CutAtColons(option, third, middle, last);
    if NUL !in p2 {
      PortAtEnd(p2, Parse(option).value.to.port);
      PortAtColon(p1, host + ":" + p2, Parse(option).value.from.port);
    }
  }

  /** In a text of the accepted form, the last part is its second port. */
  lemma LastPartOfText(option: string, bind: Option<string>, p1: string, host: string, p2: string, f: Forward)
    requires Means(option, bind, p1, host, p2, f)
    ensures LastPart(option) == p2 && NUL !in p2
  {
    hide RFind, Text, IsPort;
    TextParts(option, bind, p1, host, p2);
    PortHasNoNul(p2, f.to.port);
    RFindIs(option, None, |option| - 1 - |p2|);
  }

  /** Exactly when the parser accepts a string of the form `[A:]P1:H:P2` with colon-free P1, H
      and P2 and both ports in 0..65535, read as written: if and only if it accepts the string
      and no NUL follows the last colon.  A NUL anywhere else does no harm. */
  lemma ParserExact(option: string, f: Forward)
    ensures Parse(option) == Some(f) && NUL !in LastPart(option) <==>
            exists bind, p1, host, p2 :: Means(option, bind, p1, host, p2, f)
  {
    hide Parse, LastPart, Means;
    if Parse(option) == Some(f) && NUL !in LastPart(option) {
      var bind, p1, host, p2 := ParsedHasMeaning(option);
    }
    if exists bind, p1, host, p2 :: Means(option, bind, p1, host, p2, f) {
      var bind, p1, host, p2 :| Means(option, bind, p1, host, p2, f);
      MeaningIsParsed(option, bind, p1, host, p2, f);
      LastPartOfText(option, bind, p1, host, p2, f);
    }
  }

  /** A NUL inside the string hides what follows it: here "1:h:2", a NUL, and more. */
  lemma NulHidesTheRest(junk: string)
    requires ColonFree(junk)
    ensures Parse("1:h:2" + [NUL] + junk) == Some(Forward(Endpoint("", 1), Endpoint("h", 2)))
  {
    hide RFind, Strtoul;
    var option := "1:h:2" + [NUL] + junk;
    RFindIs(option, None, 3);
    RFindIs(option, Before(3), 1);
    var rest := [NUL] + junk;
    assert option[4..] == ToDecimal(2) + rest;
    StrtoulOfDecimal(2, rest);
    RFindSpec(option, Before(1));
    assert option == ToDecimal(1) + option[1..];
    StrtoulOfDecimal(1, option[1..]);
    assert option[2..3] == "h";
  }

  // --------------------------------------------------------------- round trip

  /** The option text for a pair of endpoints. */
  function Print(f: Forward): string
  {
    Text(if f.from.addr == "" then None else Some(f.from.addr),
         ToDecimal(f.from.port), f.to.addr, ToDecimal(f.to.port))
  }

  lemma DecimalIsPort(port: nat)
    requires port <= MAX_PORT
    ensures IsPort(ToDecimal(port), port) && ColonFree(ToDecimal(port))
  {
    StrtoulOfDecimal(port, "");
    assert ToDecimal(port) + "" == ToDecimal(port);
  }

  predicate Printable(f: Forward)
  {
    f.from.port <= MAX_PORT && f.to.port <= MAX_PORT && ColonFree(f.to.addr)
  }

  /** Parsing undoes printing for every endpoint pair with a colon-free host. */
  lemma ParseUndoesPrint(f: Forward)
    requires Printable(f)
    ensures Parse(Print(f)) == Some(f)
  {
    hide Strtoul, Parse;
    DecimalIsPort(f.from.port);
    DecimalIsPort(f.to.port);
    MeaningIsParsed(Print(f), if f.from.addr == "" then None else Some(f.from.addr),
                    ToDecimal(f.from.port), f.to.addr, ToDecimal(f.to.port), f);
  }

  // ------------------------------------------------- through the parameter bag

  type Bag = map<string, string>

  /** CreateUserServiceParameters. */
  function MakeBag(line: string): Option<Bag>
  {
    match Parse(line)
    case None => None
    case Some(f) =>
      Some(map["from_addr" := f.from.addr, "from_port" := ToDecimal(f.from.port),
               "to_addr" := f.to.addr, "to_port" := ToDecimal(f.to.port)])
  }

  /** ParsePort; unlike the option parser it takes an empty text for port 0. */
  function ParsePort(text: string): Option<nat>
  {
    var n := Strtoul(text);
    if CharAt(text, n.end) != NUL || n.value > MAX_PORT then None else Some(n.value)
  }

  /** CreateUserService: the endpoints the service is made with. */
  function MakeService(bag: Bag): Option<Forward>
  {
    if "from_addr" !in bag || "from_port" !in bag || "to_addr" !in bag || "to_port" !in bag
    then None
    else match ParsePort(bag["from_port"])
      case None => None
      case Some(fromPort) => match ParsePort(bag["to_port"])
        case None => None
        case Some(toPort) =>
          Some(Forward(Endpoint(bag["from_addr"], fromPort), Endpoint(bag["to_addr"], toPort)))
  }

  lemma BagKeysDiffer()
    ensures "from_addr" != "from_port" && "to_addr" != "to_port"
  {
    assert "from_addr"[5] != "from_port"[5] && "to_addr"[3] != "to_port"[3];
  }

  lemma ParsedPorts(option: string)
    ensures Parse(option).Some? ==>
              Parse(option).value.from.port <= MAX_PORT && Parse(option).value.to.port <= MAX_PORT
  {
    hide RFind, Strtoul;
  }

  /** ParsePort takes exactly the ports, and the empty text for port 0. */
  lemma ParsePortExact(text: string, port: nat)
    requires NUL !in text
    ensures ParsePort(text) == Some(port) <==> IsPort(text, port) || (text == "" && port == 0)
  {
    if text == "" { assert Digits(text[DigitsStart(text)..]) == 0; }
  }

  /** A line the bag is made from gives a service with exactly the parsed endpoints, and so
      a printed pair of endpoints comes out of the bag unchanged. */
  lemma BagKeepsEndpoints(line: string)
    ensures MakeBag(line).Some? <==> Parse(line).Some?
    ensures MakeBag(line).Some? ==> MakeService(MakeBag(line).value) == Parse(line)
    ensures MakeBag(line).Some? ==>
              (var bag, f := MakeBag(line).value, Parse(line).value;
               && bag.Keys == {"from_addr", "from_port", "to_addr", "to_port"}
               && bag["from_addr"] == f.from.addr && bag["to_addr"] == f.to.addr
               && IsPort(bag["from_port"], f.from.port) && IsPort(bag["to_port"], f.to.port))
  {
    hide Strtoul, Parse;
    BagKeysDiffer();
    if Parse(line).Some? {
      ParsedPorts(line);
      DecimalIsPort(Parse(line).value.from.port);
      DecimalIsPort(Parse(line).value.to.port);
    }
  }

  lemma ServiceUndoesPrint(f: Forward)
    requires Printable(f)
    ensures MakeBag(Print(f)).Some? && MakeService(MakeBag(Print(f)).value) == Some(f)
  {
    hide Parse, Print, MakeService;
    ParseUndoesPrint(f);
    BagKeepsEndpoints(Print(f));
  }
}
