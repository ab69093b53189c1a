/** Half-duplex links (src/network/ssf/network/socket_link.h) and a chain of them, as a
    circuit of relays forms it with SessionForwarder. */
module RelayChain {

  type Bytes = string

  // ------------------------------------------------------- a chain, as a value

  /** One link: how much of its input it has read, and what it holds for writing. */
  datatype Link = Link(consumed: nat, held: Bytes, writing: bool, stopped: bool)

  const IDLE: Link := Link(0, "", false, false)

  /** streams[0] is what the source has sent; streams[i + 1] what link i has written. */
  datatype Chain = Chain(streams: seq<Bytes>, links: seq<Link>)

  function Fresh(n: nat): Chain
  {
    Chain(seq(n + 1, _ => ""), seq(n, _ => IDLE))
  }

  datatype Event =
    | Send(bytes: Bytes)
    | Reads(link: nat, count: nat)
    | Writes(link: nat, none: bool)
    | Fails(link: nat, sent: nat)

  predicate Shaped(c: Chain)
  {
    |c.streams| == |c.links| + 1
  }

  /** A link reads only when it is not writing, and no more than has been sent to it; a
      write that moves no bytes is repeated; a link that fails stops for good, and its last
      write may have got any part of its bytes out. */
  function Step(c: Chain, e: Event): (d: Chain)
    requires Shaped(c)
    ensures Shaped(d) && |d.links| == |c.links|
  {
    match e
    case Send(bytes) => c.(streams := c.streams[0 := c.streams[0] + bytes])
    case Reads(i, count) =>
      if i >= |c.links| then c
      else
        var l := c.links[i];
        if l.writing || l.stopped || l.consumed + count > |c.streams[i]| then c
        else c.(links := c.links[i := l.(consumed := l.consumed + count, writing := true,
                                         held := c.streams[i][l.consumed..l.consumed + count])])
    case Writes(i, none) =>
      if i >= |c.links| then c
      else
        var l := c.links[i];
        if !l.writing || l.stopped || (none && l.held != "") then c
        else Chain(c.streams[i + 1 := c.streams[i + 1] + l.held],
                   c.links[i := l.(held := "", writing := false)])
    case Fails(i, sent) =>
      if i >= |c.links| || c.links[i].stopped then c
      else
        var l := c.links[i];
        var n := if sent <= |l.held| then sent else |l.held|;
        Chain(c.streams[i + 1 := c.streams[i + 1] + l.held[..n]],
              c.links[i := l.(held := l.held[n..], stopped := true)])
  }

  function Run(c: Chain, events: seq<Event>): (d: Chain)
    requires Shaped(c)
    ensures Shaped(d) && |d.links| == |c.links|
  {
    if events == [] then c else Step(Run(c, events[..|events| - 1]), events[|events| - 1])
  }

  /** What a link has written and holds is exactly what it has read, in order. */
  ghost predicate Faithful(c: Chain, i: nat)
    requires Shaped(c) && i < |c.links|
  {
    var l := c.links[i];
    && l.consumed <= |c.streams[i]|
    && c.streams[i + 1] + l.held == c.streams[i][..l.consumed]
    && (!l.writing ==> l.held == "")
  }

  ghost predicate Inv(c: Chain)
  {
    Shaped(c) && forall i :: 0 <= i < |c.links| ==> Faithful(c, i)
  }

  /** Growing the stream a link reads from does not disturb the link. */
  lemma LongerInput(s: Bytes, t: Bytes, n: nat)
    requires n <= |s|
    ensures (s + t)[..n] == s[..n]
  {
  }

  lemma ReadKeepsFaithful(c: Chain, j: nat, count: nat, i: nat)
    requires Shaped(c) && i < |c.links| && Faithful(c, i)
    ensures Faithful(Step(c, Reads(j, count)), i)
  {
    var l := c.links[i];
    if i == j && l.consumed + count <= |c.streams[i]| {
      var s := c.streams[i];
      assert s[..l.consumed + count] == s[..l.consumed] + s[l.consumed..l.consumed + count];
    }
  }

  /** Link j writes `part`, which is the start of what it holds, and keeps the rest. */
  lemma WrittenKeepsFaithful(c: Chain, j: nat, part: Bytes, l: Link, i: nat)
    requires Shaped(c) && i < |c.links| && j < |c.links| && Faithful(c, i)
    requires part + l.held == c.links[j].held && l.consumed == c.links[j].consumed
    requires !l.writing ==> l.held == ""
    ensures Faithful(Chain(c.streams[j + 1 := c.streams[j + 1] + part], c.links[j := l]), i)
  {
    if i == j {
      assert c.streams[i + 1] + c.links[j].held == (c.streams[i + 1] + part) + l.held;
    } else if i == j + 1 {
      LongerInput(c.streams[i], part, c.links[i].consumed);
    }
  }

  lemma SendKeepsFaithful(c: Chain, bytes: Bytes, i: nat)
    requires Shaped(c) && i < |c.links| && Faithful(c, i)
    ensures Faithful(Step(c, Send(bytes)), i)
  {
    if i == 0 { LongerInput(c.streams[0], bytes, c.links[0].consumed); }
  }

  lemma StepKeepsFaithful(c: Chain, e: Event, i: nat)
    requires Inv(c) && i < |c.links|
    ensures Faithful(Step(c, e), i)
  {
    assert Faithful(c, i);
    if e.Send? {
      SendKeepsFaithful(c, e.bytes, i);
    } else if e.Reads? {
      ReadKeepsFaithful(c, e.link, e.count, i);
    } else if Step(c, e) != c {
      var l := c.links[e.link];
      assert Faithful(c, e.link);
      if e.Writes? {
        assert l.held + "" == l.held;
        WrittenKeepsFaithful(c, e.link, l.held, l.(held := "", writing := false), i);
      } else {
        var n := if e.sent <= |l.held| then e.sent else |l.held|;
        assert l.held == l.held[..n] + l.held[n..];
        WrittenKeepsFaithful(c, e.link, l.held[..n], l.(held := l.held[n..], stopped := true), i);
      }
    }
  }

  lemma StepKeepsInv(c: Chain, e: Event)
    requires Inv(c)
    ensures Inv(Step(c, e))
  {
    hide Step, Faithful;
    forall i | 0 <= i < |c.links| ensures Faithful(Step(c, e), i) { StepKeepsFaithful(c, e, i); }
  }

  lemma {:induction false} RunKeepsInv(n: nat, events: seq<Event>)
    ensures Inv(Run(Fresh(n), events))
  {
    if events != [] {
      RunKeepsInv(n, events[..|events| - 1]);
      StepKeepsInv(Run(Fresh(n), events[..|events| - 1]), events[|events| - 1]);
    }
  }

  /** What the events sent into the chain. */
  function Input(events: seq<Event>): Bytes
  {
    if events == [] then ""
    else
      var last := events[|events| - 1];
      Input(events[..|events| - 1]) + (if last.Send? then last.bytes else "")
  }

  lemma {:induction false} SourceIsInput(n: nat, events: seq<Event>)
    ensures Run(Fresh(n), events).streams[0] == Input(events)
  {
    if events != [] { SourceIsInput(n, events[..|events| - 1]); }
  }

  lemma {:induction false} StreamsShrink(c: Chain, i: nat)
    requires Inv(c) && i <= |c.links|
    ensures c.streams[i] <= c.streams[0]
  {
    if i > 0 {
      assert Faithful(c, i - 1);
      StreamsShrink(c, i - 1);
    }
  }

  /** Through any number of chained links, whatever the scheduling, retries and failures, the
      bytes that come out are always a prefix of the bytes that went in. */
  lemma ChainTheorem(n: nat, events: seq<Event>)
    ensures Run(Fresh(n), events).streams[n] <= Input(events)
  {
    SourceIsInput(n, events);
    RunKeepsInv(n, events);
    StreamsShrink(Run(Fresh(n), events), n);
  }

  /** When every link has read all that was sent to it and holds nothing, all of the input
      has come out. */
  lemma {:induction false} FlushedChainIsComplete(c: Chain, i: nat)
    requires Inv(c) && i <= |c.links|
    requires forall k :: 0 <= k < |c.links| ==>
               !c.links[k].writing && c.links[k].consumed == |c.streams[k]|
    ensures c.streams[i] == c.streams[0]
  {
    if i > 0 {
      assert Faithful(c, i - 1);
      FlushedChainIsComplete(c, i - 1);
      var s := c.streams[i - 1];
      assert s[..|s|] == s && c.streams[i] + "" == c.streams[i];
    }
  }

  /** Reading and then writing, on a link that is free: exactly the bytes read, and nothing
      else, come out on the next stream, and the link is free again. */
  lemma ReadThenWrite(c: Chain, i: nat, count: nat)
    requires Inv(c) && i < |c.links| && !c.links[i].writing && !c.links[i].stopped
    requires c.links[i].consumed + count <= |c.streams[i]|
    ensures var d := Step(Step(c, Reads(i, count)), Writes(i, false));
            var from := c.links[i].consumed;
            && d.streams == c.streams[i + 1 := c.streams[i + 1] + c.streams[i][from..from + count]]
            && d.links == c.links[i := c.links[i].(consumed := from + count)]
  {
    assert Faithful(c, i);
    var d := Step(Step(c, Reads(i, count)), Writes(i, false));
    assert d.links == c.links[i := c.links[i].(consumed := c.links[i].consumed + count)];
  }

  /** Finishing the write under way, reading all there is, and writing it. */
  function Pump(c: Chain, i: nat): seq<Event>
    requires Shaped(c) && i < |c.links| && c.links[i].consumed <= |c.streams[i]|
  {
    [Writes(i, false), Reads(i, |c.streams[i]| - c.links[i].consumed), Writes(i, false)]
  }

  lemma PumpPassesAll(c: Chain, i: nat)
    requires Inv(c) && i < |c.links| && !c.links[i].stopped && c.links[i].consumed <= |c.streams[i]|
    ensures var d := Run(c, Pump(c, i));
            && Inv(d) && |d.links| == |c.links|
            && d.streams[i + 1] == c.streams[i]
            && (forall k :: 0 <= k <= i ==> d.streams[k] == c.streams[k])
            && (forall k :: 0 <= k < |c.links| && k != i ==> d.links[k] == c.links[k])
            && !d.links[i].stopped
  {
    hide Faithful;
    var n := |c.streams[i]| - c.links[i].consumed;
    var c1 := Step(c, Writes(i, false));
    var c2 := Step(Step(c1, Reads(i, n)), Writes(i, false));
    RunThree(c, Writes(i, false), Reads(i, n), Writes(i, false));
    StepKeepsInv(c, Writes(i, false));
    WritesFree(c, i);
    ReadThenWrite(c1, i, n);
    StepKeepsInv(c1, Reads(i, n));
    StepKeepsInv(Step(c1, Reads(i, n)), Writes(i, false));
    var s := c.streams[i];
    FreeHasWrittenAll(c2, i);
    assert s[..|s|] == s;
  }

  lemma RunThree(c: Chain, a: Event, b: Event, e: Event)
    requires Shaped(c)
    ensures Run(c, [a, b, e]) == Step(Step(Step(c, a), b), e)
  {
    hide Step;
    assert [a, b, e][..2] == [a, b] && [a, b][..1] == [a] && [a][..0] == [];
    assert Run(c, [a]) == Step(c, a);
    assert Run(c, [a, b]) == Step(Step(c, a), b);
  }

  lemma WritesFree(c: Chain, i: nat)
    requires Inv(c) && i < |c.links| && !c.links[i].stopped
    ensures var d := Step(c, Writes(i, false));
            && !d.links[i].writing && !d.links[i].stopped && d.links[i].consumed == c.links[i].consumed
            && (forall k :: 0 <= k <= i ==> d.streams[k] == c.streams[k])
            && (forall k :: 0 <= k < |c.links| && k != i ==> d.links[k] == c.links[k])
  {
  }

  lemma FreeHasWrittenAll(c: Chain, i: nat)
    requires Inv(c) && i < |c.links| && !c.links[i].writing
    ensures c.links[i].consumed <= |c.streams[i]| && c.streams[i + 1] == c.streams[i][..c.links[i].consumed]
  {
    assert Faithful(c, i);
    assert c.streams[i + 1] + "" == c.streams[i + 1];
  }

  lemma {:induction false} RunConcat(c: Chain, a: seq<Event>, b: seq<Event>)
    requires Shaped(c)
    ensures Run(c, a + b) == Run(Run(c, a), b)
    decreases |b|
  {
    if b == [] {
      assert a + b == a;
    } else {
      hide Step;
      var most := b[..|b| - 1];
      assert (a + b)[..|a + b| - 1] == a + most;
      RunConcat(c, a, most);
    }
  }

  lemma {:induction false} PumpUpTo(c: Chain, i: nat) returns (events: seq<Event>)
    requires Inv(c) && i <= |c.links| && forall k :: 0 <= k < |c.links| ==> !c.links[k].stopped
    ensures var d := Run(c, events);
            && Inv(d) && |d.links| == |c.links| && d.streams[0] == c.streams[0] && d.streams[i] == c.streams[0]
            && (forall k :: 0 <= k < |d.links| ==> !d.links[k].stopped)
  {
    if i == 0 {
      events := [];
    } else {
      var most := PumpUpTo(c, i - 1);
      var d := Run(c, most);
      assert Faithful(d, i - 1);
      PumpPassesAll(d, i - 1);
      events := most + Pump(d, i - 1);
      RunConcat(c, most, Pump(d, i - 1));
    }
  }

  /** From any state in which no link has failed, the links can pass on all that was sent: there
      are further reads and writes after which everything has come out at the end. */
  lemma ChainCanFlush(n: nat, events: seq<Event>) returns (more: seq<Event>)
    requires forall k :: 0 <= k < |Run(Fresh(n), events).links| ==> !Run(Fresh(n), events).links[k].stopped
    ensures Run(Fresh(n), events + more).streams[n] == Input(events) == Input(events + more)
  {
    hide Step, Faithful;
    SourceIsInput(n, events);
    RunKeepsInv(n, events);
    more := PumpUpTo(Run(Fresh(n), events), n);
    RunConcat(Fresh(n), events, more);
    SourceIsInput(n, events + more);
  }

  // ------------------------------------------------------------- as an object

  /** AsyncHDSocketLinker: it waits for a read, or for the write of what it has read.
      `transferred` bytes at the start of the working buffer are the ones to write.  Its
      value is a chain of one link, between what was sent to it and what it has written. */
  class HalfDuplexLink {
    var working: array<char>
    var transferred: nat
    var writing: bool
    ghost var input: Bytes
    ghost var output: Bytes
    ghost var consumed: nat

    constructor (size: nat)
      ensures Valid() && View() == Fresh(1) && working.Length == size && fresh(working)
    {
      working := new char[size](_ => '\0');
      transferred, writing, input, output, consumed := 0, false, "", "", 0;
    }

    ghost predicate Valid()
      reads this
    {
      transferred <= working.Length
    }

    ghost function View(): Chain
      reads this, working
      requires Valid()
    {
      Chain([input, output],
            [Link(consumed, if writing then working[..transferred] else "", writing, false)])
    }

    /** A read has delivered the next `data` of the input into the working buffer. */
    method OnRead(data: Bytes)
      requires Valid() && !writing && |data| <= working.Length
      requires consumed + |data| <= |input| && input[consumed..consumed + |data|] == data
      modifies this, working
      ensures Valid() && working == old(working)
      ensures View() == Step(old(View()), Reads(0, |data|))
    {
      var buffer := working;
      for i := 0 to |data|
        modifies buffer
        invariant buffer[..i] == data[..i]
      {
        buffer[i] := data[i];
      }
      transferred := |data|;
      writing := true;
      consumed := consumed + |data|;
      assert buffer[..|data|] == data[..|data|] == data;
    }

    /** The write has reported `n` bytes: all of them, or none at all, which means writing the
        same bytes again. */
    method OnWritten(n: nat)
      requires Valid() && writing && (n == 0 || n == transferred)
      modifies this`writing, this`output
      ensures Valid() && View() == Step(old(View()), Writes(0, n == 0))
    {
      if n == 0 && transferred != 0 {
        return;
      }
      output := output + working[..transferred];
      writing := false;
    }
  }
}
