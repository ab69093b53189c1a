/** Mounting, retrying, remounting and unmounting interfaces
    (src/network/ssf/system/specific_interfaces_collection.h).  Each call of
    InitializeInterface outside a retry starts a chain of attempts. */
module InterfaceMount {

  type Name = string

  datatype Config = Config(connect: bool, ttl: int)

  datatype Phase = Connecting | Waiting | Accepting

  /** A chain under way: the ttl it began with, what is left of it, attempts made so far, and
      whether it is the chain of a mount or of a later remount. */
  datatype Chain = Chain(name: Name, ttl: int, left: int, made: nat, phase: Phase, initial: bool)

  /** A posted mount callback: the number of the chain that posted it, and the chain as it was
      at its end. */
  datatype Post = Post(chain: nat, last: Chain, success: bool)

  datatype Start = Start(name: Name, initial: bool)

  datatype State = State(interfaces: set<Name>, configs: map<Name, Config>, up: set<Name>,
                         chains: map<nat, Chain>, started: seq<Start>, posts: seq<Post>)

  const FRESH: State := State({}, map[], {}, map[], [], [])

  datatype Event =
    | Mount(name: Name, config: Config)
    | RemountOne(name: Name)
    | Umount(name: Name)
    | UmountAll
    | ConnectDone(chain: nat, error: bool)
    | TimerFires(chain: nat)
    | AcceptDone(chain: nat, error: bool)

  // ------------------------------------------------------------- the handlers

  /** InitializeInterface for a new chain; its number is the count of chains so far. */
  function Begin(s: State, name: Name, initial: bool): State
  {
    if name !in s.interfaces || name !in s.configs then s
    else
      var c := s.configs[name];
      var chain := if c.connect then Chain(name, c.ttl, c.ttl - 1, 1, Connecting, initial)
                   else Chain(name, c.ttl, c.ttl, 0, Accepting, initial);
      s.(chains := s.chains[|s.started| := chain], started := s.started + [Start(name, initial)])
  }

  function Ends(s: State, id: nat): State { s.(chains := s.chains - {id}) }

  function Succeeds(s: State, id: nat, c: Chain): State
  {
    Ends(s, id).(up := s.up + {c.name}, posts := s.posts + [Post(id, c, true)])
  }

  /** The end of the line: an interface that was never up is given up and reported. */
  function GivesUp(s: State, id: nat, c: Chain): State
  {
    if c.name in s.up then Ends(s, id)
    else Ends(s, id).(posts := s.posts + [Post(id, c, false)],
                      interfaces := s.interfaces - {c.name}, configs := s.configs - {c.name})
  }

  function Step(s: State, e: Event): State
  {
    match e
    case Mount(name, config) =>
      if name in s.interfaces then s
      else Begin(s.(interfaces := s.interfaces + {name}, configs := s.configs[name := config]),
                 name, true)
    case RemountOne(name) =>
      if name !in s.up then s
      else if name !in s.interfaces then s.(up := s.up - {name})
      else Begin(s, name, false)
    case Umount(name) =>
      if name !in s.interfaces then s
      else s.(interfaces := s.interfaces - {name}, up := s.up - {name}, configs := s.configs - {name})
    case UmountAll =>
      s.(interfaces := {}, up := s.up - s.interfaces, configs := s.configs - s.interfaces)
    case ConnectDone(id, error) =>
      if id !in s.chains || !s.chains[id].phase.Connecting? then s
      else
        var c := s.chains[id];
        if c.name !in s.interfaces then Ends(s, id)
        else if !error then Succeeds(s, id, c)
        else if c.left <= 0 then GivesUp(s, id, c)
        else s.(chains := s.chains[id := c.(phase := Waiting)])
    case TimerFires(id) =>
      if id !in s.chains || !s.chains[id].phase.Waiting? then s
      else
        var c := s.chains[id];
        if c.name !in s.interfaces || c.name !in s.configs then Ends(s, id)
        else if s.configs[c.name].connect
        then s.(chains := s.chains[id := c.(phase := Connecting, left := c.left - 1, made := c.made + 1)])
        else s.(chains := s.chains[id := c.(phase := Accepting)])
    case AcceptDone(id, error) =>
      if id !in s.chains || !s.chains[id].phase.Accepting? then s
      else
        var c := s.chains[id];
        if c.name !in s.interfaces then Ends(s, id)
        else if error then GivesUp(s, id, c)
        else Succeeds(s, id, c)
  }

  function Run(s: State, events: seq<Event>): State
  {
    if events == [] then s else Step(Run(s, events[..|events| - 1]), events[|events| - 1])
  }

  // --------------------------------------------- what holds in every run

  /** A chain has used up exactly what its ttl has lost. */
  ghost predicate Budget(c: Chain)
  {
    && (!c.phase.Accepting? ==> c.made >= 1 && c.made + c.left == c.ttl && (c.made == 1 || c.left >= 0))
    && (c.phase.Waiting? ==> c.left > 0)
    && (c.phase.Accepting? ==> c.made <= 1 || c.made <= c.ttl)
  }

  /** Both maps have the same keys and only mounted interfaces are up. */
  ghost predicate Keyed(s: State)
  {
    s.interfaces == s.configs.Keys && s.up <= s.interfaces
  }

  ghost predicate ChainsFit(s: State)
  {
    forall id :: id in s.chains ==>
      && Budget(s.chains[id]) && id < |s.started|
      && s.started[id] == Start(s.chains[id].name, s.chains[id].initial)
  }

  /** A chain posts at most once, and is over when it has. */
  ghost predicate PostsFit(s: State)
  {
    && (forall i :: 0 <= i < |s.posts| ==> s.posts[i].chain < |s.started| && s.posts[i].chain !in s.chains)
    && (forall i, j :: 0 <= i < j < |s.posts| ==> s.posts[i].chain != s.posts[j].chain)
  }

  ghost predicate Inv(s: State)
  {
    Keyed(s) && ChainsFit(s) && PostsFit(s)
  }

  lemma BeginKeepsInv(s: State, name: Name, initial: bool)
    requires Inv(s)
    ensures Inv(Begin(s, name, initial))
  {
    var t := Begin(s, name, initial);
    if t != s {
      forall id | id in t.chains
        ensures Budget(t.chains[id]) && id < |t.started|
                && t.started[id] == Start(t.chains[id].name, t.chains[id].initial)
      {
        if id != |s.started| { assert id in s.chains; }
      }
    }
  }

  lemma JustEnds(s: State, id: nat)
    requires Inv(s)
    ensures Inv(Ends(s, id))
  {
    hide Budget;
    assert forall k :: k in Ends(s, id).chains ==> k in s.chains;
  }

  /** A chain that is over may post. */
  lemma PostKeepsInv(s: State, p: Post)
    requires Inv(s) && p.chain < |s.started| && p.chain !in s.chains
    requires forall i :: 0 <= i < |s.posts| ==> s.posts[i].chain != p.chain
    ensures Inv(s.(posts := s.posts + [p]))
  {
    hide Budget;
  }

  lemma EndKeepsInv(s: State, id: nat, c: Chain)
    requires Inv(s) && id in s.chains && c.name in s.interfaces
    ensures Inv(Ends(s, id)) && Inv(Succeeds(s, id, c)) && Inv(GivesUp(s, id, c))
  {
    JustEnds(s, id);
    var t := Ends(s, id);
    assert id < |s.started|;
    PostKeepsInv(t, Post(id, c, true));
    PostKeepsInv(t, Post(id, c, false));
    hide ChainsFit, PostsFit;
    TablesKeepInv(t.(posts := s.posts + [Post(id, c, true)]), Succeeds(s, id, c));
    if c.name !in s.up {
      TablesKeepInv(t.(posts := s.posts + [Post(id, c, false)]), GivesUp(s, id, c));
    }
  }

  lemma ChainMovesOn(s: State, id: nat, c: Chain)
    requires Inv(s) && id in s.chains && Budget(c)
    requires c.name == s.chains[id].name && c.initial == s.chains[id].initial
    ensures Inv(s.(chains := s.chains[id := c]))
  {
    hide Budget;
  }

  lemma ConnectDoneKeepsInv(s: State, id: nat, error: bool)
    requires Inv(s) && id in s.chains && s.chains[id].phase.Connecting?
    ensures Inv(Step(s, ConnectDone(id, error)))
  {
    var c := s.chains[id];
    BudgetOf(s, id);
    hide ChainsFit, PostsFit;
    if c.name !in s.interfaces {
      JustEnds(s, id);
    } else if error && c.left > 0 {
      ChainMovesOn(s, id, c.(phase := Waiting));
    } else {
      EndKeepsInv(s, id, c);
    }
  }

  lemma TimerKeepsInv(s: State, id: nat)
    requires Inv(s) && id in s.chains && s.chains[id].phase.Waiting?
    ensures Inv(Step(s, TimerFires(id)))
  {
    var c := s.chains[id];
    BudgetOf(s, id);
    hide ChainsFit, PostsFit;
    if c.name !in s.interfaces {
      JustEnds(s, id);
    } else if s.configs[c.name].connect {
      ChainMovesOn(s, id, c.(phase := Connecting, left := c.left - 1, made := c.made + 1));
    } else {
      ChainMovesOn(s, id, c.(phase := Accepting));
    }
  }

  lemma AcceptDoneKeepsInv(s: State, id: nat, error: bool)
    requires Inv(s) && id in s.chains && s.chains[id].phase.Accepting?
    ensures Inv(Step(s, AcceptDone(id, error)))
  {
    hide ChainsFit, PostsFit, Budget;
    if s.chains[id].name !in s.interfaces { JustEnds(s, id); }
    else { EndKeepsInv(s, id, s.chains[id]); }
  }

  lemma BudgetOf(s: State, id: nat)
    requires Inv(s) && id in s.chains
    ensures Budget(s.chains[id])
  {
  }

  /** Steps that change tables only. */
  lemma TablesKeepInv(s: State, t: State)
    requires Inv(s) && Keyed(t)
    requires t.chains == s.chains && t.started == s.started && t.posts == s.posts
    ensures Inv(t)
  {
    hide Budget;
  }

  lemma StepKeepsInv(s: State, e: Event)
    requires Inv(s)
    ensures Inv(Step(s, e))
  {
    hide ChainsFit, PostsFit, Begin;
    match e
    case Mount(name, config) =>
      if name !in s.interfaces {
        var t := s.(interfaces := s.interfaces + {name}, configs := s.configs[name := config]);
        TablesKeepInv(s, t);
        BeginKeepsInv(t, name, true);
      }
    case RemountOne(name) => BeginKeepsInv(s, name, false);
    case Umount(_) => TablesKeepInv(s, Step(s, e));
    case UmountAll => TablesKeepInv(s, Step(s, e));
    case ConnectDone(id, error) =>
      if id in s.chains && s.chains[id].phase.Connecting? { ConnectDoneKeepsInv(s, id, error); }
    case TimerFires(id) =>
      if id in s.chains && s.chains[id].phase.Waiting? { TimerKeepsInv(s, id); }
    case AcceptDone(id, error) =>
      if id in s.chains && s.chains[id].phase.Accepting? { AcceptDoneKeepsInv(s, id, error); }
  }

  /** In every run the interface and config maps have equal keys and the up-set is within
      them, so the erase branch of the remount loop is dead, every chain has made at most
      max(1, ttl) attempts, and no chain posts its callback twice. */
  lemma {:induction false} MountTheorem(events: seq<Event>)
    ensures var s := Run(FRESH, events);
            && Inv(s)
            && (forall name :: name in s.up ==> name in s.interfaces)
            && (forall id :: id in s.chains ==>
                  s.chains[id].made <= (if s.chains[id].ttl > 1 then s.chains[id].ttl else 1))
  {
    if events != [] {
      MountTheorem(events[..|events| - 1]);
      StepKeepsInv(Run(FRESH, events[..|events| - 1]), events[|events| - 1]);
    }
  }

  // ---------------------------------------------------- mounting and unmounting

  /** A chain begun for a configuration. */
  function FirstAttempt(name: Name, config: Config, initial: bool): Chain
  {
    if config.connect then Chain(name, config.ttl, config.ttl - 1, 1, Connecting, initial)
    else Chain(name, config.ttl, config.ttl, 0, Accepting, initial)
  }

  /** Exactly one new chain, under the next number. */
  ghost predicate BeginsOne(s: State, t: State, c: Chain)
  {
    && t.chains == s.chains[|s.started| := c] && t.started == s.started + [Start(c.name, c.initial)]
    && t.posts == s.posts
  }

  /** A free name is entered in both maps with its configuration and gets one chain; a mounted
      name is left alone. */
  lemma MountOutcome(s: State, name: Name, config: Config)
    ensures var t := Step(s, Mount(name, config));
            if name in s.interfaces then t == s
            else
              && t.interfaces == s.interfaces + {name} && t.configs == s.configs[name := config] && t.up == s.up
              && BeginsOne(s, t, FirstAttempt(name, config, true))
  {
  }

  /** An interface that has been up and is found down gets one chain of its configuration. */
  lemma RemountOutcome(s: State, name: Name)
    requires Inv(s)
    ensures var t := Step(s, RemountOne(name));
            if name !in s.up then t == s
            else name in s.configs && SameTables(s, t) && BeginsOne(s, t, FirstAttempt(name, s.configs[name], false))
  {
    hide ChainsFit, PostsFit;
  }

  /** An unmounted name is gone from all three tables, and nothing else is; unmounting all
      empties them.  Chains under way stay. */
  lemma UnmountOutcome(s: State, name: Name)
    requires Inv(s)
    ensures var t := Step(s, Umount(name));
            && t.interfaces == s.interfaces - {name} && t.configs == s.configs - {name} && t.up == s.up - {name}
            && t.chains == s.chains && t.posts == s.posts
    ensures var t := Step(s, UmountAll);
            && t.interfaces == {} && t.configs == map[] && t.up == {} && t.chains == s.chains && t.posts == s.posts
  {
    hide ChainsFit, PostsFit;
    var t := Step(s, UmountAll);
    assert t.configs.Keys == {} && t.up == {};
    if name !in s.interfaces { assert name !in s.configs && s.configs - {name} == s.configs; }
  }

  // -------------------------------------------------- no attempt is given away

  /** The attempts a chain with that ttl is good for. */
  function Attempts(ttl: int): nat { if ttl > 1 then ttl else 1 }

  /** A failure is reported only by a chain that has used all its attempts. */
  ghost predicate FailuresSpent(s: State)
  {
    forall i :: 0 <= i < |s.posts| && !s.posts[i].success && s.posts[i].last.phase.Connecting? ==>
      s.posts[i].last.made == Attempts(s.posts[i].last.ttl)
  }

  /** A connecting chain of a mounted interface ends by success, or with all its attempts used,
      and in no other way. */
  lemma EndsOnlyWhenSpent(s: State, e: Event, id: nat)
    requires Inv(s) && id in s.chains && s.chains[id].phase.Connecting? && s.chains[id].name in s.interfaces
    ensures var c := s.chains[id];
            id !in Step(s, e).chains <==>
            e == ConnectDone(id, false) || (e == ConnectDone(id, true) && c.made == Attempts(c.ttl))
  {
    BudgetOf(s, id);
    NumberIsTaken(s, id);
    hide Inv, ChainsFit, PostsFit;
  }

  lemma NumberIsTaken(s: State, id: nat)
    requires Inv(s) && id in s.chains
    ensures id < |s.started|
  {
  }

  /** The end of a chain of a mounted interface, on a success or a final failure: success marks
      the interface up and is posted; failure is posted, and unmounts the interface, unless it
      has been up before. */
  lemma EndOutcome(s: State, e: Event)
    requires Inv(s) && (e.ConnectDone? || e.AcceptDone?) && e.chain in s.chains
    requires s.chains[e.chain].name in s.interfaces
    requires if e.AcceptDone? then s.chains[e.chain].phase.Accepting?
             else s.chains[e.chain].phase.Connecting?
                  && (e.error ==> s.chains[e.chain].made == Attempts(s.chains[e.chain].ttl))
    ensures var t, c := Step(s, e), s.chains[e.chain];
            && t.chains == s.chains - {e.chain}
            && (if e.error && c.name in s.up then t.posts == s.posts
                else t.posts == s.posts + [Post(e.chain, c, !e.error)])
            && t.up == (if e.error then s.up else s.up + {c.name})
            && t.interfaces == (if e.error && c.name !in s.up then s.interfaces - {c.name} else s.interfaces)
  {
    BudgetOf(s, e.chain);
    hide ChainsFit, PostsFit;
  }

  /** After an error with attempts left, the chain waits and then makes exactly one more. */
  lemma RetryMakesOneMore(s: State, id: nat)
    requires Inv(s) && id in s.chains && s.chains[id].phase.Connecting?
    requires s.chains[id].name in s.interfaces && s.configs[s.chains[id].name].connect
    requires s.chains[id].made < Attempts(s.chains[id].ttl)
    ensures var t := Step(Step(s, ConnectDone(id, true)), TimerFires(id));
            && id in t.chains && t.chains[id].phase.Connecting? && t.chains[id].made == s.chains[id].made + 1
            && t.chains[id].ttl == s.chains[id].ttl && t.posts == s.posts && t.interfaces == s.interfaces
  {
    BudgetOf(s, id);
    hide ChainsFit, PostsFit;
  }

  lemma StepKeepsSpent(s: State, e: Event)
    requires Inv(s) && FailuresSpent(s)
    ensures FailuresSpent(Step(s, e))
  {
    if e.ConnectDone? && e.chain in s.chains { BudgetOf(s, e.chain); }
    hide Inv, Begin;
    PostsOfStep(s, e);
  }

  /** A step posts at most one callback: that of the chain it ends, telling how it ended. */
  lemma PostsOfStep(s: State, e: Event)
    ensures var t := Step(s, e);
            || t.posts == s.posts
            || ((e.ConnectDone? || e.AcceptDone?) && e.chain in s.chains
                && t.posts == s.posts + [Post(e.chain, s.chains[e.chain], !e.error)]
                && s.chains[e.chain].name in s.interfaces
                && (e.error ==> s.chains[e.chain].name !in s.up && s.chains[e.chain].name !in t.interfaces)
                && (!e.error ==> s.chains[e.chain].name in t.up)
                && (e.ConnectDone? ==> s.chains[e.chain].phase.Connecting?)
                && (e.AcceptDone? ==> s.chains[e.chain].phase.Accepting?)
                && (e.ConnectDone? && e.error ==> s.chains[e.chain].left <= 0))
  {
  }

  /** In every run: a reported failure of a connecting mount comes after exactly max(1, ttl)
      attempts. */
  lemma {:induction false} FailureUsesAllAttempts(events: seq<Event>)
    ensures FailuresSpent(Run(FRESH, events))
  {
    if events != [] {
      hide FailuresSpent, Inv, Step;
      FailureUsesAllAttempts(events[..|events| - 1]);
      MountTheorem(events[..|events| - 1]);
      StepKeepsSpent(Run(FRESH, events[..|events| - 1]), events[|events| - 1]);
    } else {
      assert FRESH.posts == [];
    }
  }

  // -------------------------------- interfaces that are never unmounted

  predicate Unmounts(e: Event, name: Name)
  {
    e.UmountAll? || (e.Umount? && e.name == name)
  }

  ghost predicate Posted(s: State, id: nat)
  {
    exists i :: 0 <= i < |s.posts| && s.posts[i].chain == id
  }

  /** The chain of a mount of `name` under way: the interface is mounted and not yet up, and
      other chains of `name` run only once it is up. */
  ghost predicate ChainsTidy(s: State, name: Name)
  {
    forall id :: id in s.chains && s.chains[id].name == name ==>
      name in s.interfaces && (s.chains[id].initial <==> name !in s.up)
  }

  ghost predicate AtMostOne(s: State, name: Name)
  {
    name !in s.up ==>
      forall a, b | a in s.chains && b in s.chains && s.chains[a].name == name && s.chains[b].name == name
        :: a == b
  }

  /** Every chain numbered `from` or more of a mount of `name` is still under way or has
      posted its callback. */
  ghost predicate Accounted(s: State, name: Name, from: nat)
  {
    forall id :: from <= id < |s.started| && s.started[id] == Start(name, true) ==>
      id in s.chains || Posted(s, id)
  }

  /** An interface that is mounted and not up has a chain under way. */
  ghost predicate Pursued(s: State, name: Name)
  {
    name in s.interfaces && name !in s.up ==> exists id :: id in s.chains && s.chains[id].name == name
  }

  ghost predicate Tidy(s: State, name: Name, from: nat)
  {
    ChainsTidy(s, name) && AtMostOne(s, name) && Accounted(s, name, from) && Pursued(s, name)
  }

  lemma AccountedGrows(s: State, t: State, name: Name, from: nat)
    requires Accounted(s, name, from) && s.posts <= t.posts && s.started <= t.started
    requires forall k :: |s.started| <= k < |t.started| ==> k in t.chains
    requires forall k :: k in s.chains ==> k in t.chains || Posted(t, k)
    ensures Accounted(t, name, from)
  {
    forall k | from <= k < |t.started| && t.started[k] == Start(name, true)
      ensures k in t.chains || Posted(t, k)
    {
      if k < |s.started| && k !in s.chains {
        var i :| 0 <= i < |s.posts| && s.posts[i].chain == k;
        assert t.posts[i].chain == k;
      }
    }
  }

  lemma PursuedStays(s: State, t: State, name: Name)
    requires Pursued(s, name) && name in s.interfaces && name !in s.up
    requires forall k :: k in s.chains && s.chains[k].name == name ==> k in t.chains && t.chains[k].name == name
    ensures Pursued(t, name)
  {
    var k :| k in s.chains && s.chains[k].name == name;
    assert k in t.chains;
  }

  lemma BeginsTidy(s: State, e: Event, name: Name, from: nat)
    requires Inv(s) && Tidy(s, name, from) && (e.Mount? || e.RemountOne?)
    ensures Tidy(Step(s, e), name, from)
  {
    var t := Step(s, e);
    if t != s {
      var id := |s.started|;
      assert t.chains == s.chains[id := t.chains[id]] && id !in s.chains;
      assert t.chains[id].name == e.name && t.chains[id].initial == e.Mount?;
      AccountedGrows(s, t, name, from);
      if name in s.interfaces && name !in s.up { PursuedStays(s, t, name); }
    }
  }

  /** A chain that ends with its interface mounted. */
  lemma EndsTidy(s: State, name: Name, id: nat, t: State, from: nat)
    requires Inv(s) && Tidy(s, name, from) && id in s.chains && s.chains[id].name in s.interfaces
    requires t == Succeeds(s, id, s.chains[id]) || t == GivesUp(s, id, s.chains[id])
    ensures Tidy(t, name, from)
  {
    var c := s.chains[id];
    assert t.chains == s.chains - {id};
    if c.name == name && name !in s.up {
      assert t.posts[|s.posts|].chain == id;
      assert forall k :: k in s.chains && s.chains[k].name == name ==> k == id;
      EndedInitial(s, t, name, id, from);
    } else {
      EndedOther(s, t, name, id, from);
    }
  }

  lemma EndedInitial(s: State, t: State, name: Name, id: nat, from: nat)
    requires Accounted(s, name, from) && id in s.chains && t.chains == s.chains - {id}
    requires s.posts <= t.posts && t.started == s.started && Posted(t, id)
    requires forall k :: k in s.chains && s.chains[k].name == name ==> k == id
    requires name in t.interfaces ==> name in t.up
    ensures Tidy(t, name, from)
  {
    AccountedGrows(s, t, name, from);
  }

  lemma EndedOther(s: State, t: State, name: Name, id: nat, from: nat)
    requires Inv(s) && Tidy(s, name, from) && id in s.chains && t.chains == s.chains - {id}
    requires s.chains[id].name != name || name in s.up
    requires s.posts <= t.posts && t.started == s.started
    requires name in t.interfaces <==> name in s.interfaces
    requires name in t.up <==> name in s.up
    ensures Tidy(t, name, from)
  {
    forall k | from <= k < |t.started| && t.started[k] == Start(name, true)
      ensures k in t.chains || Posted(t, k)
    {
      if k !in s.chains {
        var i :| 0 <= i < |s.posts| && s.posts[i].chain == k;
        assert t.posts[i].chain == k;
      } else {
        assert s.started[k] == Start(s.chains[k].name, s.chains[k].initial);
      }
    }
    if name in s.interfaces && name !in s.up { PursuedStays(s, t, name); }
  }

  /** A step that only moves one chain on, or changes nothing about `name`. */
  lemma MovesTidy(s: State, t: State, name: Name, from: nat)
    requires Inv(s) && Tidy(s, name, from)
    requires t.posts == s.posts && t.started == s.started && t.chains.Keys == s.chains.Keys
    requires forall k :: k in s.chains ==>
               t.chains[k].name == s.chains[k].name && t.chains[k].initial == s.chains[k].initial
    requires name in t.interfaces <==> name in s.interfaces
    requires name in t.up <==> name in s.up
    ensures Tidy(t, name, from)
  {
    AccountedGrows(s, t, name, from);
    if name in s.interfaces && name !in s.up { PursuedStays(s, t, name); }
  }

  lemma StepKeepsTidy(s: State, e: Event, name: Name, from: nat)
    requires Inv(s) && Tidy(s, name, from) && !Unmounts(e, name)
    ensures Tidy(Step(s, e), name, from)
  {
    hide Tidy, ChainsFit, PostsFit;
    var t := Step(s, e);
    if e.Mount? || e.RemountOne? {
      BeginsTidy(s, e, name, from);
    } else if e.Umount? || e.UmountAll? {
      MovesTidy(s, t, name, from);
    } else if e.chain in s.chains {
      var id := e.chain;
      var c := s.chains[id];
      if t.chains.Keys == s.chains.Keys {
        MovesTidy(s, t, name, from);
      } else if c.name !in s.interfaces {
        UnmountedNotNamed(s, name, id, from);
        EndedOther(s, t, name, id, from);
      } else {
        EndsTidy(s, name, id, t, from);
      }
    }
  }

  lemma UnmountedNotNamed(s: State, name: Name, id: nat, from: nat)
    requires Tidy(s, name, from) && id in s.chains && s.chains[id].name !in s.interfaces
    ensures s.chains[id].name != name
  {
  }

  /** Nothing is left of earlier mounts of `name`. */
  ghost predicate Quiet(s: State, name: Name)
  {
    name !in s.interfaces && forall id :: id in s.chains ==> s.chains[id].name != name
  }

  /** After any run that leaves nothing of earlier mounts of `name`, and while `name` is not
      unmounted again, the chain of each mount of `name` posts the callback exactly when it
      ends, and once: it is under way with no callback posted, or over with one. */
  lemma {:induction false} MountReportsOnce(before: seq<Event>, events: seq<Event>, name: Name)
    requires Quiet(Run(FRESH, before), name)
    requires forall i :: 0 <= i < |events| ==> !Unmounts(events[i], name)
    ensures var from := |Run(FRESH, before).started|;
            var s := Run(Run(FRESH, before), events);
            && Inv(s) && Tidy(s, name, from)
            && (forall id :: from <= id < |s.started| && s.started[id] == Start(name, true) ==>
                  (id in s.chains <==> !Posted(s, id)))
  {
    var start := Run(FRESH, before);
    if events == [] {
      MountTheorem(before);
    } else {
      MountReportsOnce(before, events[..|events| - 1], name);
      var s := Run(start, events[..|events| - 1]);
      StepKeepsInv(s, events[|events| - 1]);
      StepKeepsTidy(s, events[|events| - 1], name, |start.started|);
    }
  }

  // ----------------------------------- exactly when a mount reports at its end

  ghost predicate UnmountFree(events: seq<Event>, name: Name)
  {
    forall i :: 0 <= i < |events| ==> !Unmounts(events[i], name)
  }

  /** After mounting `name` in `s` and then `events`, the chain of that mount is under way
      exactly if it has not posted the callback. */
  ghost predicate ReportsAtEnd(s: State, name: Name, config: Config, events: seq<Event>)
  {
    var t := Run(Step(s, Mount(name, config)), events);
    |s.started| in t.chains <==> !Posted(t, |s.started|)
  }

  lemma {:induction false} RunCons(s: State, e: Event, events: seq<Event>)
    ensures Run(s, [e] + events) == Run(Step(s, e), events)
  {
    if events == [] {
      assert [e] + events == [e] && Run(s, [e][..0]) == s;
    } else {
      var most := events[..|events| - 1];
      assert ([e] + events)[..|events|] == [e] + most;
      RunCons(s, e, most);
    }
  }

  lemma {:induction false} StartedGrows(s: State, events: seq<Event>)
    ensures s.started <= Run(s, events).started
  {
    if events != [] { StartedGrows(s, events[..|events| - 1]); }
  }

  lemma QuietMountReports(before: seq<Event>, name: Name, config: Config, events: seq<Event>)
    requires Quiet(Run(FRESH, before), name) && UnmountFree(events, name)
    ensures ReportsAtEnd(Run(FRESH, before), name, config, events)
  {
    hide Inv, Tidy, Quiet;
    var s := Run(FRESH, before);
    var all := [Mount(name, config)] + events;
    MountReportsOnce(before, all, name);
    RunCons(s, Mount(name, config), events);
    var s1 := Step(s, Mount(name, config));
    assert name !in s.interfaces by { QuietIsUnmounted(s, name); }
    assert s1.started[|s.started|] == Start(name, true);
    StartedGrows(s1, events);
  }

  lemma QuietIsUnmounted(s: State, name: Name)
    requires Quiet(s, name)
    ensures name !in s.interfaces
  {
  }

  /** A chain of `name` left over from an earlier mount can silence a new mount of `name`: the
      old chain succeeds, and the failure of the new one is then taken for that of a remount. */
  lemma LeftoverSilencesMount(s: State, name: Name, stale: nat) returns (events: seq<Event>)
    requires Inv(s) && name !in s.interfaces && stale in s.chains && s.chains[stale].name == name
    ensures UnmountFree(events, name) && |events| <= 3
    ensures !ReportsAtEnd(s, name, Config(true, 1), events)
  {
    hide Budget, Run;
    var id := |s.started|;
    var s1 := Step(s, Mount(name, Config(true, 1)));
    assert stale < id && s1.chains == s.chains[id := ONE_SHOT.(name := name)];
    assert s1.chains[stale] == s.chains[stale] && !Posted(s1, id);
    var wake := if s.chains[stale].phase.Waiting? then [TimerFires(stale)] else [];
    var win := if s.chains[stale].phase.Accepting? then AcceptDone(stale, false) else ConnectDone(stale, false);
    events := wake + [win, ConnectDone(id, true)];
    SilentEnd(s1, wake, win, id);
    hide Inv, Step, Posted;
    Woken(s1, wake, name, stale, id);
    WonThenLost(Run(s1, wake), name, stale, id, win);
  }

  /** A connect chain with a single attempt, under way. */
  const ONE_SHOT: Chain := Chain("", 1, 0, 1, Connecting, true)

  /** Both chains of `name`, the stale one ready to succeed. */
  ghost predicate Rivals(s: State, name: Name, stale: nat, id: nat)
  {
    && stale != id && stale in s.chains && id in s.chains && name in s.interfaces
    && s.chains[stale].name == name && !s.chains[stale].phase.Waiting?
    && s.chains[id] == ONE_SHOT.(name := name) && !Posted(s, id)
  }

  lemma Woken(s1: State, wake: seq<Event>, name: Name, stale: nat, id: nat)
    requires stale != id && stale in s1.chains && id in s1.chains && s1.chains[stale].name == name
    requires name in s1.interfaces && name in s1.configs && s1.configs[name].connect
    requires s1.chains[id] == ONE_SHOT.(name := name) && !Posted(s1, id)
    requires wake == if s1.chains[stale].phase.Waiting? then [TimerFires(stale)] else []
    ensures Rivals(Run(s1, wake), name, stale, id)
    ensures Run(s1, wake).chains[stale].phase.Accepting? <==> s1.chains[stale].phase.Accepting?
  {
    if wake != [] { assert Run(s1, wake[..0]) == s1; }
  }

  lemma WonThenLost(s: State, name: Name, stale: nat, id: nat, win: Event)
    requires Rivals(s, name, stale, id)
    requires win == if s.chains[stale].phase.Accepting? then AcceptDone(stale, false)
                    else ConnectDone(stale, false)
    ensures var t := Step(Step(s, win), ConnectDone(id, true));
            id !in t.chains && !Posted(t, id)
  {
    var s1 := Step(s, win);
    assert s1 == Succeeds(s, stale, s.chains[stale]);
    assert s1.chains[id] == s.chains[id] && name in s1.up && name in s1.interfaces;
    assert Step(s1, ConnectDone(id, true)) == Ends(s1, id);
    assert s1.posts[|s.posts|].chain == stale;
    assert forall i :: 0 <= i < |s.posts| ==> s.posts[i].chain != id;
  }

  lemma SilentEnd(s1: State, wake: seq<Event>, win: Event, id: nat)
    ensures Run(s1, wake + [win, ConnectDone(id, true)]) ==
            Step(Step(Run(s1, wake), win), ConnectDone(id, true))
  {
    hide Step;
    var all := wake + [win, ConnectDone(id, true)];
    assert all[..|all| - 1] == wake + [win];
    assert (wake + [win])[..|wake|] == wake;
  }

  /** Exactly when a mount of an unmounted name is sure to report at its end, whatever its
      configuration and whatever happens next short of unmounting it again: if and only if no
      chain of an earlier mount of that name is left. */
  lemma ReportsOnceIff(before: seq<Event>, name: Name)
    requires name !in Run(FRESH, before).interfaces
    ensures var s := Run(FRESH, before);
            Quiet(s, name) <==>
            forall config, events :: UnmountFree(events, name) ==> ReportsAtEnd(s, name, config, events)
  {
    hide Inv, UnmountFree, ReportsAtEnd;
    var s := Run(FRESH, before);
    if Quiet(s, name) {
      forall config, events | UnmountFree(events, name) ensures ReportsAtEnd(s, name, config, events) {
        QuietMountReports(before, name, config, events);
      }
    } else {
      var id :| id in s.chains && s.chains[id].name == name;
      MountTheorem(before);
      var events := LeftoverSilencesMount(s, name, id);
    }
  }

  /** With an unmount in between, an old chain can end a new mount: the second mount of "eth"
      is removed by the first one's last failure, and its own chain then posts nothing. */
  lemma StaleChainEndsNewMount()
    ensures var once := Config(true, 1);
            var s1 := Step(Step(Step(FRESH, Mount("eth", once)), Umount("eth")), Mount("eth", once));
            var s2 := Step(Step(s1, ConnectDone(0, true)), ConnectDone(1, false));
            && "eth" in s1.interfaces && s1.chains.Keys == {0, 1}
            && "eth" !in s2.interfaces && s2.chains.Keys == {} && !Posted(s2, 1)
  {
    var once := Config(true, 1);
    var a := Step(FRESH, Mount("eth", once));
    var c := Chain("eth", 1, 0, 1, Connecting, true);
    assert a.chains == map[0 := c] && a.interfaces == {"eth"} && a.configs == map["eth" := once];
    var b := Step(a, Umount("eth"));
    assert b.interfaces == {} && b.configs == map[] && b.chains == map[0 := c];
    var s1 := Step(b, Mount("eth", once));
    assert s1.chains == map[0 := c, 1 := c] && s1.interfaces == {"eth"};
    var d := Step(s1, ConnectDone(0, true));
    assert d.interfaces == {} && d.chains == map[1 := c] && d.posts == [Post(0, c, false)];
  }

  // ------------------------------------------------------------- remounting

  ghost function Remounts(order: seq<Name>): seq<Event>
  {
    if order == [] then []
    else Remounts(order[..|order| - 1]) + [RemountOne(order[|order| - 1])]
  }

  ghost predicate SameTables(s: State, t: State)
  {
    t.interfaces == s.interfaces && t.configs == s.configs && t.up == s.up && t.posts == s.posts
  }

  lemma StartOfRemounts(s: State)
    ensures Run(s, Remounts([])) == s
  {
  }

  lemma UpIsMounted(s: State, name: Name)
    requires Inv(s) && name in s.up
    ensures name in s.interfaces
  {
  }

  lemma OneMoreRemount(s: State, order: seq<Name>, name: Name)
    requires var t := Run(s, Remounts(order)); Inv(t) && name in t.up
    ensures var t := Run(s, Remounts(order));
            var u := Begin(t, name, false);
            && Run(s, Remounts(order + [name])) == u
            && Inv(u) && SameTables(t, u)
  {
    assert (order + [name])[..|order|] == order;
    assert Remounts(order + [name]) == Remounts(order) + [RemountOne(name)];
    var events := Remounts(order + [name]);
    assert events[..|events| - 1] == Remounts(order);
    BeginKeepsInv(Run(s, Remounts(order)), name, false);
  }

  // ------------------------------------------------------------- as an object

  /** SpecificInterfacesCollection; `chains` are the connects, accepts and timers under way. */
  class InterfacesCollection {
    var interfaces: set<Name>
    var configs: map<Name, Config>
    var up: set<Name>
    var chains: map<nat, Chain>
    var started: seq<Start>
    var posts: seq<Post>

    function View(): State
      reads this
    {
      State(interfaces, configs, up, chains, started, posts)
    }

    constructor ()
      ensures View() == FRESH
    {
      interfaces, configs, up, chains, started, posts := {}, map[], {}, map[], [], [];
    }

    method InitializeInterface(name: Name, initial: bool)
      modifies this
      ensures View() == Begin(old(View()), name, initial)
    {
      if name !in interfaces || name !in configs {
        return;
      }
      var config := configs[name];
      var chain := if config.connect
                   then Chain(name, config.ttl, config.ttl - 1, 1, Connecting, initial)
                   else Chain(name, config.ttl, config.ttl, 0, Accepting, initial);
      chains := chains[|started| := chain];
      started := started + [Start(name, initial)];
    }

    method AsyncMount(name: Name, config: Config)
      modifies this
      ensures View() == Step(old(View()), Mount(name, config))
    {
      if name in interfaces {
        return;
      }
      interfaces := interfaces + {name};
      configs := configs[name := config];
      InitializeInterface(name, true);
    }

    /** RemountDownInterfaces: `down` are the interfaces found closed.  The loop is a run of
        remounts, one for each interface that has been up and is down, in some order. */
    method RemountDownInterfaces(down: set<Name>) returns (ghost order: seq<Name>)
      requires Inv(View())
      modifies this
      ensures View() == Run(old(View()), Remounts(order))
      ensures multiset(order) == multiset(old(up) * down)
      ensures Inv(View()) && SameTables(old(View()), View())
    {
      hide Inv, Begin, Step, Run, Remounts;
      order := [];
      StartOfRemounts(View());
      var todo := up;
      ghost var done: set<Name> := {};
      while todo != {}
        invariant Inv(View()) && SameTables(old(View()), View())
        invariant todo !! done && todo + done == up
        invariant multiset(order) == multiset(done * down)
        invariant View() == Run(old(View()), Remounts(order))
        decreases todo
      {
        var name :| name in todo;
        if name !in interfaces {
          up := up - {name};
          UpIsMounted(old(View()), name);
        } else if name in down {
          OneMoreRemount(old(View()), order, name);
          InitializeInterface(name, false);
          assert (done + {name}) * down == done * down + {name};
          order := order + [name];
        } else {
          assert (done + {name}) * down == done * down;
        }
        todo, done := todo - {name}, done + {name};
      }
      assert done == up;
    }

    method UmountOne(name: Name)
      modifies this
      ensures View() == Step(old(View()), Umount(name))
    {
      if name in interfaces {
        interfaces := interfaces - {name};
        up := up - {name};
        configs := configs - {name};
      }
    }

    /** UmountAll: erases one interface after another from all three tables. */
    method UmountEach()
      modifies this
      ensures View() == Step(old(View()), UmountAll)
    {
      while interfaces != {}
        modifies this`interfaces, this`configs, this`up
        invariant interfaces <= old(interfaces)
        invariant configs == old(configs) - (old(interfaces) - interfaces)
        invariant up == old(up) - (old(interfaces) - interfaces)
        decreases interfaces
      {
        var name :| name in interfaces;
        ghost var gone := old(interfaces) - interfaces;
        configs := configs - {name};
        up := up - {name};
        interfaces := interfaces - {name};
        assert old(interfaces) - interfaces == gone + {name};
      }
      assert old(interfaces) - interfaces == old(interfaces);
    }

    method MountConnectHandler(id: nat, error: bool)
      requires id in chains && chains[id].phase.Connecting?
      modifies this
      ensures View() == Step(old(View()), ConnectDone(id, error))
    {
      var chain := chains[id];
      chains := chains - {id};
      if chain.name !in interfaces {
        return;
      }
      if error {
        if chain.left <= 0 {
          if chain.name !in up {
            posts := posts + [Post(id, chain, false)];
            interfaces := interfaces - {chain.name};
            configs := configs - {chain.name};
          }
          return;
        }
        chains := chains[id := chain.(phase := Waiting)];
        assert chains == old(chains)[id := chain.(phase := Waiting)];
        return;
      }
      up := up + {chain.name};
      posts := posts + [Post(id, chain, true)];
    }
  }
}
