/** The client's reconnection machine (src/core/client/client.cpp): session attempts,
    status events and stopping. */
module Reconnection {

  const UINT32_MAX: nat := 0xFFFF_FFFF

  /** Session statuses; those the client does not react to are Other. */
  datatype Status = ServerUnreachable | ServerNotSupported | Disconnected | Running | Other

  datatype Event =
    | Session(error: bool, created: bool)
    | OnStatus(status: Status)
    | StopClient

  /** connection_attempts_ and stopped_; `since` counts the attempts since the last kRunning,
      `sessions` the sessions started, `runnings` the kRunning statuses. */
  datatype State = State(counter: nat, stopped: bool, since: nat, sessions: nat, runnings: nat)

  const FRESH: State := State(1, false, 0, 0, 0)

  /** ++ on a uint32_t. */
  function Next(counter: nat): nat { if counter == UINT32_MAX then 0 else counter + 1 }

  /** RunSession, from Run or from a timer (which may report an error); `created` says whether
      the user services and the session could be made. */
  function RunSession(max: nat, s: State, error: bool, created: bool): State
  {
    if error || s.stopped || s.counter > max then s
    else s.(counter := Next(s.counter), since := s.since + 1,
            sessions := if created then s.sessions + 1 else s.sessions)
  }

  function Step(max: nat, s: State, e: Event): State
  {
    match e
    case Session(error, created) => RunSession(max, s, error, created)
    case OnStatus(status) =>
      if s.stopped || !status.Running? then s
      else s.(counter := 1, since := 0, runnings := s.runnings + 1)
    case StopClient => s.(stopped := true)
  }

  function Run(max: nat, s: State, events: seq<Event>): State
  {
    if events == [] then s else Step(max, Run(max, s, events[..|events| - 1]), events[|events| - 1])
  }

  lemma OneMoreStretch(max: nat, runnings: nat)
    ensures max * (runnings + 1) == max * runnings + max
  {
  }

  /** The reconnection bound: in every run the counter minus one is the number of attempts
      since the last kRunning, and the sessions started are at most max for each kRunning
      plus max. */
  lemma {:induction false} ReconnectionBound(max: nat, events: seq<Event>)
    requires max < 0xFFFF_FFFF
    ensures var s := Run(max, FRESH, events);
            && s.counter == s.since + 1 && s.since <= max
            && s.sessions <= max * s.runnings + s.since
            && s.sessions <= max * (s.runnings + 1)
  {
    if events != [] {
      var t := Run(max, FRESH, events[..|events| - 1]);
      ReconnectionBound(max, events[..|events| - 1]);
      OneMoreStretch(max, t.runnings);
      OneMoreStretch(max, t.runnings + 1);
    }
  }

  // ------------------------------------------------------------ from the events

  predicate Stopped(events: seq<Event>)
  {
    exists i :: 0 <= i < |events| && events[i].StopClient?
  }

  /** Attempts made since the last kRunning that a live client saw: an attempt is made when
      none of the events is a stop, the timer reports no error, and fewer than max were made. */
  function Attempts(max: nat, events: seq<Event>): nat
  {
    if events == [] then 0
    else
      var before, e := events[..|events| - 1], events[|events| - 1];
      var n := Attempts(max, before);
      if Stopped(before) then n
      else match e
        case Session(error, _) => if !error && n < max then n + 1 else n
        case OnStatus(status) => if status == Running then 0 else n
        case StopClient => n
  }

  /** Sessions started: attempts whose session could be made. */
  function Started(max: nat, events: seq<Event>): nat
  {
    if events == [] then 0
    else
      var before, e := events[..|events| - 1], events[|events| - 1];
      Started(max, before) +
      (if e == Session(false, true) && !Stopped(before) && Attempts(max, before) < max then 1 else 0)
  }

  lemma StoppedSnoc(before: seq<Event>, e: Event)
    ensures Stopped(before + [e]) <==> Stopped(before) || e.StopClient?
  {
    if Stopped(before) {
      var i :| 0 <= i < |before| && before[i].StopClient?;
      assert (before + [e])[i].StopClient?;
    }
    if e.StopClient? { assert (before + [e])[|before|].StopClient?; }
  }

  /** In every run with a limit below 2^32 - 1 the machine makes an attempt exactly when it may:
      the client is live, there is no error and fewer than max attempts were made since the
      last kRunning; and it starts a session with exactly the attempts that can. */
  lemma {:induction false} AttemptsExactly(max: nat, events: seq<Event>)
    requires max < 0xFFFF_FFFF
    ensures var s := Run(max, FRESH, events);
            && s.stopped == Stopped(events)
            && s.since == Attempts(max, events) && s.counter == s.since + 1
            && s.sessions == Started(max, events)
  {
    if events != [] {
      hide Stopped;
      var before, e := events[..|events| - 1], events[|events| - 1];
      AttemptsExactly(max, before);
      ReconnectionBound(max, before);
      StoppedSnoc(before, e);
      assert before + [e] == events;
    } else {
      assert !Stopped([]);
    }
  }

  /** At the largest value of its type the limit never bites: the counter wraps around, and n
      attempts start n sessions without any kRunning.  So the bound needs max < 2^32 - 1. */
  lemma {:induction false} LargestLimitIsNoLimit(n: nat)
    ensures var s := Run(UINT32_MAX, FRESH, seq(n, _ => Session(false, true)));
            s.counter <= UINT32_MAX && !s.stopped && s.sessions == n && s.runnings == 0
  {
    if n > 0 {
      var events := seq(n, _ => Session(false, true));
      assert events[..n - 1] == seq(n - 1, _ => Session(false, true));
      LargestLimitIsNoLimit(n - 1);
    }
  }

  ghost predicate Bounded(max: nat, events: seq<Event>)
  {
    var s := Run(max, FRESH, events);
    s.sessions <= max * (s.runnings + 1)
  }

  /** Exactly for which limits of its type the bound holds in every run. */
  lemma BoundHoldsIff(max: nat)
    requires max <= 0xFFFF_FFFF
    ensures (forall events :: Bounded(max, events)) <==> max < 0xFFFF_FFFF
  {
    if max < UINT32_MAX {
      forall events ensures Bounded(max, events) { ReconnectionBound(max, events); }
    } else {
      LargestLimitIsNoLimit(max + 1);
      assert !Bounded(max, seq(max + 1, _ => Session(false, true)));
    }
  }

  /** A client that has been stopped starts no further session, whatever happens then. */
  lemma {:induction false} StoppedStartsNothing(max: nat, s: State, events: seq<Event>)
    requires s.stopped
    ensures Run(max, s, events) == s
  {
    if events != [] { StoppedStartsNothing(max, s, events[..|events| - 1]); }
  }

  // ------------------------------------------------------------- as an object

  /** Client: `timers` counts armed reconnection timers, `stops` posted Stop calls. */
  class Client {
    const max: nat
    const noReconnection: bool
    var connectionAttempts: nat
    var stopped: bool
    var timers: nat
    var stops: nat
    ghost var since: nat
    ghost var sessions: nat
    ghost var runnings: nat

    ghost function View(): State
      reads this
    {
      State(connectionAttempts, stopped, since, sessions, runnings)
    }

    constructor (maxConnectionAttempts: nat, noReconnection: bool)
      ensures View() == FRESH && max == maxConnectionAttempts && timers == 0 && stops == 0
    {
      max, this.noReconnection := maxConnectionAttempts, noReconnection;
      connectionAttempts, stopped, timers, stops := 1, false, 0, 0;
      since, sessions, runnings := 0, 0, 0;
    }

    method RunNextSession(error: bool, created: bool)
      modifies this
      ensures View() == Step(max, old(View()), Session(error, created))
      ensures stops == old(stops) + (if View().since == old(View()).since then 1 else 0)
    {
      if error || stopped || connectionAttempts > max {
        stops := stops + 1;
        return;
      }
      connectionAttempts := Next(connectionAttempts);
      since := since + 1;
      if !created {
        return;
      }
      sessions := sessions + 1;
    }

    /** Arms the timer, or gives up by posting Stop. */
    method AsyncWaitReconnection()
      modifies this`timers, this`stops
      ensures var giveUp := connectionAttempts > max || noReconnection;
              && stops == old(stops) + (if giveUp then 1 else 0)
              && timers == old(timers) + (if giveUp then 0 else 1)
    {
      if connectionAttempts > max || noReconnection {
        stops := stops + 1;
        return;
      }
      timers := timers + 1;
    }

    method OnSessionStatus(status: Status)
      modifies this
      ensures View() == Step(max, old(View()), OnStatus(status))
      ensures var waits := !old(stopped) && !status.Running? && !status.Other?;
              timers + stops == old(timers) + old(stops) + (if waits then 1 else 0)
    {
      if stopped {
        return;
      }
      match status
      case ServerUnreachable => AsyncWaitReconnection();
      case ServerNotSupported => AsyncWaitReconnection();
      case Disconnected => AsyncWaitReconnection();
      case Running =>
        connectionAttempts := 1;
        since, runnings := 0, runnings + 1;
      case Other =>
    }

    method Stop()
      modifies this`stopped
      ensures View() == Step(max, old(View()), StopClient)
    {
      stopped := true;
    }
  }
}
