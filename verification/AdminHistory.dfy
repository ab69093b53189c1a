/** The admin protocol told from its events alone: which requests were handled and answered,
    what the peer runs, and what the client's table will hold. */
module AdminHistory {
  import opened ServiceRegistry
  import opened AdminProtocol
  import ServiceManager

  /** The requests the client sent. */
  function Sent(events: seq<Event>): seq<Request>
  {
    if events == [] then []
    else
      var last := events[|events| - 1];
      Sent(events[..|events| - 1]) + (if last.ClientSends? then [last.request] else [])
  }

  /** How many of them the peer has handled: one at a time, in order, when there is one. */
  function Handled(events: seq<Event>): (n: nat)
    ensures n <= |Sent(events)|
  {
    if events == [] then 0
    else
      var before := events[..|events| - 1];
      if events[|events| - 1].PeerHandles? && Handled(before) < |Sent(before)|
      then Handled(before) + 1 else Handled(before)
  }

  predicate Waiting(events: seq<Event>)
  {
    Handled(events) < |Sent(events)|
  }

  /** The request that is handled next. */
  function NextRequest(events: seq<Event>): Request
    requires Waiting(events)
  {
    Sent(events)[Handled(events)]
  }

  /** A running service: what it is and who asked for it. */
  datatype Job = Job(ty: nat, params: Params, fromClient: bool)

  /** One more job under the smallest free id, if an id is free. */
  function Launch(jobs: map<nat, Job>, job: Job): map<nat, Job>
  {
    var id := ServiceManager.FreeId(jobs.Keys);
    if id == 0 then jobs else jobs[id := job]
  }

  /** The jobs started and not yet stopped by a stop that worked. */
  function Jobs(start: World, events: seq<Event>): map<nat, Job>
  {
    if events == []
    then map id | id in start.services ::
           Job(start.services[id].ty, start.services[id].params, start.services[id].fromClient)
    else
      var before, e := events[..|events| - 1], events[|events| - 1];
      var jobs := Jobs(start, before);
      match e
      case PeerHandles(startup, stopFails) =>
        if !Waiting(before) then jobs
        else
          (match NextRequest(before)
           case Create(ty, params) =>
             if ty in start.creators && startup == StartReports(0)
             then Launch(jobs, Job(ty, params, true)) else jobs
           case Stop(id) => if stopFails then jobs else jobs - {id})
      case PeerStartsOwn(ty, params) => Launch(jobs, Job(ty, params, false))
      case PeerStopsOwn(id) => if id in jobs && !jobs[id].fromClient then jobs - {id} else jobs
      case _ => jobs
  }

  /** The jobs of which a stop has reported an error. */
  function Stuck(start: World, events: seq<Event>): set<nat>
  {
    if events == [] then set id | id in start.services && start.services[id].stopFailed
    else
      var before, e := events[..|events| - 1], events[|events| - 1];
      var stuck := Stuck(start, before);
      if e.PeerHandles? && Waiting(before) && NextRequest(before).Stop?
         && NextRequest(before).id in Jobs(start, before)
      then
        (if e.stopFails then stuck + {NextRequest(before).id} else stuck - {NextRequest(before).id})
      else if e.PeerStopsOwn? && e.id in Jobs(start, before) && !Jobs(start, before)[e.id].fromClient
      then stuck - {e.id}
      else stuck
  }

  /** The answer to each request handled. */
  function Answers(start: World, events: seq<Event>): seq<Status>
  {
    if events == [] then []
    else
      var before, e := events[..|events| - 1], events[|events| - 1];
      Answers(start, before) +
      (if !e.PeerHandles? || !Waiting(before) then []
       else match NextRequest(before)
         case Create(ty, params) =>
           [CreateAnswer(start.creators, ServiceManager.FreeId(Jobs(start, before).Keys), ty, params, e.startup)]
         case Stop(id) => [Status(id, 0, 4, map[])])
  }

  function CreateAnswer(creators: set<nat>, free: nat, ty: nat, params: Params, startup: Startup): Status
  {
    if ty in creators && startup == StartReports(0) && free != 0 then Status(free, ty, 0, params)
    else Status(0, ty, Cause(creators, free, ty, startup), params)
  }

  /** Why a creation failed. */
  function Cause(creators: set<nat>, free: nat, ty: nat, startup: Startup): nat
  {
    if ty !in creators then 10000
    else if startup.NotCreated? then 10001
    else if free == 0 then 16
    else startup.code
  }

  /** How many answers the client has received. */
  function Received(start: World, events: seq<Event>): (n: nat)
    ensures n <= |Answers(start, events)|
  {
    if events == [] then 0
    else
      var before := events[..|events| - 1];
      if events[|events| - 1].ClientReceives? && Received(start, before) < |Answers(start, before)|
      then Received(start, before) + 1 else Received(start, before)
  }

  /** The peer's map holds exactly the jobs, as they were started, and the failed stops. */
  ghost predicate RunsJobs(w: World, jobs: map<nat, Job>, stuck: set<nat>)
  {
    && w.services.Keys == jobs.Keys
    && (forall id | id in jobs ::
          w.services[id] == Service(jobs[id].ty, jobs[id].params, jobs[id].fromClient, id in stuck))
    && stuck <= jobs.Keys
  }

  /** Both channels are first in, first out. */
  ghost predicate Channels(w: World, start: World, events: seq<Event>)
  {
    && w.requests == Sent(events)[Handled(events)..]
    && w.replies == Answers(start, events)[Received(start, events)..]
    && w.creators == start.creators
  }

  lemma LaunchRuns(w: World, jobs: map<nat, Job>, stuck: set<nat>, job: Job)
    requires RunsJobs(w, jobs, stuck) && ServiceManager.FreeId(jobs.Keys) != 0
    ensures var id := ServiceManager.FreeId(jobs.Keys);
            RunsJobs(w.(services := w.services[id := Service(job.ty, job.params, job.fromClient, false)]),
                     Launch(jobs, job), stuck)
  {
    hide ServiceManager.FreeId;
    assert ServiceManager.FreeId(jobs.Keys) !in jobs.Keys by { FreeIsFree(jobs.Keys); }
  }

  lemma FreeIsFree(used: set<nat>)
    ensures ServiceManager.FreeId(used) !in used || ServiceManager.FreeId(used) == 0
  {
  }

  lemma StopRuns(w: World, jobs: map<nat, Job>, stuck: set<nat>, id: nat)
    requires RunsJobs(w, jobs, stuck)
    ensures RunsJobs(w.(services := w.services - {id}), jobs - {id}, stuck - {id})
  {
  }

  lemma OnlyServices(w: World, v: World, jobs: map<nat, Job>, stuck: set<nat>)
    requires RunsJobs(w, jobs, stuck) && v.services == w.services
    ensures RunsJobs(v, jobs, stuck)
  {
  }

  lemma StepRunsJobs(start: World, w: World, before: seq<Event>, e: Event)
    requires RunsJobs(w, Jobs(start, before), Stuck(start, before)) && Channels(w, start, before)
    ensures RunsJobs(Step(w, e), Jobs(start, before + [e]), Stuck(start, before + [e]))
  {
    hide ServiceManager.FreeId, RunsJobs, Answers, Sent, Handled, Received;
    var jobs, stuck, v := Jobs(start, before), Stuck(start, before), Step(w, e);
    assert (before + [e])[..|before|] == before;
    assert w.services.Keys == jobs.Keys && stuck <= jobs.Keys by { SameKeys(w, jobs, stuck); }
    if e.PeerHandles? && w.requests != [] {
      assert Waiting(before) && NextRequest(before) == w.requests[0];
      match w.requests[0]
      case Create(ty, params) =>
        if ServiceManager.FreeId(jobs.Keys) != 0 { LaunchRuns(w, jobs, stuck, Job(ty, params, true)); }
        var u := if v.services == w.services then w
                 else w.(services := w.services[ServiceManager.FreeId(jobs.Keys) := Service(ty, params, true, false)]);
        OnlyServices(u, v, Jobs(start, before + [e]), stuck);
      case Stop(id) =>
        StopRuns(w, jobs, stuck, id);
        if id !in jobs {
          assert jobs - {id} == jobs && stuck - {id} == stuck && w.services - {id} == w.services;
          OnlyServices(w, v, jobs, stuck);
        } else if e.stopFails {
          FailedStopRuns(w, jobs, stuck, id);
          OnlyServices(w.(services := w.services[id := w.services[id].(stopFailed := true)]), v, jobs, stuck + {id});
        } else {
          OnlyServices(w.(services := w.services - {id}), v, jobs - {id}, stuck - {id});
        }
    } else if e.PeerStartsOwn? {
      if ServiceManager.FreeId(jobs.Keys) != 0 { LaunchRuns(w, jobs, stuck, Job(e.ty, e.params, false)); }
    } else if e.PeerStopsOwn? {
      StopRuns(w, jobs, stuck, e.id);
      assert e.id in jobs ==> w.services[e.id].fromClient == jobs[e.id].fromClient by {
        if e.id in jobs { SameOrigin(w, jobs, stuck, e.id); }
      }
    } else {
      OnlyServices(w, v, jobs, stuck);
    }
  }

  lemma SameKeys(w: World, jobs: map<nat, Job>, stuck: set<nat>)
    requires RunsJobs(w, jobs, stuck)
    ensures w.services.Keys == jobs.Keys && stuck <= jobs.Keys
  {
  }

  lemma SameOrigin(w: World, jobs: map<nat, Job>, stuck: set<nat>, id: nat)
    requires RunsJobs(w, jobs, stuck) && id in jobs
    ensures id in w.services && w.services[id].fromClient == jobs[id].fromClient
  {
  }

  lemma FailedStopRuns(w: World, jobs: map<nat, Job>, stuck: set<nat>, id: nat)
    requires RunsJobs(w, jobs, stuck) && id in jobs
    ensures RunsJobs(w.(services := w.services[id := w.services[id].(stopFailed := true)]), jobs, stuck + {id})
  {
  }

  lemma StepRequests(w: World, before: seq<Event>, e: Event)
    requires w.requests == Sent(before)[Handled(before)..]
    ensures Step(w, e).requests == Sent(before + [e])[Handled(before + [e])..]
  {
    hide ServiceManager.FreeId, Apply;
    assert (before + [e])[..|before|] == before;
    var sent, h := Sent(before), Handled(before);
    if e.ClientSends? {
      assert (sent + [e.request])[h..] == sent[h..] + [e.request];
    } else if e.PeerHandles? && w.requests != [] {
      assert sent[h..][1..] == sent[h + 1..];
    }
  }

  /** What handling a request adds to the answers. */
  lemma HandlingAnswers(start: World, w: World, before: seq<Event>, e: Event)
    requires w.services.Keys == Jobs(start, before).Keys && w.creators == start.creators
    requires e.PeerHandles? && Waiting(before) && w.requests != [] && w.requests[0] == NextRequest(before)
    ensures |Answers(start, before + [e])| == |Answers(start, before)| + 1
    ensures Answers(start, before) <= Answers(start, before + [e])
    ensures Step(w, e).replies == w.replies + [Answers(start, before + [e])[|Answers(start, before)|]]
  {
    hide ServiceManager.FreeId, Jobs, Apply, Waiting;
    assert (before + [e])[..|before|] == before;
  }

  /** What one event adds to the answers. */
  lemma AnswersGrow(start: World, w: World, before: seq<Event>, e: Event)
    requires RunsJobs(w, Jobs(start, before), Stuck(start, before)) && Channels(w, start, before)
    ensures Answers(start, before) <= Answers(start, before + [e])
    ensures var added := Answers(start, before + [e])[|Answers(start, before)|..];
            Step(w, e).replies == (if e.ClientReceives? && w.replies != [] then w.replies[1..]
                                   else w.replies + added)
    ensures e.ClientReceives? ==> Answers(start, before + [e]) == Answers(start, before)
  {
    hide ServiceManager.FreeId, RunsJobs, Jobs, Stuck, Apply, Sent, Handled, Received, HandleCreate, HandleStop;
    SameKeys(w, Jobs(start, before), Stuck(start, before));
    if e.PeerHandles? && w.requests != [] {
      HandlingAnswers(start, w, before, e);
    } else {
      assert (before + [e])[..|before|] == before;
      assert Answers(start, before + [e]) == Answers(start, before);
    }
  }

  lemma StepChannels(start: World, w: World, before: seq<Event>, e: Event)
    requires RunsJobs(w, Jobs(start, before), Stuck(start, before)) && Channels(w, start, before)
    ensures Channels(Step(w, e), start, before + [e])
  {
    hide RunsJobs, Jobs, Stuck, Step, Sent, Handled, Answers;
    StepRequests(w, before, e);
    AnswersGrow(start, w, before, e);
    KeepsCreators(w, e);
    assert (before + [e])[..|before|] == before;
    TailsOf(Answers(start, before), Answers(start, before + [e]), Received(start, before));
  }

  lemma TailsOf<T>(were: seq<T>, all: seq<T>, n: nat)
    requires were <= all && n <= |were|
    ensures all[n..] == were[n..] + all[|were|..]
    ensures n < |were| ==> were[n..][1..] == were[n + 1..]
  {
  }

  lemma KeepsCreators(w: World, e: Event)
    ensures Step(w, e).creators == w.creators
    ensures Step(w, e).registry == (if e.ClientReceives? && w.replies != []
                                    then Apply(w.registry, CallOf(w.replies[0])) else w.registry)
  {
    hide ServiceManager.FreeId, Apply;
  }

  /** The calls the client has made on its table so far. */
  function Calls(answers: seq<Status>): (calls: seq<Call>)
    ensures |calls| == |answers|
  {
    seq(|answers|, i requires 0 <= i < |answers| => CallOf(answers[i]))
  }

  ghost predicate TableIsCalls(w: World, start: World, events: seq<Event>)
  {
    w.registry == ServiceRegistry.Run(Calls(Answers(start, events)[..Received(start, events)]))
  }

  lemma RegistryFollows(start: World, w: World, before: seq<Event>, e: Event)
    requires RunsJobs(w, Jobs(start, before), Stuck(start, before)) && Channels(w, start, before)
    requires TableIsCalls(w, start, before)
    ensures TableIsCalls(Step(w, e), start, before + [e])
  {
    hide RunsJobs, Jobs, Stuck, Step, Apply, Answers, Calls, ServiceRegistry.Run, Sent, Handled;
    assert (before + [e])[..|before|] == before;
    AnswersGrow(start, w, before, e);
    KeepsCreators(w, e);
    ReceivedCalls(Answers(start, before), Answers(start, before + [e]), Received(start, before));
  }

  /** In every run, the peer runs exactly the jobs started and not yet stopped by a stop that
      worked, with the type, parameters and origin they were started with; requests and answers
      travel first in, first out; and the client's table is the result of the answers it has
      received, in order. */
  lemma {:induction false} RunMatchesEvents(start: World, events: seq<Event>)
    requires Initial(start)
    ensures var w := AdminProtocol.Run(start, events);
            && RunsJobs(w, Jobs(start, events), Stuck(start, events))
            && Channels(w, start, events)
            && TableIsCalls(w, start, events)
  {
    if events == [] {
      assert Calls([]) == [];
    } else {
      hide ServiceManager.FreeId, RunsJobs, Jobs, Stuck, Step, Initial, Channels, TableIsCalls;
      var before, e := events[..|events| - 1], events[|events| - 1];
      var w := AdminProtocol.Run(start, before);
      RunMatchesEvents(start, before);
      assert before + [e] == events;
      StepRunsJobs(start, w, before, e);
      StepChannels(start, w, before, e);
      RegistryFollows(start, w, before, e);
    }
  }

  /** Receiving one more answer is one more call. */
  lemma ReceivedCalls(were: seq<Status>, all: seq<Status>, n: nat)
    requires were <= all && n <= |were|
    ensures Calls(all[..n]) == Calls(were[..n])
    ensures n < |were| ==> ServiceRegistry.Run(Calls(all[..n + 1])) ==
                           Apply(ServiceRegistry.Run(Calls(were[..n])), CallOf(were[n]))
  {
    hide Apply;
    if n < |were| { assert Calls(all[..n + 1])[..n] == Calls(were[..n]); }
  }

  // ----------------------------------------------------- the mirror, from the events

  /** Ids started for the client and not yet stopped by a stop that worked. */
  ghost function ClientJobs(start: World, events: seq<Event>): set<nat>
  {
    var jobs := Jobs(start, events);
    set id | id in jobs && jobs[id].fromClient
  }

  /** What the client's table will hold once the answers in flight are processed, in terms of
      the run's events alone: the jobs started for it and not stopped, except those of which a
      stop has failed, each under its type and with its parameters. */
  lemma MirrorFromEvents(start: World, events: seq<Event>)
    requires Initial(start)
    ensures var w := AdminProtocol.Run(start, events);
            var r, jobs := Settled(w.registry, w.replies), Jobs(start, events);
            && r.status.Keys == ClientJobs(start, events) - Stuck(start, events)
            && (forall id :: id in r.status ==>
                  id in jobs && id in r.types && r.types[id] == jobs[id].ty && r.status[id] == 0
                  && Entry(jobs[id].params, id) in r.Instances(jobs[id].ty))
  {
    hide AdminProtocol.Run, Jobs, Stuck, Settled;
    MirrorTheorem(start, events);
    RunMatchesEvents(start, events);
    var w := AdminProtocol.Run(start, events);
    assert forall id :: Shown(w, id) <==> id in ClientJobs(start, events) - Stuck(start, events);
  }

  lemma {:induction false} WorkingStopsLeaveNoneStuck(start: World, events: seq<Event>)
    requires Initial(start)
    requires forall i :: 0 <= i < |events| && events[i].PeerHandles? ==> !events[i].stopFails
    ensures ClientJobs(start, events) !! Stuck(start, events)
  {
    if events != [] {
      hide Initial, Jobs, Stuck;
      var before, e := events[..|events| - 1], events[|events| - 1];
      assert before + [e] == events;
      WorkingStopsLeaveNoneStuck(start, before);
      NoneGetsStuck(start, before, e);
      RunMatchesEvents(start, before);
      NewJobsAreNotStuck(start, before, e);
    }
  }

  lemma NoneGetsStuck(start: World, before: seq<Event>, e: Event)
    requires e.PeerHandles? ==> !e.stopFails
    ensures Stuck(start, before + [e]) <= Stuck(start, before)
  {
    hide Jobs;
    assert (before + [e])[..|before|] == before;
  }

  /** A job that was not there before, or not the client's, is not stuck. */
  lemma NewJobsAreNotStuck(start: World, before: seq<Event>, e: Event)
    requires Stuck(start, before) <= Jobs(start, before).Keys
    ensures forall id :: id in ClientJobs(start, before + [e]) && id in Stuck(start, before) ==>
              id in ClientJobs(start, before)
  {
    hide ServiceManager.FreeId;
    assert (before + [e])[..|before|] == before;
    FreeIsFree(Jobs(start, before).Keys);
  }

  /** As long as no stop reports an error, the client's table, once the answers in flight
      are processed, holds exactly the ids the peer started for it and has not stopped. */
  lemma MirrorExact(start: World, events: seq<Event>)
    requires Initial(start)
    requires forall i :: 0 <= i < |events| && events[i].PeerHandles? ==> !events[i].stopFails
    ensures var w := AdminProtocol.Run(start, events);
            Settled(w.registry, w.replies).status.Keys == ClientJobs(start, events)
  {
    WorkingStopsLeaveNoneStuck(start, events);
    MirrorFromEvents(start, events);
  }

  /** The table's ids are all of the client's running services if and only if no running
      service of the client has had a stop that reported an error. */
  lemma MirrorCompleteIff(start: World, events: seq<Event>)
    requires Initial(start)
    ensures var w := AdminProtocol.Run(start, events);
            Settled(w.registry, w.replies).status.Keys == ClientJobs(start, events) <==>
            ClientJobs(start, events) !! Stuck(start, events)
  {
    MirrorFromEvents(start, events);
  }

  // ------------------------------------------------------------ failed creations

  /** A creation starts a service if and only if its type is known, its start reports no error
      and an id is free; it then runs under the smallest one.  Otherwise nothing starts and the
      cause becomes the newest error of that type in the table the client will have. */
  lemma CreationOutcome(w: World, ty: nat, params: Params, startup: Startup, stopFails: bool)
    requires w.requests != [] && w.requests[0] == Create(ty, params)
    requires 0 !in w.creators && Consistent(Settled(w.registry, w.replies))
    ensures var v, free := Step(w, PeerHandles(startup, stopFails)), ServiceManager.FreeId(w.services.Keys);
            var r, s := Settled(w.registry, w.replies), Settled(v.registry, v.replies);
            if ty in w.creators && startup == StartReports(0) && free != 0
            then v.services == w.services[free := Service(ty, params, true, false)]
            else
              && v.services == w.services
              && (ty == 0 ||
                  s.Errors(ty) == Newest([Entry(params, Cause(w.creators, free, ty, startup))] + r.Errors(ty)))
  {
    hide ServiceManager.FreeId, Consistent;
    var v := Step(w, PeerHandles(startup, stopFails));
    var status := v.replies[|w.replies|];
    SettledSnoc(w.registry, w.replies, status);
    ZeroIsNotLive(Settled(w.registry, w.replies));
    CallOnErrors(Settled(w.registry, w.replies), CallOf(status), ty);
  }

  lemma ZeroIsNotLive(r: Registry)
    requires Consistent(r)
    ensures 0 !in r.status
  {
  }
}
