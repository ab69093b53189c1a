/** The admin protocol as a two-party system: a client sends create and stop requests
    over one FIFO channel, the peer runs or stops services and answers over another,
    and the client mirrors the peer's services from the answers alone
    (admin.ipp, create_service_request.h, stop_service_request.h, service_status.h). */
module AdminProtocol {
  import opened ServiceRegistry
  import ServiceManager

  datatype Request =
    | Create(ty: nat, params: Params)
    | Stop(id: nat)

  /** A ServiceStatus message. */
  datatype Status = Status(id: nat, ty: nat, code: nat, params: Params)

  /** A running service of the peer: who asked for it, and whether a stop of it has
      reported an error, which leaves it running. */
  datatype Service = Service(ty: nat, params: Params, fromClient: bool, stopFailed: bool)

  datatype World = World(creators: set<nat>, services: map<nat, Service>,
                         requests: seq<Request>, replies: seq<Status>, registry: Registry)

  /** How a creation goes at the peer once its type is known: no service object is made, or
      its start reports a code, 0 meaning that it runs. */
  datatype Startup = NotCreated | StartReports(code: nat)

  datatype Event =
    | ClientSends(request: Request)
    | PeerHandles(startup: Startup, stopFails: bool)
    | PeerStartsOwn(ty: nat, params: Params)
    | PeerStopsOwn(id: nat)
    | ClientReceives

  /** service_not_found, service_not_started and device_or_resource_busy (EBUSY). */
  const NOT_FOUND: nat := 10000
  const NOT_STARTED: nat := 10001
  const BUSY: nat := 16

  /** CreateServiceRequest: OnReceive runs the service, OnReply reports the outcome. */
  function HandleCreate(w: World, ty: nat, params: Params, startup: Startup): World
  {
    var free := ServiceManager.FreeId(w.services.Keys);
    if ty !in w.creators then Answer(w, Status(0, ty, NOT_FOUND, params))
    else if startup.NotCreated? then Answer(w, Status(0, ty, NOT_STARTED, params))
    else if free == 0 then Answer(w, Status(0, ty, BUSY, params))
    else if startup.code != 0 then Answer(w, Status(0, ty, startup.code, params))
    else Answer(w.(services := w.services[free := Service(ty, params, true, false)]),
                Status(free, ty, 0, params))
  }

  /** StopServiceRequest: the answer is always EINTR, whatever the stop reported. */
  function HandleStop(w: World, id: nat, stopFails: bool): World
  {
    var left :=
      if id !in w.services then w.services
      else if stopFails then w.services[id := w.services[id].(stopFailed := true)]
      else w.services - {id};
    Answer(w.(services := left), Status(id, 0, STOPPED, map[]))
  }

  function Answer(w: World, s: Status): World
  {
    w.(replies := w.replies + [s])
  }

  /** ServiceStatus::OnReceive: the update is typed when the message names a type. */
  function CallOf(s: Status): Call
  {
    if s.ty != 0 then Typed(s.id, s.ty, s.code, s.params) else Plain(s.id, s.code)
  }

  function Step(w: World, e: Event): World
  {
    match e
    case ClientSends(request) => w.(requests := w.requests + [request])
    case PeerHandles(startup, stopFails) =>
      if w.requests == [] then w
      else
        var v := w.(requests := w.requests[1..]);
        (match w.requests[0]
         case Create(ty, params) => HandleCreate(v, ty, params, startup)
         case Stop(id) => HandleStop(v, id, stopFails))
    case PeerStartsOwn(ty, params) =>
      var free := ServiceManager.FreeId(w.services.Keys);
      if free == 0 then w
      else w.(services := w.services[free := Service(ty, params, false, false)])
    case PeerStopsOwn(id) =>
      if id in w.services && !w.services[id].fromClient
      then w.(services := w.services - {id}) else w
    case ClientReceives =>
      if w.replies == [] then w
      else w.(registry := Apply(w.registry, CallOf(w.replies[0])), replies := w.replies[1..])
  }

  function Run(w: World, events: seq<Event>): World
  {
    if events == [] then w else Step(Run(w, events[..|events| - 1]), events[|events| - 1])
  }

  /** The client's table once every reply in flight has been processed. */
  function Settled(r: Registry, replies: seq<Status>): Registry
    decreases replies
  {
    if replies == [] then r else Settled(Apply(r, CallOf(replies[0])), replies[1..])
  }

  /** A service the client's table should show under an id. */
  predicate Shown(w: World, id: nat)
  {
    id in w.services && w.services[id].fromClient && !w.services[id].stopFailed
  }

  /** The table `r` shows exactly the services of `w` the client started and whose stop
      has not failed, with their types and parameters, all with status 0. */
  ghost predicate Mirrors(r: Registry, w: World)
  {
    && (forall id :: id in r.status <==> Shown(w, id))
    && (forall id :: id in r.status ==>
          r.status[id] == 0 && id in r.types && r.types[id] == w.services[id].ty
          && Entry(w.services[id].params, id) in r.Instances(r.types[id]))
  }

  ghost predicate Inv(w: World)
  {
    && 0 !in w.creators
    && 0 !in w.services
    && Consistent(w.registry)
    && Consistent(Settled(w.registry, w.replies))
    && Mirrors(Settled(w.registry, w.replies), w)
  }

  // ------------------------------------------------------------------- proofs

  lemma {:induction false} SettledSnoc(r: Registry, replies: seq<Status>, s: Status)
    ensures Settled(r, replies + [s]) == Apply(Settled(r, replies), CallOf(s))
    decreases replies
  {
    if replies == [] {
      assert replies + [s] == [s];
    } else {
      assert (replies + [s])[1..] == replies[1..] + [s];
      SettledSnoc(Apply(r, CallOf(replies[0])), replies[1..], s);
    }
  }

  /** A failed creation leaves the mirror alone: it only lands in the error lists. */
  lemma FailureMirrored(r: Registry, w: World, ty: nat, code: nat, params: Params)
    requires Consistent(r) && Mirrors(r, w)
    ensures Mirrors(Apply(r, CallOf(Status(0, ty, code, params))), w)
  {
    var s := Apply(r, CallOf(Status(0, ty, code, params)));
    assert s.status == r.status && s.types == r.types && s.instances == r.instances;
  }

  /** A creation under a free id is added with its type and parameters. */
  lemma StartMirrored(r: Registry, w: World, id: nat, ty: nat, params: Params)
    requires Consistent(r) && Mirrors(r, w) && id !in w.services && id != 0 && ty != 0
    ensures Mirrors(Apply(r, CallOf(Status(id, ty, 0, params))),
                    w.(services := w.services[id := Service(ty, params, true, false)]))
  {
    var s := Apply(r, CallOf(Status(id, ty, 0, params)));
    var v := w.(services := w.services[id := Service(ty, params, true, false)]);
    assert id !in r.status;
    forall i | i in s.status
      ensures s.status[i] == 0 && i in s.types && s.types[i] == v.services[i].ty
              && Entry(v.services[i].params, i) in s.Instances(s.types[i])
    {
      if i == id { assert s.Instances(ty)[0] == Entry(params, id); }
    }
  }

  /** A stop answer removes the id whether the stop worked, failed, or hit nothing. */
  lemma StopMirrored(r: Registry, w: World, v: World, id: nat)
    requires Consistent(r) && Mirrors(r, w)
    requires !Shown(v, id)
    requires forall i :: i != id ==>
               (i in v.services <==> i in w.services) &&
               (i in w.services ==> v.services[i] == w.services[i])
    ensures Mirrors(Apply(r, CallOf(Status(id, 0, STOPPED, map[]))), v)
  {
    var s := UpdateKnown(r, id, STOPPED);
    forall i | i in s.status
      ensures Shown(v, i) && s.status[i] == 0 && i in s.types && s.types[i] == v.services[i].ty
              && Entry(v.services[i].params, i) in s.Instances(s.types[i])
    {
      assert i != id && Shown(w, i);
      if id in r.status {
        assert Filed(r, r.types[i]);
        StopFiles(r, id, r.types[i]);
      }
    }
    forall i | Shown(v, i) ensures i in s.status { assert Shown(w, i); }
  }

  lemma AnswerKeepsInv(w: World, v: World, s: Status)
    requires Inv(w)
    requires v.creators == w.creators && v.registry == w.registry && v.replies == w.replies + [s]
    requires 0 !in v.services
    requires Mirrors(Apply(Settled(w.registry, w.replies), CallOf(s)), v)
    ensures Inv(v)
  {
    hide Consistent, Mirrors, Apply;
    SettledSnoc(w.registry, w.replies, s);
    ApplyKeepsConsistent(Settled(w.registry, w.replies), CallOf(s));
  }

  lemma HandleCreateKeepsInv(w: World, ty: nat, params: Params, startup: Startup)
    requires Inv(w)
    ensures Inv(HandleCreate(w, ty, params, startup))
  {
    hide Consistent, Mirrors, Apply, Settled;
    var r, v := Settled(w.registry, w.replies), HandleCreate(w, ty, params, startup);
    var s := v.replies[|w.replies|];
    if s.id == 0 {
      FailureMirrored(r, w, ty, s.code, params);
      MirrorsSameServices(Apply(r, CallOf(s)), w, v);
    } else {
      StartMirrored(r, w, s.id, ty, params);
      MirrorsSameServices(Apply(r, CallOf(s)),
                          w.(services := w.services[s.id := Service(ty, params, true, false)]), v);
    }
    AnswerKeepsInv(w, v, s);
  }

  lemma MirrorsSameServices(r: Registry, w: World, v: World)
    requires Mirrors(r, w) && v.services == w.services
    ensures Mirrors(r, v)
  {
    assert forall id :: Shown(v, id) <==> Shown(w, id);
  }

  lemma HandleStopKeepsInv(w: World, id: nat, stopFails: bool)
    requires Inv(w)
    ensures Inv(HandleStop(w, id, stopFails))
  {
    var r, v := Settled(w.registry, w.replies), HandleStop(w, id, stopFails);
    StopMirrored(r, w, v, id);
    AnswerKeepsInv(w, v, Status(id, 0, STOPPED, map[]));
  }

  lemma StepKeepsInv(w: World, e: Event)
    requires Inv(w)
    ensures Inv(Step(w, e))
  {
    var v := Step(w, e);
    match e
    case ClientSends(_) =>
      assert Mirrors(Settled(v.registry, v.replies), v);
    case PeerHandles(startup, stopFails) =>
      if w.requests != [] {
        var u := w.(requests := w.requests[1..]);
        assert Inv(u);
        match w.requests[0]
        case Create(ty, params) => HandleCreateKeepsInv(u, ty, params, startup);
        case Stop(id) => HandleStopKeepsInv(u, id, stopFails);
      }
    case PeerStartsOwn(_, _) =>
      assert forall id :: Shown(v, id) <==> Shown(w, id);
      assert Mirrors(Settled(v.registry, v.replies), v);
    case PeerStopsOwn(_) =>
      assert forall id :: Shown(v, id) <==> Shown(w, id);
      assert Mirrors(Settled(v.registry, v.replies), v);
    case ClientReceives =>
      if w.replies != [] {
        ApplyKeepsConsistent(w.registry, CallOf(w.replies[0]));
        assert Settled(v.registry, v.replies) == Settled(w.registry, w.replies);
        assert Mirrors(Settled(v.registry, v.replies), v);
      }
  }

  /** Before any exchange: the peer may run services of its own, the client's table and
      both channels are empty. */
  predicate Initial(w: World)
  {
    && 0 !in w.creators
    && 0 !in w.services
    && (forall id :: id in w.services ==> !w.services[id].fromClient)
    && w.requests == [] && w.replies == [] && w.registry == EMPTY
  }

  lemma {:induction false} RunKeepsInv(w: World, events: seq<Event>)
    requires Initial(w)
    ensures Inv(Run(w, events))
  {
    if events == [] {
      assert forall ty: nat :: Filed(EMPTY, ty);
    } else {
      RunKeepsInv(w, events[..|events| - 1]);
      StepKeepsInv(Run(w, events[..|events| - 1]), events[|events| - 1]);
    }
  }

  /** The admin mirror: in every run, however requests, answers, local starts and id
      reuse interleave, processing the answers in flight would leave the client with
      exactly the peer's services that it started and whose stop has not failed. */
  lemma MirrorTheorem(start: World, events: seq<Event>)
    requires Initial(start)
    ensures var w := Run(start, events);
            && Consistent(w.registry)
            && Mirrors(Settled(w.registry, w.replies), w)
            && (w.replies == [] ==> Mirrors(w.registry, w))
  {
    RunKeepsInv(start, events);
  }

  /** With no answer in flight, get_id finds an id exactly when the peer runs such a
      service for this client, and the id it finds names such a service. */
  lemma GetIdFindsRunning(start: World, events: seq<Event>, ty: nat, params: Params)
    requires Initial(start) && Run(start, events).replies == []
    ensures var w := Run(start, events);
            var id := FirstWith(w.registry.Instances(ty), params);
            && (id != 0 ==> Shown(w, id) && w.services[id].ty == ty && w.services[id].params == params)
            && (id == 0 ==> forall i :: Shown(w, i) && w.services[i].ty == ty ==>
                              w.services[i].params != params)
  {
    MirrorTheorem(start, events);
    var w := Run(start, events);
    var r := w.registry;
    assert Filed(r, ty);
    FirstWithIsMostRecent(r.Instances(ty), params);
    var id := FirstWith(r.Instances(ty), params);
    if id != 0 {
      var mine := Entry(w.services[id].params, id);
      assert mine in r.Instances(ty) && Entry(params, id) in r.Instances(ty);
      SameNumberSameEntry(r.Instances(ty), mine, Entry(params, id));
    } else {
      forall i | Shown(w, i) && w.services[i].ty == ty ensures w.services[i].params != params {
        assert Entry(w.services[i].params, i) in r.Instances(ty);
      }
    }
  }

  lemma SameNumberSameEntry(list: seq<Entry>, a: Entry, b: Entry)
    requires DistinctNumbers(list) && a in list && b in list && a.number == b.number
    ensures a == b
  {
    var i :| 0 <= i < |list| && list[i] == a;
    var j :| 0 <= j < |list| && list[j] == b;
    assert i == j;
  }

  /** Send, handle, receive: one request taken through both empty channels. */
  function Exchange(w: World, request: Request, startup: Startup, stopFails: bool): World
  {
    Step(Step(Step(w, ClientSends(request)), PeerHandles(startup, stopFails)), ClientReceives)
  }

  /** Ids running for the client. */
  ghost function Running(w: World): set<nat>
  {
    set id | id in w.services && w.services[id].fromClient
  }

  /** A stop that fails at the peer does break the mirror: the service keeps running and
      the client no longer knows it. */
  lemma FailedStopHidesService(w: World, id: nat, startup: Startup)
    requires Inv(w) && w.requests == [] && w.replies == [] && Shown(w, id)
    ensures var v := Exchange(w, Stop(id), startup, true);
            id in Running(v) && id !in v.registry.status
  {
    hide Consistent;
    var w1 := Step(w, ClientSends(Stop(id)));
    var w2 := Step(w1, PeerHandles(startup, true));
    var w3 := Step(w2, ClientReceives);
    assert w1.requests[0] == Stop(id);
    StepKeepsInv(w, ClientSends(Stop(id)));
    StepKeepsInv(w1, PeerHandles(startup, true));
    StepKeepsInv(w2, ClientReceives);
    assert w3.replies == [];
    assert !Shown(w3, id);
  }

  /** Such a world is reached by one successful creation, here of type 7 as service 1. */
  lemma CreationShowsService(params: Params)
    ensures var start := World({7}, map[], [], [], EMPTY);
            var w := Exchange(start, Create(7, params), StartReports(0), false);
            Initial(start) && w.requests == [] && w.replies == [] && Shown(w, 1)
  {
    var start := World({7}, map[], [], [], EMPTY);
    var w1 := Step(start, ClientSends(Create(7, params)));
    assert w1.requests == [Create(7, params)];
    assert ServiceManager.FreeId({}) == 1;
  }
}
