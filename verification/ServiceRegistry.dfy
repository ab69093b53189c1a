/** The client's table of remote services (src/core/service_manager/service_manager.h),
    as a value. */
module ServiceRegistry {

  type Params = map<string, string>

  /** An entry of an instance list (id) or of an error list (error code). */
  datatype Entry = Entry(params: Params, number: nat)

  /** EINTR: the value that means "service stopped". */
  const STOPPED: nat := 4

  const ERROR_LIST_LIMIT: nat := 100

  const UNDEFINED: nat := 0xFFFF_FFFF

  // ------------------------------------------------------------- as a value

  /** status_, service_ids_, intance_lists_ and error_lists_.  operator[] on a missing
      type makes an empty list, so a missing list reads as empty. */
  datatype Registry = Registry(status: map<nat, nat>, types: map<nat, nat>,
                               instances: map<nat, seq<Entry>>, errors: map<nat, seq<Entry>>)
  {
    function Instances(ty: nat): seq<Entry> { if ty in instances then instances[ty] else [] }
    function Errors(ty: nat): seq<Entry> { if ty in errors then errors[ty] else [] }
  }

  const EMPTY: Registry := Registry(map[], map[], map[], map[])

  function Remove(list: seq<Entry>, id: nat): (r: seq<Entry>)
    ensures forall e :: e in r ==> e in list
  {
    if list == [] then []
    else if list[0].number == id then list[1..]
    else [list[0]] + Remove(list[1..], id)
  }

  /** Removal at the first index that carries the id, if there is one. */
  lemma {:induction false} RemoveFirst(list: seq<Entry>, id: nat, i: nat)
    requires i <= |list| && forall j :: 0 <= j < i ==> list[j].number != id
    requires i < |list| ==> list[i].number == id
    ensures Remove(list, id) == if i < |list| then list[..i] + list[i + 1..] else list
  {
    if i > 0 {
      assert list == [list[0]] + list[1..];
      RemoveFirst(list[1..], id, i - 1);
    }
  }

  function Newest(list: seq<Entry>): seq<Entry>
  {
    if |list| > ERROR_LIST_LIMIT then list[..|list| - 1] else list
  }

  function AddRemote(r: Registry, id: nat, ty: nat, code: nat, params: Params): Registry
  {
    if id != 0
    then Registry(r.status[id := code], r.types[id := ty],
                  r.instances[ty := [Entry(params, id)] + r.Instances(ty)], r.errors)
    else r.(errors := r.errors[ty := Newest([Entry(params, code)] + r.Errors(ty))])
  }

  /** update_remote without a type: only a known id changes anything. */
  function UpdateKnown(r: Registry, id: nat, code: nat): Registry
  {
    if id !in r.status then r
    else if code == STOPPED
    then
      var ty := if id in r.types then r.types[id] else 0;
      Registry(r.status - {id}, r.types - {id},
               r.instances[ty := Remove(r.Instances(ty), id)], r.errors)
    else r.(status := r.status[id := code])
  }

  /** update_remote with a type: an unknown id is added. */
  function Update(r: Registry, id: nat, ty: nat, code: nat, params: Params): Registry
  {
    if id !in r.status then AddRemote(r, id, ty, code, params) else UpdateKnown(r, id, code)
  }

  function FirstWith(list: seq<Entry>, params: Params): (n: nat)
    ensures n == 0 || Entry(params, n) in list
  {
    if list == [] then 0
    else if list[0].params == params then list[0].number
    else FirstWith(list[1..], params)
  }

  // -------------------------------------------------------------- invariants

  ghost predicate DistinctNumbers(list: seq<Entry>)
  {
    forall i, j :: 0 <= i < j < |list| ==> list[i].number != list[j].number
  }

  /** The lists of one type: live ids of that type only, each once, and at most 100
      errors. */
  ghost predicate Filed(r: Registry, ty: nat)
  {
    && DistinctNumbers(r.Instances(ty))
    && (forall e :: e in r.Instances(ty) ==> e.number in r.types && r.types[e.number] == ty)
    && |r.Errors(ty)| <= ERROR_LIST_LIMIT
  }

  /** A live id has an entry in the list of its type. */
  ghost predicate Listed(r: Registry, id: nat)
    requires id in r.types
  {
    exists e :: e in r.Instances(r.types[id]) && e.number == id
  }

  /** Every live id is a non-zero key of both tables, and the instance lists hold
      exactly the live ids, each once and only under its own type. */
  ghost predicate Consistent(r: Registry)
  {
    && 0 !in r.status
    && r.status.Keys == r.types.Keys
    && (forall ty: nat :: Filed(r, ty))
    && (forall id :: id in r.types ==> Listed(r, id))
  }

  /** Removing an id takes out its entry and nothing else, keeping the order. */
  lemma {:induction false} RemoveExact(list: seq<Entry>, id: nat)
    requires DistinctNumbers(list)
    ensures DistinctNumbers(Remove(list, id))
    ensures forall e :: e in Remove(list, id) <==> e in list && e.number != id
  {
    if list != [] {
      assert list == [list[0]] + list[1..];
      if list[0].number == id {
        forall e | e in list[1..] ensures e.number != id {
          var i :| 0 <= i < |list[1..]| && list[1..][i] == e;
          assert list[i + 1] == e;
        }
      } else {
        RemoveExact(list[1..], id);
        var rest := Remove(list[1..], id);
        forall i | 0 <= i < |rest| ensures rest[i].number != list[0].number {
          assert rest[i] in list[1..];
        }
      }
    }
  }

  lemma AddFiles(r: Registry, id: nat, ty: nat, code: nat, params: Params, t: nat)
    requires Filed(r, t) && id !in r.types && (id == 0 ==> 0 !in r.status)
    ensures Filed(AddRemote(r, id, ty, code, params), t)
  {
    var s := AddRemote(r, id, ty, code, params);
    if id != 0 && t == ty {
      assert s.Instances(t) == [Entry(params, id)] + r.Instances(t);
      forall i | 0 <= i < |r.Instances(t)| ensures r.Instances(t)[i].number != id {
        assert r.Instances(t)[i] in r.Instances(t);
      }
    } else {
      assert s.Instances(t) == r.Instances(t);
    }
  }

  lemma AddLists(r: Registry, id: nat, ty: nat, code: nat, params: Params, i: nat)
    requires id !in r.types && i in AddRemote(r, id, ty, code, params).types
    requires i in r.types ==> Listed(r, i)
    ensures Listed(AddRemote(r, id, ty, code, params), i)
  {
    var s := AddRemote(r, id, ty, code, params);
    if i in r.types {
      var e :| e in r.Instances(r.types[i]) && e.number == i;
      assert e in s.Instances(s.types[i]);
    } else {
      assert s.Instances(ty)[0] == Entry(params, id);
    }
  }

  lemma AddKeepsConsistent(r: Registry, id: nat, ty: nat, code: nat, params: Params)
    requires Consistent(r) && id !in r.status
    ensures Consistent(AddRemote(r, id, ty, code, params))
  {
    hide Filed, Listed;
    var s := AddRemote(r, id, ty, code, params);
    forall t: nat ensures Filed(s, t) {
      assert Filed(r, t);
      AddFiles(r, id, ty, code, params, t);
    }
    forall i | i in s.types ensures Listed(s, i) { AddLists(r, id, ty, code, params, i); }
  }

  lemma StopFiles(r: Registry, id: nat, t: nat)
    requires Filed(r, t) && id in r.status && id in r.types
    ensures Filed(UpdateKnown(r, id, STOPPED), t)
    ensures forall e :: e in UpdateKnown(r, id, STOPPED).Instances(t) <==>
                        e in r.Instances(t) && e.number != id
  {
    RemoveExact(r.Instances(t), id);
  }

  lemma StopKeepsConsistent(r: Registry, id: nat)
    requires Consistent(r) && id in r.status
    ensures Consistent(UpdateKnown(r, id, STOPPED))
  {
    hide Filed, Remove;
    var s := UpdateKnown(r, id, STOPPED);
    forall t: nat ensures Filed(s, t) {
      assert Filed(r, t);
      StopFiles(r, id, t);
    }
    forall i | i in s.types ensures Listed(s, i) {
      assert Listed(r, i);
      assert Filed(r, s.types[i]);
      StopFiles(r, id, s.types[i]);
    }
  }

  lemma UpdateKnownKeepsConsistent(r: Registry, id: nat, code: nat)
    requires Consistent(r)
    ensures Consistent(UpdateKnown(r, id, code))
  {
    if id in r.status && code == STOPPED {
      StopKeepsConsistent(r, id);
    } else {
      var s := UpdateKnown(r, id, code);
      forall t: nat ensures Filed(s, t) { assert Filed(r, t); }
      forall i | i in s.types ensures Listed(s, i) { assert Listed(r, i); }
    }
  }

  // ------------------------------------------------- runs and the history they log

  datatype Call =
    | Typed(id: nat, ty: nat, code: nat, params: Params)
    | Plain(id: nat, code: nat)

  function Apply(r: Registry, c: Call): Registry
  {
    match c
    case Typed(id, ty, code, params) => Update(r, id, ty, code, params)
    case Plain(id, code) => UpdateKnown(r, id, code)
  }

  function Run(calls: seq<Call>): Registry
  {
    if calls == [] then EMPTY else Apply(Run(calls[..|calls| - 1]), calls[|calls| - 1])
  }

  /** What a call does to a registry, in the terms a user of the table would use. */
  datatype Change =
    | Started(ty: nat, params: Params, id: nat)
    | Stopped(id: nat)
    | Failed(ty: nat, params: Params, code: nat)
    | Nothing

  function ChangeOf(r: Registry, c: Call): Change
  {
    if c.id in r.status then (if c.code == STOPPED then Stopped(c.id) else Nothing)
    else if c.Plain? then Nothing
    else if c.id != 0 then Started(c.ty, c.params, c.id)
    else Failed(c.ty, c.params, c.code)
  }

  function Log(calls: seq<Call>): seq<Change>
  {
    if calls == [] then []
    else
      var before := calls[..|calls| - 1];
      Log(before) + [ChangeOf(Run(before), calls[|calls| - 1])]
  }

  /** The starts of a type that no later stop in the log (or in `dead`) undoes,
      most recent first. */
  function LiveStarts(log: seq<Change>, ty: nat, dead: set<nat>): seq<Entry>
  {
    if log == [] then []
    else
      var before := log[..|log| - 1];
      match log[|log| - 1]
      case Stopped(id) => LiveStarts(before, ty, dead + {id})
      case Started(t, params, id) =>
        (if t == ty && id !in dead then [Entry(params, id)] else []) + LiveStarts(before, ty, dead)
      case _ => LiveStarts(before, ty, dead)
  }

  /** The failures of a type, most recent first. */
  function Failures(log: seq<Change>, ty: nat): seq<Entry>
  {
    if log == [] then []
    else
      var before := Failures(log[..|log| - 1], ty);
      match log[|log| - 1]
      case Failed(t, params, code) => if t == ty then [Entry(params, code)] + before else before
      case _ => before
  }

  function Without(list: seq<Entry>, id: nat): seq<Entry>
  {
    if list == [] then []
    else (if list[0].number == id then [] else [list[0]]) + Without(list[1..], id)
  }

  lemma {:induction false} WithoutConcat(a: seq<Entry>, b: seq<Entry>, id: nat)
    ensures Without(a + b, id) == Without(a, id) + Without(b, id)
  {
    if a == [] {
      assert a + b == b;
    } else {
      assert (a + b)[1..] == a[1..] + b;
      WithoutConcat(a[1..], b, id);
    }
  }

  lemma {:induction false} DeadStarts(log: seq<Change>, ty: nat, dead: set<nat>, id: nat)
    ensures LiveStarts(log, ty, dead + {id}) == Without(LiveStarts(log, ty, dead), id)
  {
    if log != [] {
      var before := log[..|log| - 1];
      match log[|log| - 1]
      case Stopped(i) =>
        assert (dead + {id}) + {i} == (dead + {i}) + {id};
        DeadStarts(before, ty, dead + {i}, id);
      case Started(t, params, i) =>
        DeadStarts(before, ty, dead, id);
        var head := if t == ty && i !in dead then [Entry(params, i)] else [];
        WithoutConcat(head, LiveStarts(before, ty, dead), id);
      case _ => DeadStarts(before, ty, dead, id);
    }
  }

  lemma {:induction false} RemoveIsWithout(list: seq<Entry>, id: nat)
    requires DistinctNumbers(list)
    ensures Remove(list, id) == Without(list, id)
  {
    if list != [] {
      RemoveIsWithout(list[1..], id);
      if list[0].number == id {
        forall i | 0 <= i < |list[1..]| ensures list[1..][i].number != id {
          assert list[1..][i] == list[i + 1];
        }
        NothingToRemove(list[1..], id);
      }
    }
  }

  lemma {:induction false} NothingToRemove(list: seq<Entry>, id: nat)
    requires forall i :: 0 <= i < |list| ==> list[i].number != id
    ensures Without(list, id) == list
  {
    if list != [] { NothingToRemove(list[1..], id); }
  }

  /** One call keeps the tables consistent. */
  lemma ApplyKeepsConsistent(r: Registry, c: Call)
    requires Consistent(r)
    ensures Consistent(Apply(r, c))
  {
    hide Consistent;
    if c.id in r.status || c.Plain? {
      UpdateKnownKeepsConsistent(r, c.id, c.code);
    } else {
      AddKeepsConsistent(r, c.id, c.ty, c.code, c.params);
    }
  }

  /** After any run of update_remote calls the tables are consistent. */
  lemma {:induction false} RunConsistent(calls: seq<Call>)
    ensures Consistent(Run(calls))
  {
    if calls != [] {
      hide Consistent, Apply;
      RunConsistent(calls[..|calls| - 1]);
      ApplyKeepsConsistent(Run(calls[..|calls| - 1]), calls[|calls| - 1]);
    } else {
      assert forall ty: nat :: Filed(EMPTY, ty);
    }
  }

  // ---------------------------------------------------- the status of one id

  datatype Life = NotLive | Live(ty: nat, code: nat)

  /** What a run of calls says about one id: the first typed call makes it live, value 4 ends
      it, and while it is live every other value is its new status. */
  function LifeOf(calls: seq<Call>, id: nat): Life
  {
    if calls == [] then NotLive
    else
      var before, c := LifeOf(calls[..|calls| - 1], id), calls[|calls| - 1];
      if c.id != id then before
      else if before.Live? then (if c.code == 4 then NotLive else Live(before.ty, c.code))
      else if c.Typed? && id != 0 then Live(c.ty, c.code)
      else NotLive
  }

  lemma StatusOfCall(r: Registry, c: Call, id: nat)
    ensures var s := Apply(r, c);
            if c.id != id then
              && (id in s.status <==> id in r.status) && (id in s.types <==> id in r.types)
              && (id in r.status ==> s.status[id] == r.status[id])
              && (id in r.types ==> s.types[id] == r.types[id])
            else if id in r.status then
              && (id in s.status <==> c.code != 4) && (c.code != 4 ==> s.status[id] == c.code && s.types == r.types)
              && (c.code == 4 ==> id !in s.types)
            else if c.Typed? && id != 0 then
              id in s.status && s.status[id] == c.code && id in s.types && s.types[id] == c.ty
            else s.status == r.status && s.types == r.types
  {
    hide Remove, Newest;
  }

  /** After any run, the table knows exactly the live ids, with their types and statuses. */
  lemma {:induction false} RunStatus(calls: seq<Call>, id: nat)
    ensures var r, life := Run(calls), LifeOf(calls, id);
            && (id in r.status <==> life.Live?) && (id in r.types <==> life.Live?)
            && (life.Live? ==> r.status[id] == life.code && r.types[id] == life.ty)
  {
    if calls != [] {
      hide Apply;
      RunStatus(calls[..|calls| - 1], id);
      StatusOfCall(Run(calls[..|calls| - 1]), calls[|calls| - 1], id);
    }
  }

  /** How one call changes the instance list of a type. */
  lemma CallOnInstances(r: Registry, c: Call, ty: nat)
    requires Consistent(r)
    ensures Apply(r, c).Instances(ty) ==
            match ChangeOf(r, c)
            case Stopped(id) => Without(r.Instances(ty), id)
            case Started(t, params, id) =>
              (if t == ty then [Entry(params, id)] else []) + r.Instances(ty)
            case _ => r.Instances(ty)
  {
    assert Filed(r, ty);
    if ChangeOf(r, c).Stopped? {
      RemoveIsWithout(r.Instances(ty), c.id);
      if r.types[c.id] != ty { NothingToRemove(r.Instances(ty), c.id); }
    }
  }

  /** After any run, each instance list is exactly the live starts of its type in the
      log, newest first. */
  lemma {:induction false} RunInstances(calls: seq<Call>, ty: nat)
    ensures Run(calls).Instances(ty) == LiveStarts(Log(calls), ty, {})
  {
    if calls != [] {
      hide Apply, ChangeOf, Consistent;
      var before, c := calls[..|calls| - 1], calls[|calls| - 1];
      RunInstances(before, ty);
      RunConsistent(before);
      CallOnInstances(Run(before), c, ty);
      var log := Log(before);
      var change := ChangeOf(Run(before), c);
      assert (log + [change])[..|log|] == log;
      if change.Stopped? {
        DeadStarts(log, ty, {}, change.id);
        assert {} + {change.id} == {change.id};
      }
    }
  }

  /** How one call changes the error list of a type. */
  lemma CallOnErrors(r: Registry, c: Call, ty: nat)
    ensures Apply(r, c).Errors(ty) ==
            match ChangeOf(r, c)
            case Failed(t, params, code) =>
              if t == ty then Newest([Entry(params, code)] + r.Errors(ty)) else r.Errors(ty)
            case _ => r.Errors(ty)
  {
  }

  /** After any run, each error list is the 100 most recent failures of its type. */
  lemma {:induction false} RunErrors(calls: seq<Call>, ty: nat)
    ensures var f := Failures(Log(calls), ty);
            Run(calls).Errors(ty) == if |f| <= 100 then f else f[..100]
  {
    if calls != [] {
      hide Apply, ChangeOf;
      var before, c := calls[..|calls| - 1], calls[|calls| - 1];
      RunErrors(before, ty);
      CallOnErrors(Run(before), c, ty);
      var log := Log(before);
      assert (log + [ChangeOf(Run(before), c)])[..|log|] == log;
    }
  }

  /** get_id returns the id of the most recently started live match, or 0 if none. */
  lemma {:induction false} FirstWithIsMostRecent(list: seq<Entry>, params: Params)
    requires forall e :: e in list ==> e.number != 0
    ensures FirstWith(list, params) == 0 <==> forall e :: e in list ==> e.params != params
    ensures FirstWith(list, params) != 0 ==>
      exists i :: 0 <= i < |list| && list[i] == Entry(params, FirstWith(list, params))
                  && forall j :: 0 <= j < i ==> list[j].params != params
  {
    if list != [] {
      assert list == [list[0]] + list[1..];
      if list[0].params == params {
        assert list[0] == Entry(params, FirstWith(list, params));
      } else {
        FirstWithIsMostRecent(list[1..], params);
        if FirstWith(list, params) != 0 {
          var i :| 0 <= i < |list[1..]| && list[1..][i] == Entry(params, FirstWith(list, params))
                   && forall j :: 0 <= j < i ==> list[1..][j].params != params;
          assert list[i + 1] == Entry(params, FirstWith(list, params));
          forall j | 0 <= j < i + 1 ensures list[j].params != params {
            if j > 0 { assert list[j] == list[1..][j - 1]; }
          }
        }
      }
    }
  }

  lemma GetIdAfterRun(calls: seq<Call>, ty: nat, params: Params)
    ensures var live := LiveStarts(Log(calls), ty, {});
            var id := FirstWith(Run(calls).Instances(ty), params);
            && (id == 0 <==> forall e :: e in live ==> e.params != params)
            && (id != 0 ==> id in Run(calls).types && Run(calls).types[id] == ty)
            && (id != 0 ==> exists i :: 0 <= i < |live| && live[i] == Entry(params, id)
                                        && forall j :: 0 <= j < i ==> live[j].params != params)
  {
    RunConsistent(calls);
    assert Filed(Run(calls), ty);
    RunInstances(calls, ty);
    FirstWithIsMostRecent(Run(calls).Instances(ty), params);
  }
}
