/** The client's table of remote services and the peer's manager of running items
    (src/network/ssf/network/manager.h) as objects, each method proved against the value
    functions. */
module ServiceManager {
  import opened ServiceRegistry

  /** ServiceManager: the remote side of it. */
  class ServiceManager {
    var status: map<nat, nat>
    var serviceIds: map<nat, nat>
    var instanceLists: map<nat, seq<Entry>>
    var errorLists: map<nat, seq<Entry>>

    function View(): Registry
      reads this
    {
      Registry(status, serviceIds, instanceLists, errorLists)
    }

    constructor ()
      ensures View() == EMPTY
    {
      status, serviceIds, instanceLists, errorLists := map[], map[], map[], map[];
    }

    /** The loop of get_id and find_error. */
    method Search(list: seq<Entry>, params: Params) returns (n: nat)
      ensures n == FirstWith(list, params)
    {
      var i := 0;
      assert list[0..] == list;
      while i < |list|
        invariant 0 <= i <= |list|
        invariant FirstWith(list, params) == FirstWith(list[i..], params)
      {
        if list[i].params == params {
          return list[i].number;
        }
        assert list[i..][1..] == list[i + 1..];
        i := i + 1;
      }
      return 0;
    }

    /** get_id; looking up a type creates its (empty) list. */
    method GetId(ty: nat, params: Params) returns (id: nat)
      modifies this`instanceLists
      ensures id == FirstWith(old(View()).Instances(ty), params)
      ensures forall t: nat :: View().Instances(t) == old(View()).Instances(t)
    {
      if ty !in instanceLists {
        instanceLists := instanceLists[ty := []];
      }
      id := Search(instanceLists[ty], params);
    }

    method FindError(ty: nat, params: Params) returns (code: nat)
      modifies this`errorLists
      ensures code == FirstWith(old(View()).Errors(ty), params)
      ensures forall t: nat :: View().Errors(t) == old(View()).Errors(t)
    {
      if ty !in errorLists {
        errorLists := errorLists[ty := []];
      }
      code := Search(errorLists[ty], params);
    }

    /** get_status by id, then by the recorded error of the same request. */
    method GetStatus(ty: nat, params: Params, id: nat) returns (code: nat)
      modifies this`errorLists
      ensures code == if id in status then status[id]
                      else if FirstWith(old(View()).Errors(ty), params) != 0
                      then FirstWith(old(View()).Errors(ty), params)
                      else 0xFFFF_FFFF
      ensures forall t: nat :: View().Errors(t) == old(View()).Errors(t)
    {
      if id in status {
        return status[id];
      }
      var error := FindError(ty, params);
      code := if error != 0 then error else UNDEFINED;
    }

    method UpdateRemote(id: nat, ty: nat, code: nat, params: Params) returns (done: bool)
      modifies this
      ensures View() == Update(old(View()), id, ty, code, params) && done
    {
      if id !in status {
        AddRemoteService(id, ty, code, params);
        done := true;
      } else {
        done := UpdateKnownRemote(id, code);
      }
    }

    method UpdateKnownRemote(id: nat, code: nat) returns (done: bool)
      modifies this
      ensures View() == UpdateKnown(old(View()), id, code)
      ensures done == (id in old(status))
    {
      if id !in status {
        return false;
      }
      if code == STOPPED {
        status := status - {id};
        if id !in serviceIds {
          serviceIds := serviceIds[id := 0];
        }
        RemoveIdFromInstances(serviceIds[id], id);
        serviceIds := serviceIds - {id};
        assert serviceIds == old(serviceIds) - {id};
      } else {
        status := status[id := code];
      }
      done := true;
    }

    method AddRemoteService(id: nat, ty: nat, code: nat, params: Params)
      modifies this
      ensures View() == AddRemote(old(View()), id, ty, code, params)
    {
      if id != 0 {
        var list := if ty in instanceLists then instanceLists[ty] else [];
        instanceLists := instanceLists[ty := [Entry(params, id)] + list];
        serviceIds := serviceIds[id := ty];
        status := status[id := code];
      } else {
        var list := if ty in errorLists then errorLists[ty] else [];
        list := [Entry(params, code)] + list;
        if |list| > ERROR_LIST_LIMIT {
          list := list[..|list| - 1];
        }
        errorLists := errorLists[ty := list];
      }
    }

    method RemoveIdFromInstances(ty: nat, id: nat)
      modifies this`instanceLists
      ensures instanceLists ==
              old(instanceLists)[ty := Remove(old(View()).Instances(ty), id)]
    {
      var list := if ty in instanceLists then instanceLists[ty] else [];
      var i := 0;
      while i < |list| && list[i].number != id
        invariant 0 <= i <= |list|
        invariant forall j :: 0 <= j < i ==> list[j].number != id
      {
        i := i + 1;
      }
      RemoveFirst(list, id, i);
      if i < |list| {
        list := list[..i] + list[i + 1..];
      }
      instanceLists := instanceLists[ty := list];
    }
  }

  // ------------------------------------------------------------- ItemManager

  /** Ids run from 1 to 2^32 - 2; 0 means none. */
  const ID_END: nat := 0xFFFF_FFFF

  /** The smallest id not in use, or 0 when all are. */
  function FreeFrom(used: set<nat>, i: nat): (id: nat)
    requires 1 <= i
    ensures id == 0 ==> forall k :: i <= k < 0xFFFF_FFFF ==> k in used
    ensures id != 0 ==> i <= id < 0xFFFF_FFFF && id !in used && forall k :: i <= k < id ==> k in used
    decreases ID_END - i
  {
    if i >= ID_END then 0 else if i !in used then i else FreeFrom(used, i + 1)
  }

  lemma FreeStep(used: set<nat>, i: nat)
    requires 1 <= i
    ensures FreeFrom(used, i) == if i >= ID_END then 0 else if i !in used then i else FreeFrom(used, i + 1)
  {
  }

  function FreeId(used: set<nat>): nat { FreeFrom(used, 1) }

  /** ItemManager over items whose start and stop report an error code (0 for none),
      which the caller of the model supplies. */
  class ItemManager<Item> {
    var items: map<nat, Item>

    constructor ()
      ensures items == map[]
    {
      items := map[];
    }

    method GetAvailableId() returns (id: nat)
      ensures id == FreeId(items.Keys)
    {
      hide FreeFrom;
      ghost var used := items.Keys;
      var i := 1;
      while i < ID_END
        invariant 1 <= i <= ID_END
        invariant FreeId(used) == FreeFrom(used, i)
      {
        FreeStep(used, i);
        if i !in items {
          return i;
        }
        i := i + 1;
      }
      FreeStep(used, i);
      return 0;
    }

    /** do_start: `busy` when no id is left, otherwise whatever start reports. */
    method Start(item: Item, startError: nat, busy: nat) returns (id: nat, error: nat)
      requires busy != 0
      modifies this
      ensures var free := FreeId(old(items).Keys);
              if free == 0 then id == 0 && error == busy && items == old(items)
              else if startError != 0 then id == 0 && error == startError && items == old(items)
              else id == free && error == 0 && id !in old(items) && items == old(items)[id := item]
    {
      var fresh' := GetAvailableId();
      if fresh' == 0 {
        return 0, busy;
      }
      if startError != 0 {
        return 0, startError;
      }
      items := items[fresh' := item];
      return fresh', 0;
    }

    /** do_stop: an item whose stop fails stays in the map. */
    method Stop(id: nat, stopError: nat, invalid: nat) returns (error: nat)
      requires invalid != 0
      modifies this
      ensures error == if id in old(items) then stopError else invalid
      ensures items == if error == 0 then old(items) - {id} else old(items)
    {
      if id !in items {
        return invalid;
      }
      if stopError == 0 {
        items := items - {id};
      }
      return stopError;
    }
  }
}
