/**
 core/adb/adb_listeners.cpp with the disconnect lists of core/adb/transport.cpp: forwarding
 listeners bound to transports, and for each transport the list of callbacks to run when it goes
 offline. Erasure happens while lists are being walked.
 */
module Listeners {
  import opened Base

  type Tid = nat

  /** An alistener; `id` is its address, which is also the identity of its adisconnect. */
  datatype Listener = Listener(id: nat, localName: string, connectTo: string, transport: Option<Tid>)

  datatype InstallStatus = Ok | InternalError | CannotBind | CannotRebind | NotFound

  /** connect_to begins with '*'. */
  predicate Special(connectTo: string)
  {
    connectTo != "" && connectTo[0] == '*'
  }

  predicate Ids(list: seq<Listener>, nextId: nat)
  {
    && (forall i :: 0 <= i < |list| ==> list[i].id < nextId)
    && forall i, j :: 0 <= i < j < |list| ==> list[i].id != list[j].id
  }

  /** Listener `id` is on the list and bound to transport `t`. */
  predicate BoundTo(list: seq<Listener>, t: Tid, id: nat)
  {
    exists i :: 0 <= i < |list| && list[i].id == id && list[i].transport == Some(t)
  }

  function DisconnectsOf(disconnects: map<Tid, seq<nat>>, t: Tid): seq<nat>
  {
    if t in disconnects then disconnects[t] else []
  }

  /** The disconnect list of every transport names exactly the listeners bound to it, each once. */
  ghost predicate Registered(list: seq<Listener>, disconnects: map<Tid, seq<nat>>)
  {
    forall t :: Distinct(DisconnectsOf(disconnects, t)) &&
                forall id :: id in DisconnectsOf(disconnects, t) <==> BoundTo(list, t, id)
  }

  ghost predicate Inv(list: seq<Listener>, disconnects: map<Tid, seq<nat>>, nextId: nat)
  {
    Ids(list, nextId) && Registered(list, disconnects)
  }

  function Erase(list: seq<Listener>, k: nat): seq<Listener>
    requires k < |list|
  {
    list[..k] + list[k + 1..]
  }

  /** ~alistener: a listener still bound takes its callback off the transport's list. */
  function Unhook(disconnects: map<Tid, seq<nat>>, l: Listener): map<Tid, seq<nat>>
  {
    if l.transport.Some? then Hooked(disconnects, l.transport.value, Without(DisconnectsOf(disconnects, l.transport.value), l.id))
    else disconnects
  }

  function Hooked(disconnects: map<Tid, seq<nat>>, t: Tid, ids: seq<nat>): map<Tid, seq<nat>>
  {
    disconnects[t := ids]
  }

  lemma EraseBound(list: seq<Listener>, k: nat, nextId: nat)
    requires Ids(list, nextId) && k < |list|
    ensures Ids(Erase(list, k), nextId)
    ensures forall t, id :: BoundTo(Erase(list, k), t, id) <==> BoundTo(list, t, id) && id != list[k].id
  {
    var e := Erase(list, k);
    forall t: Tid, id: nat ensures BoundTo(e, t, id) <==> BoundTo(list, t, id) && id != list[k].id {
      if BoundTo(list, t, id) && id != list[k].id {
        var i :| 0 <= i < |list| && list[i].id == id && list[i].transport == Some(t);
        assert e[if i < k then i else i - 1] == list[i];
      }
    }
  }

  /** Destroying any one listener keeps the lists in step. */
  lemma EraseInv(list: seq<Listener>, disconnects: map<Tid, seq<nat>>, nextId: nat, k: nat)
    requires Inv(list, disconnects, nextId) && k < |list|
    ensures Inv(Erase(list, k), Unhook(disconnects, list[k]), nextId)
  {
    EraseBound(list, k, nextId);
    var d := Unhook(disconnects, list[k]);
    forall t: Tid ensures Distinct(DisconnectsOf(d, t)) && forall id: nat :: id in DisconnectsOf(d, t) <==> BoundTo(Erase(list, k), t, id) {
      WithoutDistinct(DisconnectsOf(disconnects, t), list[k].id);
      if Some(t) != list[k].transport {
        assert forall id :: BoundTo(list, t, id) ==> id != list[k].id;
      }
    }
  }

  // ----- a transport goes offline -----

  /** Removing the listeners bound to `t`, keeping the others in order. */
  function WithoutTransport(list: seq<Listener>, t: Tid): seq<Listener>
  {
    if list == [] then []
    else (if list[0].transport == Some(t) then [] else [list[0]]) + WithoutTransport(list[1..], t)
  }

  function WithoutIds(list: seq<Listener>, ids: seq<nat>): seq<Listener>
  {
    if list == [] then []
    else (if list[0].id in ids then [] else [list[0]]) + WithoutIds(list[1..], ids)
  }

  lemma {:induction false} WithoutIdsErase(list: seq<Listener>, k: nat, ids: seq<nat>)
    requires k < |list| && ids != [] && list[k].id == ids[0]
    requires forall i, j :: 0 <= i < j < |list| ==> list[i].id != list[j].id
    ensures WithoutIds(Erase(list, k), ids[1..]) == WithoutIds(list, ids)
  {
    if k == 0 {
      WithoutIdsOther(list[1..], ids);
      assert Erase(list, 0) == list[1..];
    } else {
      WithoutIdsErase(list[1..], k - 1, ids);
      assert Erase(list, k) == [list[0]] + Erase(list[1..], k - 1);
    }
  }

  lemma {:induction false} WithoutIdsOther(list: seq<Listener>, ids: seq<nat>)
    requires ids != [] && forall i :: 0 <= i < |list| ==> list[i].id != ids[0]
    ensures WithoutIds(list, ids[1..]) == WithoutIds(list, ids)
  {
    if list != [] { WithoutIdsOther(list[1..], ids); }
  }

  lemma {:induction false} WithoutBoundIds(list: seq<Listener>, t: Tid, ids: seq<nat>)
    requires forall i :: 0 <= i < |list| ==> (list[i].id in ids <==> list[i].transport == Some(t))
    ensures WithoutIds(list, ids) == WithoutTransport(list, t)
  {
    if list != [] { WithoutBoundIds(list[1..], t, ids); }
  }

  lemma WithoutNoIds(list: seq<Listener>)
    ensures WithoutIds(list, []) == list
  {
  }

  /** The first `i` callbacks of `ids` have run: exactly those listeners are gone. */
  ghost predicate Erasing(was: seq<Listener>, list: seq<Listener>, ids: seq<nat>, i: nat, nextId: nat)
    requires i <= |ids|
  {
    && Ids(list, nextId) && WithoutIds(list, ids[i..]) == WithoutIds(was, ids)
    && forall t: Tid, id: nat :: BoundTo(list, t, id) <==> BoundTo(was, t, id) && id !in ids[..i]
  }

  lemma ErasingStep(was: seq<Listener>, list: seq<Listener>, ids: seq<nat>, i: nat, nextId: nat, k: nat)
    requires i < |ids| && k < |list| && Erasing(was, list, ids, i, nextId) && list[k].id == ids[i]
    ensures Erasing(was, Erase(list, k), ids, i + 1, nextId)
  {
    EraseBound(list, k, nextId);
    WithoutIdsErase(list, k, ids[i..]);
    assert ids[i..][1..] == ids[i + 1..];
    assert ids[..i + 1] == ids[..i] + [ids[i]];
  }

  lemma ErasingDone(was: seq<Listener>, disconnects: map<Tid, seq<nat>>, list: seq<Listener>, t: Tid, nextId: nat)
    requires Inv(was, disconnects, nextId)
    requires var ids := DisconnectsOf(disconnects, t); Erasing(was, list, ids, |ids|, nextId)
    ensures list == WithoutTransport(was, t)
    ensures Inv(list, disconnects[t := []], nextId)
  {
    var ids := DisconnectsOf(disconnects, t);
    assert ids[|ids|..] == [];
    WithoutNoIds(list);
    assert forall i :: 0 <= i < |was| ==> (was[i].id in ids <==> was[i].transport == Some(t)) by { BoundOnce(was, nextId); }
    WithoutBoundIds(was, t, ids);
    ErasedRegistered(was, disconnects, list, t, nextId);
  }

  lemma ErasedRegistered(was: seq<Listener>, disconnects: map<Tid, seq<nat>>, list: seq<Listener>, t: Tid, nextId: nat)
    requires Ids(was, nextId) && Registered(was, disconnects)
    requires forall u: Tid, id: nat :: BoundTo(list, u, id) <==> BoundTo(was, u, id) && id !in DisconnectsOf(disconnects, t)
    ensures Registered(list, disconnects[t := []])
  {
    var d := disconnects[t := []];
    BoundOnce(was, nextId);
    forall u: Tid ensures Distinct(DisconnectsOf(d, u)) && forall id: nat :: id in DisconnectsOf(d, u) <==> BoundTo(list, u, id) {
      if u == t {
        assert DisconnectsOf(d, u) == [];
      } else {
        assert DisconnectsOf(d, u) == DisconnectsOf(disconnects, u);
      }
    }
  }

  /** A listener is bound to at most the one transport it names. */
  lemma BoundOnce(list: seq<Listener>, nextId: nat)
    requires Ids(list, nextId)
    ensures forall i, t: Tid :: 0 <= i < |list| ==> (BoundTo(list, t, list[i].id) <==> list[i].transport == Some(t))
    ensures forall t: Tid, u: Tid, id: nat :: BoundTo(list, t, id) && BoundTo(list, u, id) ==> t == u
  {
  }

  /** Moving a listener to transport `t` moves its callback. */
  function Rehook(disconnects: map<Tid, seq<nat>>, l: Listener, t: Tid): map<Tid, seq<nat>>
  {
    var d := Unhook(disconnects, l);
    d[t := DisconnectsOf(d, t) + [l.id]]
  }

  lemma RehookInv(list: seq<Listener>, disconnects: map<Tid, seq<nat>>, nextId: nat, k: nat, l: Listener, t: Tid)
    requires Inv(list, disconnects, nextId) && k < |list| && list[k].transport.Some? && list[k].transport != Some(t)
    requires l.id == list[k].id && l.transport == Some(t)
    ensures Inv(list[k := l], Rehook(disconnects, list[k], t), nextId)
  {
    var d, from := Rehook(disconnects, list[k], t), list[k].transport.value;
    BoundOnce(list, nextId);
    RebindBound(list, k, l);
    WithoutDistinct(DisconnectsOf(disconnects, from), l.id);
    forall u: Tid ensures Distinct(DisconnectsOf(d, u)) && forall id: nat :: id in DisconnectsOf(d, u) <==> BoundTo(list[k := l], u, id) {
      if u == t {
        assert l.id !in DisconnectsOf(disconnects, t);
        assert DisconnectsOf(d, t) == DisconnectsOf(disconnects, t) + [l.id];
      } else if u != from {
        assert DisconnectsOf(d, u) == DisconnectsOf(disconnects, u);
      }
    }
  }

  // ----- filters -----

  /** remove_all_listeners keeps the smart sockets. */
  function OnlySpecial(list: seq<Listener>): seq<Listener>
  {
    if list == [] then [] else (if Special(list[0].connectTo) then [list[0]] else []) + OnlySpecial(list[1..])
  }

  lemma {:induction false} OnlySpecialErase(list: seq<Listener>, k: nat)
    requires k < |list| && !Special(list[k].connectTo)
    ensures OnlySpecial(Erase(list, k)) == OnlySpecial(list)
  {
    if k == 0 {
      assert Erase(list, 0) == list[1..];
    } else {
      OnlySpecialErase(list[1..], k - 1);
      assert Erase(list, k) == [list[0]] + Erase(list[1..], k - 1);
    }
  }

  /** What stays is what connects to a name that begins with '*', and nothing else. */
  lemma {:induction false} OnlySpecialMeaning(list: seq<Listener>)
    ensures forall l :: l in OnlySpecial(list) <==> l in list && l.connectTo != "" && l.connectTo[0] == '*'
  {
    if list != [] { OnlySpecialMeaning(list[1..]); }
  }

  lemma OnlySpecialAll(list: seq<Listener>)
    requires forall i :: 0 <= i < |list| ==> Special(list[i].connectTo)
    ensures OnlySpecial(list) == list
  {
  }

  /** Every listener of transport `t`, and nothing else, leaves the list. */
  lemma {:induction false} WithoutTransportMeaning(list: seq<Listener>, t: Tid)
    ensures forall l :: l in WithoutTransport(list, t) <==> l in list && l.transport != Some(t)
  {
    if list != [] { WithoutTransportMeaning(list[1..], t); }
  }

  /** The listener an operation on `localName` is about; the length of the list if there is none. */
  function FirstNamed(list: seq<Listener>, localName: string): (k: nat)
    ensures k <= |list| && (k < |list| ==> list[k].localName == localName)
    ensures forall i :: 0 <= i < k ==> list[i].localName != localName
  {
    if list == [] || list[0].localName == localName then 0 else 1 + FirstNamed(list[1..], localName)
  }

  class ListenerTable {
    var list: seq<Listener>
    var disconnects: map<Tid, seq<nat>>
    var nextId: nat

    ghost predicate Valid()
      reads this
    {
      Inv(list, disconnects, nextId)
    }

    constructor ()
      ensures Valid() && list == []
    {
      list, disconnects, nextId := [], map[], 0;
    }

    /** The search every operation starts with. */
    method FindName(localName: string) returns (k: nat)
      ensures k == FirstNamed(list, localName)
    {
      k := 0;
      while k < |list| && list[k].localName != localName
        invariant k <= |list| && forall i :: 0 <= i < k ==> list[i].localName != localName
      {
        k := k + 1;
      }
    }

    /** `listener_list.erase`, which destroys the listener. */
    method Destroy(k: nat)
      requires Valid() && k < |list|
      modifies this`list, this`disconnects
      ensures Valid() && list == Erase(old(list), k)
    {
      EraseInv(list, disconnects, nextId, k);
      disconnects := Unhook(disconnects, list[k]);
      list := Erase(list, k);
    }

    method RemoveListener(localName: string) returns (status: InstallStatus)
      requires Valid()
      modifies this`list, this`disconnects
      ensures Valid()
      ensures var k := FirstNamed(old(list), localName);
              if k < |old(list)| then status.Ok? && list == Erase(old(list), k) else status.NotFound? && list == old(list)
    {
      var k := FindName(localName);
      if k == |list| { return NotFound; }
      Destroy(k);
      return Ok;
    }

    method RemoveAll()
      requires Valid()
      modifies this`list, this`disconnects
      ensures Valid() && list == OnlySpecial(old(list))
    {
      var k := 0;
      while k < |list|
        invariant Valid() && k <= |list| && OnlySpecial(list) == OnlySpecial(old(list))
        invariant forall i :: 0 <= i < k ==> Special(list[i].connectTo)
        decreases |list| - k
      {
        if Special(list[k].connectTo) {
          k := k + 1;
        } else {
          OnlySpecialErase(list, k);
          Destroy(k);
        }
      }
      OnlySpecialAll(list);
    }

    /** `listener_disconnect`: the listener forgets its transport first, so its destructor leaves the list being walked alone. */
    method Disconnect(id: nat)
      requires Ids(list, nextId)
      modifies this`list
      ensures forall k :: 0 <= k < |old(list)| && old(list)[k].id == id ==> list == Erase(old(list), k)
      ensures (forall k :: 0 <= k < |old(list)| ==> old(list)[k].id != id) ==> list == old(list)
    {
      var k := 0;
      while k < |list|
        invariant k <= |list| && list == old(list) && forall i :: 0 <= i < k ==> list[i].id != id
      {
        if list[k].id == id {
          list := Erase(list, k);
          return;
        }
        k := k + 1;
      }
    }

    /** `atransport::RunDisconnects`: afterwards no listener refers to `t`. */
    method RunDisconnects(t: Tid)
      requires Valid()
      modifies this`list, this`disconnects
      ensures Valid() && list == WithoutTransport(old(list), t)
    {
      ghost var was := list;
      var ids := DisconnectsOf(disconnects, t);
      for i := 0 to |ids|
        invariant disconnects == old(disconnects) && Erasing(was, list, ids, i, nextId)
      {
        assert BoundTo(was, t, ids[i]);
        assert BoundTo(list, t, ids[i]);
        ghost var k :| 0 <= k < |list| && list[k].id == ids[i];
        ErasingStep(was, list, ids, i, nextId, k);
        Disconnect(ids[i]);
      }
      ErasingDone(was, disconnects, list, t, nextId);
      disconnects := disconnects[t := []];
    }

    /**
     `install_listener`; `bound` is the name it ends up with, if the socket could be opened. The
     source dereferences both transports when it moves a listener.
     */
    method InstallListener(localName: string, connectTo: string, transport: Option<Tid>, noRebind: bool, bound: Option<string>)
      returns (status: InstallStatus)
      requires Valid()
      requires var k := FirstNamed(list, localName);
               k < |list| && !Special(list[k].connectTo) && !noRebind && list[k].transport != transport ==>
                 list[k].transport.Some? && transport.Some?
      modifies this
      ensures Valid()
      ensures var k := FirstNamed(old(list), localName);
              if k < |old(list)| then
                if Special(old(list)[k].connectTo) then status.InternalError? && list == old(list)
                else if noRebind then status.CannotRebind? && list == old(list)
                else status.Ok? && list == old(list)[k := old(list)[k].(connectTo := connectTo, transport := transport)]
              else if bound.None? then status.CannotBind? && list == old(list)
              else status.Ok? && list == old(list) + [Listener(old(nextId), bound.value, connectTo, transport)]
    {
      var k := FindName(localName);
      if k < |list| {
        if Special(list[k].connectTo) { return InternalError; }
        if noRebind { return CannotRebind; }
        Rebind(k, connectTo, transport);
        return Ok;
      }
      if bound.None? { return CannotBind; }
      Append(Listener(nextId, bound.value, connectTo, transport));
      return Ok;
    }

    method Append(l: Listener)
      requires Valid() && l.id == nextId
      modifies this
      ensures Valid() && list == old(list) + [l]
    {
      AppendBound(list, l);
      ghost var was, d := list, disconnects;
      if l.transport.Some? {
        var t := l.transport.value;
        assert nextId !in DisconnectsOf(disconnects, t);
        disconnects := disconnects[t := DisconnectsOf(disconnects, t) + [l.id]];
      }
      list, nextId := list + [l], nextId + 1;
      forall u: Tid ensures Distinct(DisconnectsOf(disconnects, u)) &&
                            forall id: nat :: id in DisconnectsOf(disconnects, u) <==> BoundTo(list, u, id) {
        assert forall id: nat :: id in DisconnectsOf(d, u) <==> BoundTo(was, u, id);
      }
    }

    /** A listener moves to another transport only from one transport to another. */
    method Rebind(k: nat, connectTo: string, transport: Option<Tid>)
      requires Valid() && k < |list| && (list[k].transport != transport ==> list[k].transport.Some? && transport.Some?)
      modifies this
      ensures Valid() && list == old(list)[k := old(list)[k].(connectTo := connectTo, transport := transport)] && nextId == old(nextId)
    {
      var l := list[k].(connectTo := connectTo, transport := transport);
      RebindBound(list, k, l);
      if list[k].transport != transport {
        var t := transport.value;
        RehookInv(list, disconnects, nextId, k, l, t);
        disconnects := Unhook(disconnects, list[k]);
        disconnects := disconnects[t := DisconnectsOf(disconnects, t) + [l.id]];
      } else {
        BoundOnce(list, nextId);
        assert forall u: Tid, id: nat :: BoundTo(list[k := l], u, id) <==> BoundTo(list, u, id);
      }
      list := list[k := l];
    }
  }

  lemma AppendBound(list: seq<Listener>, l: Listener)
    ensures forall t: Tid, id: nat :: BoundTo(list + [l], t, id) <==> BoundTo(list, t, id) || (id == l.id && l.transport == Some(t))
  {
    forall t: Tid, id: nat ensures BoundTo(list + [l], t, id) <==> BoundTo(list, t, id) || (id == l.id && l.transport == Some(t)) {
      assert (list + [l])[|list|] == l;
      if BoundTo(list, t, id) {
        var i :| 0 <= i < |list| && list[i].id == id && list[i].transport == Some(t);
        assert (list + [l])[i] == list[i];
      }
    }
  }

  lemma RebindBound(list: seq<Listener>, k: nat, l: Listener)
    requires k < |list| && l.id == list[k].id && forall i, j :: 0 <= i < j < |list| ==> list[i].id != list[j].id
    ensures forall t: Tid, id: nat :: BoundTo(list[k := l], t, id) <==> if id == l.id then l.transport == Some(t) else BoundTo(list, t, id)
  {
    forall t: Tid, id: nat ensures BoundTo(list[k := l], t, id) <==> if id == l.id then l.transport == Some(t) else BoundTo(list, t, id) {
      assert list[k := l][k] == l;
      if id != l.id && BoundTo(list, t, id) {
        var i :| 0 <= i < |list| && list[i].id == id && list[i].transport == Some(t);
        assert list[k := l][i] == list[i];
      }
    }
  }
}
