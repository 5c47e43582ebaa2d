/**
 The socket registry of core/adb/sockets.cpp as memory: asocket records behind pointers, the
 live and closing lists, and what relates them to the stream ends of module Streams. A
 pointer that is not in `mem` has been freed, so every dereference is proved to be of live
 memory.
 */
module Registry {
  import opened Base
  import opened Descriptors
  import opened Streams
  import opened StreamInvariant

  /**
   Addresses. Every record is allocated once, either as the n-th local socket or as a peer
   for it; the address is named after that.
   */
  datatype Ptr = Loc(n: Id) | Peer(n: Id)

  /** Which table of function pointers the asocket carries. */
  datatype Kind = Local | Remote | SmartPeer

  /**
   The fields of an asocket. `notify`: its ready and close are the *_notify variants.
   `bound`: its transport field is set. `readOn` and `writeOn` are FDE_READ and FDE_WRITE of fde.state; `buffer` is the packet a
   smart socket collects; `fd` and `status` are what was written to its descriptor.
   */
  datatype Sock = Sock(
    kind: Kind, id: Id, closing: bool, writeError: bool, notify: bool, bound: bool, peer: Option<Ptr>,
    readOn: bool, writeOn: bool, queue: seq<bytes>, buffer: bytes, fd: bytes, status: Status)

  datatype Registry = Registry(mem: map<Ptr, Sock>, live: seq<Ptr>, closing: seq<Ptr>, nextId: Id)

  predicate HasPeer(e: End)
  {
    e.phase.Smart? || e.phase.Connected?
  }

  /** `s` with every field that stream end `e` determines. */
  function Image(s: Sock, i: Id, e: End): Sock
  {
    Sock(Local, if e.phase.Draining? then 0 else i, e.phase.Draining?, s.writeError,
         e.origin.Client? && e.phase.Opening?, !e.origin.Service? && !e.phase.Smart?, if HasPeer(e) then Some(Peer(i)) else None,
         e.readOn, s.writeOn, e.queue, [], e.written, e.status)
  }

  /** The peer's record: a smart socket, or a remote socket with the other side's id. */
  function PeerImage(i: Id, e: End): Sock
    requires HasPeer(e)
  {
    match e.phase
    case Smart(b, bound) => PeerSock(SmartPeer, bound, 0, i, b)
    case Connected(q) => PeerSock(Remote, true, q, i, [])
  }

  function PeerSock(kind: Kind, bound: bool, id: Id, i: Id, buffer: bytes): Sock
  {
    Sock(kind, id, false, false, false, bound, Some(Loc(i)), false, false, [], buffer, [], Silent)
  }

  predicate Mirrors(mem: map<Ptr, Sock>, i: Id, e: End)
  {
    && Loc(i) in mem && mem[Loc(i)] == Image(mem[Loc(i)], i, e)
    && if HasPeer(e) then Peer(i) in mem && mem[Peer(i)] == PeerImage(i, e) else Peer(i) !in mem
  }

  predicate Allocated(m: Endpoint, i: Id)
  {
    i in m.ends && !m.ends[i].phase.Closed?
  }

  /** What the memory holds for local socket `i`, and that it holds nothing else for it. */
  predicate MirrorsAt(mem: map<Ptr, Sock>, m: Endpoint, i: Id)
  {
    if Allocated(m, i) then Mirrors(mem, i, m.ends[i]) else Loc(i) !in mem && Peer(i) !in mem
  }

  ghost predicate MemoryInv(mem: map<Ptr, Sock>, m: Endpoint)
  {
    forall i :: MirrorsAt(mem, m, i)
  }

  predicate Sorted(list: seq<Ptr>)
  {
    forall i, j :: 0 <= i < j < |list| ==> list[i].n < list[j].n
  }

  predicate Lives(m: Endpoint, p: Ptr)
  {
    p.Loc? && Allocated(m, p.n) && !m.ends[p.n].phase.Draining?
  }

  predicate Drains(m: Endpoint, p: Ptr)
  {
    p.Loc? && Allocated(m, p.n) && m.ends[p.n].phase.Draining?
  }

  /** The live list holds the sockets that are not draining, in order of id; the closing list the others, each once. */
  ghost predicate ListsInv(live: seq<Ptr>, closing: seq<Ptr>, m: Endpoint)
  {
    && (forall p :: p in live <==> Lives(m, p)) && Sorted(live)
    && (forall p :: p in closing <==> Drains(m, p)) && Distinct(closing)
  }

  /** No write error, and FDE_WRITE on exactly when packets are queued. */
  predicate Settled(s: Sock)
  {
    !s.writeError && s.writeOn == (s.queue != [])
  }

  /** Every socket is settled, and its end consistent, except perhaps `busy`, whose callback is running. */
  ghost predicate SettledInv(mem: map<Ptr, Sock>, m: Endpoint, busy: Option<Id>)
  {
    && (forall p :: p in mem && p.Loc? && busy != Some(p.n) ==> Settled(mem[p]))
    && (forall i :: i in m.ends && busy != Some(i) ==> EndInv(m.ends[i]))
  }

  /** The registry `r` holds exactly the stream ends of `m`. */
  ghost predicate Rep(r: Registry, m: Endpoint, busy: Option<Id>)
  {
    && r.nextId == m.nextId && 1 <= m.nextId && (forall i :: i in m.ends ==> 1 <= i < m.nextId)
    && MemoryInv(r.mem, m)
    && ListsInv(r.live, r.closing, m)
    && SettledInv(r.mem, m, busy)
  }

  // ----- what the source relies on -----

  /** Live ids are distinct, nonzero and below the next id; a closing socket has id 0, no peer, and packets queued. */
  lemma ListFacts(r: Registry, m: Endpoint)
    requires Rep(r, m, None)
    ensures forall p :: p in r.live ==> p in r.mem && 1 <= r.mem[p].id < r.nextId && !r.mem[p].closing
    ensures forall i, j :: 0 <= i < j < |r.live| ==>
              r.live[i] in r.mem && r.live[j] in r.mem && r.mem[r.live[i]].id < r.mem[r.live[j]].id
    ensures forall p :: p in r.closing ==>
              p in r.mem && r.mem[p].id == 0 && r.mem[p].peer.None? && r.mem[p].queue != [] && r.mem[p].closing
  {
    forall p | p in r.live ensures p in r.mem && r.mem[p].id == p.n && !r.mem[p].closing {
      assert Lives(m, p) && MirrorsAt(r.mem, m, p.n);
    }
    forall p | p in r.closing
      ensures p in r.mem && r.mem[p].id == 0 && r.mem[p].peer.None? && r.mem[p].queue != [] && r.mem[p].closing
    {
      assert Drains(m, p) && MirrorsAt(r.mem, m, p.n);
      assert EndInv(m.ends[p.n]);
    }
  }

  /**
   Peer links are symmetric and never dangle; FDE_WRITE is on exactly when packets are queued;
   a socket with packets queued that is not closing has a remote peer. The assertion at the
   end of local_socket_close and the call of `peer->ready` in local_socket_event_func are
   therefore safe.
   */
  lemma PointerFacts(r: Registry, m: Endpoint)
    requires Rep(r, m, None)
    ensures forall p :: p in r.mem && r.mem[p].peer.Some? ==>
              r.mem[p].peer.value in r.mem && r.mem[r.mem[p].peer.value].peer == Some(p)
    ensures forall p :: p in r.mem && r.mem[p].kind.Local? ==> (r.mem[p].writeOn <==> r.mem[p].queue != [])
    ensures forall p :: p in r.mem && r.mem[p].kind.Local? && r.mem[p].queue != [] && !r.mem[p].closing ==>
              r.mem[p].peer.Some? && r.mem[p].peer.value in r.mem && r.mem[r.mem[p].peer.value].kind.Remote?
  {
    forall p | p in r.mem
      ensures r.mem[p].peer.Some? ==> r.mem[p].peer.value in r.mem && r.mem[r.mem[p].peer.value].peer == Some(p)
      ensures r.mem[p].kind.Local? ==> p.Loc? && (r.mem[p].writeOn <==> r.mem[p].queue != [])
      ensures r.mem[p].kind.Local? && r.mem[p].queue != [] && !r.mem[p].closing ==>
                r.mem[p].peer.Some? && r.mem[p].peer.value in r.mem && r.mem[r.mem[p].peer.value].kind.Remote?
    {
      assert MirrorsAt(r.mem, m, p.n);
      assert EndInv(m.ends[p.n]);
    }
  }

  // ----- lists -----

  lemma {:induction false} WithoutOrder(list: seq<Ptr>, p: Ptr)
    requires Sorted(list)
    ensures Sorted(Without(list, p))
  {
    if list != [] {
      var rest := Without(list[1..], p);
      WithoutOrder(list[1..], p);
      forall q | q in rest ensures list[0].n < q.n {
        var k :| 0 <= k < |list[1..]| && list[1..][k] == q;
        assert list[k + 1] == q;
      }
    }
  }

  // ----- one local socket changes -----

  /** Only the records of local socket `i` differ. */
  ghost predicate Elsewhere(mem: map<Ptr, Sock>, mem': map<Ptr, Sock>, i: Id)
  {
    forall p :: p !in {Loc(i), Peer(i)} ==> (p in mem <==> p in mem') && (p in mem && p in mem' ==> mem[p] == mem'[p])
  }

  /** The lists after socket `i` became `e`: kept, moved to the closing list, or removed. */
  predicate ListsFollow(r: Registry, r': Registry, i: Id, was: End, e: End)
  {
    if e.phase.Closed? then r'.live == Without(r.live, Loc(i)) && r'.closing == Without(r.closing, Loc(i))
    else if e.phase.Draining? && !was.phase.Draining? then
      r'.live == Without(r.live, Loc(i)) && r'.closing == r.closing + [Loc(i)]
    else r'.live == r.live && r'.closing == r.closing && (e.phase.Draining? <==> was.phase.Draining?)
  }

  lemma MemoryKept(mem: map<Ptr, Sock>, mem': map<Ptr, Sock>, m: Endpoint, i: Id, e: End)
    requires MemoryInv(mem, m) && Elsewhere(mem, mem', i)
    requires MirrorsAt(mem', Put(m, i, e), i)
    ensures MemoryInv(mem', Put(m, i, e))
  {
    forall j ensures MirrorsAt(mem', Put(m, i, e), j) {
      if j != i { assert MirrorsAt(mem, m, j); }
    }
  }

  lemma ListsKept(r: Registry, r': Registry, m: Endpoint, i: Id, e: End)
    requires ListsInv(r.live, r.closing, m) && Allocated(m, i)
    requires ListsFollow(r, r', i, m.ends[i], e)
    ensures ListsInv(r'.live, r'.closing, Put(m, i, e))
  {
    var m' := Put(m, i, e);
    WithoutOrder(r.live, Loc(i));
    WithoutDistinct(r.closing, Loc(i));
    assert forall p :: p != Loc(i) ==> Lives(m', p) == Lives(m, p) && Drains(m', p) == Drains(m, p);
    assert Loc(i) in r.closing <==> Drains(m, Loc(i));
  }

  /** A step that changes one local socket, and its peer, keeps the registry well formed. */
  lemma RepChange(r: Registry, m: Endpoint, busy: Option<Id>, i: Id, r': Registry, e: End, busy': Option<Id>)
    requires Rep(r, m, busy) && Allocated(m, i)
    requires (busy.None? || busy == Some(i)) && (busy'.None? || busy' == Some(i))
    requires r'.nextId == r.nextId && Elsewhere(r.mem, r'.mem, i)
    requires MirrorsAt(r'.mem, Put(m, i, e), i)
    requires ListsFollow(r, r', i, m.ends[i], e)
    requires busy' == Some(i) || (EndInv(e) && (Loc(i) in r'.mem ==> Settled(r'.mem[Loc(i)])))
    ensures Rep(r', Put(m, i, e), busy')
  {
    MemoryKept(r.mem, r'.mem, m, i, e);
    ListsKept(r, r', m, i, e);
  }

  /** A new local socket. */
  lemma RepNew(r: Registry, m: Endpoint, r': Registry, e: End)
    requires Rep(r, m, None)
    requires !e.phase.Closed? && !e.phase.Draining? && EndInv(e)
    requires r'.nextId == r.nextId + 1 && Elsewhere(r.mem, r'.mem, r.nextId)
    requires Mirrors(r'.mem, r.nextId, e) && Settled(r'.mem[Loc(r.nextId)])
    requires r'.live == r.live + [Loc(r.nextId)] && r'.closing == r.closing
    ensures Rep(r', Install(m, e), None)
  {
    var i, m' := r.nextId, Install(m, e);
    forall j ensures MirrorsAt(r'.mem, m', j) {
      if j != i { assert MirrorsAt(r.mem, m, j); }
    }
    NewLists(r, m, e);
  }

  lemma NewLists(r: Registry, m: Endpoint, e: End)
    requires ListsInv(r.live, r.closing, m) && r.nextId == m.nextId && forall i :: i in m.ends ==> i < m.nextId
    requires !e.phase.Closed? && !e.phase.Draining?
    ensures ListsInv(r.live + [Loc(r.nextId)], r.closing, Install(m, e))
  {
    var m' := Install(m, e);
    assert forall p :: p != Loc(r.nextId) ==> Lives(m', p) == Lives(m, p) && Drains(m', p) == Drains(m, p);
    assert forall p :: p in r.live ==> p.n < r.nextId;
  }
}
