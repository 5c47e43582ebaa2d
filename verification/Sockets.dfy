/**
 core/adb/sockets.cpp and the stream commands of core/adb/adb.cpp as the program runs them: a
 table of asocket records updated in place, loops over partial reads and writes, lists that
 sockets move between. Each operation is proved to perform the step that module Streams
 gives for it, and to leave the registry well formed.
 */
module Sockets {
  import opened Base
  import opened Descriptors
  import opened SmartSocket
  import opened Streams
  import opened StreamInvariant
  import opened StreamPairs
  import opened Registry

  // ----- loops over descriptors and lists -----

  predicate PeerMatches(mem: map<Ptr, Sock>, p: Ptr, peerId: Id)
    requires p in mem && (mem[p].peer.Some? ==> mem[p].peer.value in mem)
  {
    peerId == 0 || (mem[p].peer.Some? && mem[mem[p].peer.value].id == peerId)
  }

  /** The loop of find_local_socket: the first socket with the id decides. */
  method FindIn(live: seq<Ptr>, mem: map<Ptr, Sock>, localId: Id, peerId: Id) returns (r: Option<Ptr>)
    requires forall p :: p in live ==> p in mem && (mem[p].peer.Some? ==> mem[p].peer.value in mem)
    requires forall i, j :: 0 <= i < j < |live| ==> mem[live[i]].id != mem[live[j]].id
    ensures r.Some? ==> r.value in live && mem[r.value].id == localId && PeerMatches(mem, r.value, peerId)
    ensures r.None? ==> forall p :: p in live && mem[p].id == localId ==> !PeerMatches(mem, p, peerId)
  {
    var i := 0;
    while i < |live|
      invariant 0 <= i <= |live|
      invariant forall j :: 0 <= j < i ==> mem[live[j]].id != localId
    {
      var p := live[i];
      assert p in live;
      if mem[p].id == localId {
        return if PeerMatches(mem, p, peerId) then Some(p) else None;
      }
      i := i + 1;
    }
    return None;
  }

  /** The write loop of local_socket_enqueue and of the event callback, on one packet. */
  method WritePacket(data: bytes, script: seq<WriteResult>) returns (count: nat, outcome: Outcome, rest: seq<WriteResult>)
    ensures Pushed(count, outcome, rest) == Push(data, script)
    ensures (outcome.Blocked? <==> WriteBlocks(data, script)) && (outcome.Failed? <==> WriteFails(data, script))
  {
    PushExactly(data, script);
    count, rest := 0, script;
    while count < |data|
      invariant count <= |data| && |rest| <= |script|
      invariant Push(data, script) == var r := Push(data[count..], rest); Pushed(count + r.count, r.outcome, r.script)
      decreases |rest|
    {
      if rest == [] { return count, Blocked, []; }
      var result := rest[0];
      rest := rest[1..];
      match result
      case WouldBlock => return count, Blocked, rest;
      case Broken => return count, Failed, rest;
      case Took(n) =>
        if n == 0 { return count, Failed, rest; }
        var k := Min(n, |data| - count);
        assert data[count..][k..] == data[count + k..];
        count := count + k;
    }
    assert data[count..] == [];
    outcome := Done;
  }

  /** One packet for the socket with record `s`: written as far as possible, the rest queued and FDE_WRITE enabled. */
  method TakePacket(s: Sock, data: bytes, script: seq<WriteResult>, ghost i: Id, ghost e: End) returns (s': Sock, outcome: Outcome)
    requires s == Image(s, i, e) && s.writeOn == (s.queue != [])
    ensures outcome == Take(e, data, script).outcome
    ensures s' == Image(s, i, Take(e, data, script).end).(writeOn := s'.queue != [])
  {
    if s.queue != [] {
      return s.(queue := s.queue + [data]), Blocked;
    }
    var count, o, _ := WritePacket(data, script);
    s', outcome := s.(fd := s.fd + data[..count]), o;
    if o.Blocked? {
      s' := s'.(queue := [data[count..]], writeOn := true);
    }
  }

  /** The loop over queued packets in the event callback. */
  method DrainQueue(queue: seq<bytes>, script: seq<WriteResult>) returns (written: bytes, left: seq<bytes>, outcome: Outcome)
    ensures Drained(written, left, outcome) == Drain(queue, script)
    ensures (outcome.Blocked? <==> QueueBlocks(queue, script)) && (outcome.Failed? <==> QueueFails(queue, script))
  {
    DrainExactly(queue, script);
    written, left := [], queue;
    var rest := script;
    while left != []
      invariant |left| <= |queue|
      invariant Drain(queue, script) == var d := Drain(left, rest); Drained(written + d.written, d.queue, d.outcome)
      decreases |left|
    {
      var count, o, more := WritePacket(left[0], rest);
      if !o.Done? {
        assert written + left[0][..count] == written + Drain(left, rest).written;
        return written + left[0][..count], [left[0][count..]] + left[1..], o;
      }
      assert written + (left[0] + Drain(left[1..], more).written) == written + left[0] + Drain(left[1..], more).written;
      written, left, rest := written + left[0], left[1..], more;
    }
    outcome := Done;
  }

  /** With `data` read so far, the rest of the script completes `total`. */
  predicate Pulling(total: Pulled, data: bytes, max: nat, rest: seq<ReadResult>)
  {
    && |data| <= max
    && var r := Pull(max - |data|, rest); total == Pulled(data + r.data, r.eof)
  }

  lemma PullingMore(total: Pulled, data: bytes, max: nat, rest: seq<ReadResult>)
    requires Pulling(total, data, max, rest) && |data| < max && rest != [] && rest[0].Got? && rest[0].data != []
    ensures Pulling(total, data + rest[0].data[..Min(|rest[0].data|, max - |data|)], max, rest[1..])
  {
    var k := rest[0].data[..Min(|rest[0].data|, max - |data|)];
    var r := Pull(max - |data| - |k|, rest[1..]);
    assert data + (k + r.data) == data + k + r.data;
  }

  /** The read loop of the event callback. */
  method ReadAvailable(max: nat, script: seq<ReadResult>) returns (data: bytes, eof: bool)
    ensures Pulled(data, eof) == Pull(max, script)
    ensures (eof <==> ReadEnds(max, script)) && data == Brought(script)[..Min(max, |Brought(script)|)]
  {
    PullExactly(max, script);
    data := [];
    ghost var total := Pull(max, script);
    var rest := script;
    while |data| < max && rest != []
      invariant Pulling(total, data, max, rest)
      decreases |rest|
    {
      var result := rest[0];
      match result
      case NothingYet => return data, false;
      case AtEnd => return data, true;
      case Got(d) =>
        if d == [] { return data, true; }
        PullingMore(total, data, max, rest);
        data, rest := data + d[..Min(|d|, max - |data|)], rest[1..];
    }
    eof := false;
  }

  // ----- what closing does to the records -----

  function PeerOf(mem: map<Ptr, Sock>, p: Ptr): set<Ptr>
    requires p in mem
  {
    if mem[p].peer.Some? then {mem[p].peer.value} else {}
  }

  function CloseState(r: Registry, p: Ptr): Registry
    requires p in r.mem
  {
    var s := r.mem[p];
    if s.closing || s.writeError || s.queue == [] then
      r.(mem := r.mem - PeerOf(r.mem, p) - {p}, live := Without(r.live, p), closing := Without(r.closing, p))
    else
      var s1 := s.(notify := false, status := if s.notify then SaidFail else s.status,
                   peer := None, closing := true, readOn := false, id := 0);
      r.(mem := (r.mem - PeerOf(r.mem, p))[p := s1], live := Without(r.live, p), closing := r.closing + [p])
  }

  function CloseSent(mem: map<Ptr, Sock>, p: Ptr): seq<Packet>
    requires p in mem && (mem[p].peer.Some? ==> mem[p].peer.value in mem)
  {
    if mem[p].peer.Some? && mem[mem[p].peer.value].kind.Remote? then [Clse(mem[p].id, mem[mem[p].peer.value].id)] else []
  }

  /** Closing the record is closing the stream end, and frees exactly what is no longer needed. */
  lemma CloseRep(r: Registry, m: Endpoint, i: Id)
    requires Rep(r, m, Some(i)) && Allocated(m, i) && Loc(i) in r.mem
    requires var c := Close(i, m.ends[i], r.mem[Loc(i)].writeError).end;
             EndInv(c) && (c.phase.Draining? ==> r.mem[Loc(i)].writeOn && !m.ends[i].phase.Smart?)
    ensures var p := Loc(i); var c := Close(i, m.ends[i], r.mem[p].writeError);
            && (r.mem[p].peer.Some? ==> r.mem[p].peer.value in r.mem && r.mem[p].peer.value != p)
            && CloseSent(r.mem, p) == c.sent
            && Rep(CloseState(r, p), Put(m, i, c.end), None)
  {
    var p := Loc(i);
    var c := Close(i, m.ends[i], r.mem[p].writeError);
    assert MirrorsAt(r.mem, m, i);
    RepChange(r, m, Some(i), i, CloseState(r, p), c.end, None);
  }

  /** The callback when FDE_WRITE is among the events: the write half sends no OPEN. */
  lemma EventHalves(i: Id, e: End, ev: Event, limit: nat)
    requires ev.writable
    ensures var w := OnWritable(i, e, ev.writes);
            && !Dies(w.sent, limit)
            && if w.finished || !ev.readable then OnEvent(i, e, ev, limit) == EndStep(w.end, w.sent)
               else
                 var r := OnReadable(i, w.end, ev, limit);
                 OnEvent(i, e, ev, limit) == EndStep(r.end, w.sent + r.sent) && (Dies(w.sent + r.sent, limit) <==> Dies(r.sent, limit))
  {
  }

  lemma PutPut(m: Endpoint, i: Id, a: End, b: End)
    ensures Put(Put(m, i, a), i, b) == Put(m, i, b)
  {
    assert m.ends[i := a][i := b] == m.ends[i := b];
  }

  /** Only the socket's own record changes, not its phase. */
  lemma StoreRep(r: Registry, m: Endpoint, busy: Option<Id>, i: Id, s: Sock, e: End, busy': Option<Id>)
    requires Rep(r, m, busy) && Allocated(m, i) && (busy.None? || busy == Some(i)) && (busy'.None? || busy' == Some(i))
    requires e.phase == m.ends[i].phase && s == Image(s, i, e)
    requires busy' == Some(i) || (EndInv(e) && Settled(s))
    ensures Rep(r.(mem := r.mem[Loc(i) := s]), Put(m, i, e), busy')
  {
    assert MirrorsAt(r.mem, m, i);
    RepChange(r, m, busy, i, r.(mem := r.mem[Loc(i) := s]), e, busy');
  }

  /** The socket's own record and its peer change, on the live list. */
  lemma PhaseRep(r: Registry, m: Endpoint, i: Id, r': Registry, e: End, busy: Option<Id>)
    requires Rep(r, m, None) && Allocated(m, i) && !m.ends[i].phase.Draining? && (busy.None? || busy == Some(i))
    requires r' == r.(mem := r'.mem) && Elsewhere(r.mem, r'.mem, i) && Mirrors(r'.mem, i, e)
    requires !e.phase.Closed? && !e.phase.Draining?
    requires busy == Some(i) || (EndInv(e) && Settled(r'.mem[Loc(i)]))
    ensures Rep(r', Put(m, i, e), busy)
  {
    RepChange(r, m, None, i, r', e, busy);
  }

  /** A socket in the live list is found by its id, and a peer by the id it carries. */
  lemma FindRep(r: Registry, m: Endpoint, localId: Id, peerId: Id, found: Option<Ptr>)
    requires Rep(r, m, None)
    requires forall p :: p in r.live ==> p in r.mem && (r.mem[p].peer.Some? ==> r.mem[p].peer.value in r.mem)
    requires found.Some? ==> found.value in r.live && r.mem[found.value].id == localId && PeerMatches(r.mem, found.value, peerId)
    requires found.None? ==> forall p :: p in r.live && r.mem[p].id == localId ==> !PeerMatches(r.mem, p, peerId)
    ensures found.Some? <==> Found(m, localId, peerId)
    ensures found.Some? ==> found.value == Loc(localId)
  {
    if found.Some? {
      assert Lives(m, found.value) && MirrorsAt(r.mem, m, found.value.n);
    } else {
      assert MirrorsAt(r.mem, m, localId);
      assert Loc(localId) in r.live <==> Lives(m, Loc(localId));
    }
  }

  /** A zeroed asocket with the function pointers of a local socket. */
  function Blank(bound: bool, readOn: bool): Sock
  {
    Sock(Local, 0, false, false, false, bound, None, readOn, false, [], [], [], Silent)
  }

  lemma RepOnline(r: Registry, m: Endpoint, online: bool)
    requires Rep(r, m, None)
    ensures Rep(r, m.(online := online), None)
  {
    forall i ensures MirrorsAt(r.mem, m.(online := online), i) { assert MirrorsAt(r.mem, m, i); }
    assert forall p :: Lives(m.(online := online), p) == Lives(m, p) && Drains(m.(online := online), p) == Drains(m, p);
  }

  // ----- closing everything on a transport -----

  /** What close_all_sockets asks of a socket: it, or its peer, is bound to the transport. */
  predicate Refers(mem: map<Ptr, Sock>, p: Ptr)
    requires p in mem && (mem[p].peer.Some? ==> mem[p].peer.value in mem)
  {
    mem[p].bound || (mem[p].peer.Some? && mem[mem[p].peer.value].bound)
  }

  /** The scan of close_all_sockets. */
  method FirstOnTransport(live: seq<Ptr>, mem: map<Ptr, Sock>) returns (k: nat)
    requires forall p :: p in live ==> p in mem && (mem[p].peer.Some? ==> mem[p].peer.value in mem)
    ensures k <= |live| && (k < |live| ==> Refers(mem, live[k]))
    ensures forall j :: 0 <= j < k ==> !Refers(mem, live[j])
  {
    k := 0;
    while k < |live| && !Refers(mem, live[k])
      invariant k <= |live|
      invariant forall j :: 0 <= j < k ==> !Refers(mem, live[j])
    {
      k := k + 1;
    }
  }

  /** The first socket of the live list on the transport is the stream end with the least id that refers to it. */
  lemma FirstLive(r: Registry, m: Endpoint, k: nat)
    requires Rep(r, m, None) && k <= |r.live|
    requires forall p :: p in r.live ==> p in r.mem && (r.mem[p].peer.Some? ==> r.mem[p].peer.value in r.mem)
    requires k < |r.live| ==> Refers(r.mem, r.live[k])
    requires forall j :: 0 <= j < k ==> !Refers(r.mem, r.live[j])
    ensures k < |r.live| ==> r.live[k].Loc? && Allocated(m, r.live[k].n) && OnTransport(m.ends[r.live[k].n])
    ensures forall i :: i in m.ends && OnTransport(m.ends[i]) ==> k < |r.live| && r.live[k].n <= i
  {
    forall p | p in r.live ensures p.Loc? && Allocated(m, p.n) && (Refers(r.mem, p) <==> OnTransport(m.ends[p.n])) {
      assert Lives(m, p) && MirrorsAt(r.mem, m, p.n);
    }
    forall i | i in m.ends && OnTransport(m.ends[i]) ensures k < |r.live| && r.live[k].n <= i {
      assert Lives(m, Loc(i));
      var j :| 0 <= j < |r.live| && r.live[j] == Loc(i);
    }
  }

  /** Sockets that do not refer to the transport do not matter to close_all_sockets. */
  lemma {:induction false} SkipDead(ep: Endpoint, from: Id, to: Id)
    requires from <= to
    requires forall i :: i in ep.ends && OnTransport(ep.ends[i]) ==> !(from <= i < to)
    ensures CloseFrom(ep, from) == CloseFrom(ep, to)
    decreases (to as int) - (from as int)
  {
    if from < to && from < ep.nextId {
      SkipDead(ep, from + 1, to);
    }
  }

  ghost predicate IsFirst(ep: Endpoint, i: Id)
  {
    i in ep.ends && OnTransport(ep.ends[i]) && forall j :: j in ep.ends && OnTransport(ep.ends[j]) ==> i <= j
  }

  /** With `sent` sent so far, closing from `next` on completes `total`. */
  predicate ClosesTo(ep: Endpoint, next: Id, sent: seq<Packet>, total: EndpointStep)
  {
    var r := CloseFrom(ep, next);
    total == EndpointStep(r.ep, sent + r.sent)
  }

  /** Closing the first live socket is the next thing CloseFrom does. */
  lemma CloseFromFirst(ep: Endpoint, next: Id, sent: seq<Packet>, total: EndpointStep, i: Id)
    requires ClosesTo(ep, next, sent, total) && next <= i < ep.nextId && IsFirst(ep, i)
    ensures var c := Close(i, ep.ends[i], false); ClosesTo(Put(ep, i, c.end), i + 1, sent + c.sent, total)
    ensures forall j :: IsFirst(Put(ep, i, Close(i, ep.ends[i], false).end), j) ==> i < j
  {
    SkipDead(ep, next, i);
    var c := Close(i, ep.ends[i], false);
    var r := CloseFrom(Put(ep, i, c.end), i + 1);
    assert sent + (c.sent + r.sent) == sent + c.sent + r.sent;
  }

  /** The globals of sockets.cpp and one transport. `out` is what send_packet wrote to it. */
  class SocketTable {
    var reg: Registry
    var online: bool
    var limit: nat
    var out: seq<Packet>
    ghost var model: Endpoint

    /** Well formed, except that the callback of `busy` is under way. */
    ghost predicate ValidBut(busy: Option<Id>)
      reads this
    {
      && model.online == online && model.limit == limit
      && Rep(reg, model, busy)
    }

    ghost predicate Valid()
      reads this
    {
      ValidBut(None)
    }

    constructor (limit: nat)
      ensures Valid() && out == [] && model == Endpoint(map[], 1, true, limit)
    {
      reg := Registry(map[], [], [], 1);
      online, this.limit, out := true, limit, [];
      model := Endpoint(map[], 1, true, limit);
    }

    /** `find_local_socket`. */
    method FindLocal(localId: Id, peerId: Id) returns (r: Option<Ptr>)
      requires Valid()
      ensures r.Some? <==> Found(model, localId, peerId)
      ensures r.Some? ==> r.value == Loc(localId)
    {
      ListFacts(reg, model);
      PointerFacts(reg, model);
      r := FindIn(reg.live, reg.mem, localId, peerId);
      FindRep(reg, model, localId, peerId, r);
    }

    /** local_socket_close lets go of the peer: remote_socket_shutdown sends CLSE for a remote one, and it is freed. */
    method DropPeer(p: Ptr)
      requires p in reg.mem && (reg.mem[p].peer.Some? ==> reg.mem[p].peer.value in reg.mem)
      modifies this`reg, this`out
      ensures reg == old(reg).(mem := old(reg).mem - PeerOf(old(reg).mem, p))
      ensures out == old(out) + CloseSent(old(reg.mem), p)
    {
      var s := reg.mem[p];
      if s.peer.Some? {
        var peer := reg.mem[s.peer.value];
        if peer.kind.Remote? {
          out := out + [Clse(s.id, peer.id)];
        }
      }
      reg := reg.(mem := reg.mem - PeerOf(reg.mem, p));
    }

    /** `s->close(s)` on the records alone: local_socket_close_notify tells the client and falls into local_socket_close. */
    method RawClose(p: Ptr)
      requires p in reg.mem && (reg.mem[p].peer.Some? ==> reg.mem[p].peer.value in reg.mem && reg.mem[p].peer.value != p)
      modifies this`reg, this`out
      ensures reg == CloseState(old(reg), p)
      ensures out == old(out) + CloseSent(old(reg.mem), p)
    {
      DropPeer(p);
      var s := reg.mem[p].(peer := None);
      if s.notify {
        s := s.(notify := false, status := SaidFail);
      }
      if s.closing || s.writeError || s.queue == [] {
        reg := Registry(reg.mem - {p}, Without(reg.live, p), Without(reg.closing, p), reg.nextId);
      } else {
        s := s.(closing := true, readOn := false, id := 0);
        reg := Registry(reg.mem[p := s], Without(reg.live, p), reg.closing + [p], reg.nextId);
      }
    }

    method CloseSocket(i: Id)
      requires ValidBut(Some(i)) && Allocated(model, i) && Loc(i) in reg.mem
      requires EndInv(Close(i, model.ends[i], reg.mem[Loc(i)].writeError).end)
      requires Close(i, model.ends[i], reg.mem[Loc(i)].writeError).end.phase.Draining? ==>
                 reg.mem[Loc(i)].writeOn && !model.ends[i].phase.Smart?
      modifies this
      ensures Valid() && online == old(online) && limit == old(limit)
      ensures var s := Close(i, old(model.ends[i]), old(reg.mem[Loc(i)].writeError));
              model == Put(old(model), i, s.end) && out == old(out) + s.sent
    {
      CloseRep(reg, model, i);
      ghost var m := Put(model, i, Close(i, model.ends[i], reg.mem[Loc(i)].writeError).end);
      RawClose(Loc(i));
      model := m;
    }

    /** `local_socket_enqueue`; the result is whether more data is welcome (0 in the source). */
    method LocalEnqueue(i: Id, data: bytes, script: seq<WriteResult>) returns (ready: bool)
      requires Valid() && i in model.ends && model.ends[i].phase.Connected?
      modifies this
      ensures Valid() && online == old(online) && limit == old(limit)
      ensures var s := Enqueue(i, old(model.ends[i]), data, script);
              && model == Put(old(model), i, s.end)
              && (if ready then s.sent == [Okay(i, old(model.ends[i]).phase.peer)] && out == old(out) && Loc(i) in reg.mem && reg.mem[Loc(i)].id == i
                  else out == old(out) + s.sent)
    {
      ghost var t := Take(model.ends[i], data, script);
      assert MirrorsAt(reg.mem, model, i);
      EnqueueEnd(i, model.ends[i], data, script);
      TakeEnd(model.ends[i], data, script);
      var s, outcome := TakePacket(reg.mem[Loc(i)], data, script, i, model.ends[i]);
      if outcome.Failed? {
        StoreAndClose(i, s.(writeError := true), t.end);
      } else {
        StoreEnd(i, s, t.end, None);
      }
      ready := outcome.Done?;
    }

    /** The record of socket `i` is overwritten; `e` is the stream end it then stands for. */
    method StoreEnd(i: Id, s: Sock, ghost e: End, ghost busy: Option<Id>)
      requires Valid() && Allocated(model, i) && (busy.None? || busy == Some(i))
      requires e.phase == model.ends[i].phase && s == Image(s, i, e)
      requires busy == Some(i) || (EndInv(e) && Settled(s))
      modifies this`reg, this`model
      ensures ValidBut(busy) && model == Put(old(model), i, e)
      ensures reg == old(reg).(mem := old(reg).mem[Loc(i) := s])
    {
      StoreRep(reg, model, None, i, s, e, busy);
      reg := reg.(mem := reg.mem[Loc(i) := s]);
      model := Put(model, i, e);
    }

    /** The same, and the socket is closed at once. */
    method StoreAndClose(i: Id, s: Sock, ghost e: End)
      requires Valid() && Allocated(model, i) && e.phase == model.ends[i].phase && s == Image(s, i, e)
      requires var c := Close(i, e, s.writeError).end; EndInv(c) && (c.phase.Draining? ==> s.writeOn && !e.phase.Smart?)
      modifies this
      ensures Valid() && online == old(online) && limit == old(limit)
      ensures var c := Close(i, e, s.writeError); model == Put(old(model), i, c.end) && out == old(out) + c.sent
    {
      PutPut(model, i, e, Close(i, e, s.writeError).end);
      StoreEnd(i, s, e, Some(i));
      CloseSocket(i);
    }

    /** The FDE_WRITE half of local_socket_event_func; true when the callback returns there. */
    method WriteHalf(i: Id, script: seq<WriteResult>) returns (finished: bool)
      requires Valid() && Allocated(model, i) && model.ends[i].queue != []
      modifies this
      ensures Valid() && online == old(online) && limit == old(limit)
      ensures var w := OnWritable(i, old(model.ends[i]), script);
              model == Put(old(model), i, w.end) && out == old(out) + w.sent && finished == w.finished
    {
      ghost var e, w := model.ends[i], OnWritable(i, model.ends[i], script);
      ghost var d := Drain(e.queue, script);
      ghost var e1 := e.(queue := d.queue, written := e.written + d.written);
      WritableEnd(i, e, script);
      assert MirrorsAt(reg.mem, model, i);
      var s := reg.mem[Loc(i)];
      var written, left, outcome := DrainQueue(s.queue, script);
      s := s.(queue := left, fd := s.fd + written);
      finished := !outcome.Done? || s.closing;
      if outcome.Blocked? {
        StoreEnd(i, s, e1, None);
      } else if finished {
        StoreAndClose(i, s.(writeError := outcome.Failed?), e1);
      } else {
        assert MirrorsAt(reg.mem, model, i);
        StoreEnd(i, s.(writeOn := false), e1, None);
        // remote_socket_ready on the peer, which is there because packets were queued
        out := out + [Okay(reg.mem[Loc(i)].id, reg.mem[s.peer.value].id)];
      }
    }

    /** `asocket::get_max_payload`. */
    method MaxPayload(i: Id) returns (max: nat)
      requires Valid() && Allocated(model, i)
      ensures max == ReadLimit(model.ends[i], limit)
    {
      assert MirrorsAt(reg.mem, model, i);
      var s := reg.mem[Loc(i)];
      max := MAX_PAYLOAD;
      if s.bound || (s.peer.Some? && reg.mem[s.peer.value].bound) {
        max := Min(max, limit);
      }
    }

    /** remote_socket_enqueue on the peer; its result 1 turns FDE_READ off. */
    method HandToRemote(i: Id, data: bytes, eof: bool)
      requires Valid() && Allocated(model, i) && model.ends[i].phase.Connected?
      modifies this
      ensures Valid() && online == old(online) && limit == old(limit)
      ensures var h := HandOver(i, old(model.ends[i]), data, eof);
              model == Put(old(model), i, h.end) && out == old(out) + h.sent
    {
      ghost var e := model.ends[i];
      ghost var e1 := e.(handed := e.handed + data, readOn := false, faked := e.faked + if e.readOn then 0 else 1);
      assert MirrorsAt(reg.mem, model, i);
      CloseEnd(i, e1, false);
      var s := reg.mem[Loc(i)];
      out := out + [Wrte(s.id, reg.mem[s.peer.value].id, data)];
      if eof {
        StoreAndClose(i, s.(readOn := false), e1);
      } else {
        StoreEnd(i, s.(readOn := false), e1, None);
      }
    }

    /** The smart socket stays, with what it has collected and perhaps a transport. */
    method KeepSmart(i: Id, buffer: bytes, bound: bool)
      requires Valid() && Allocated(model, i) && model.ends[i].phase.Smart?
      modifies this`reg, this`model
      ensures Valid() && model == Put(old(model), i, old(model.ends[i]).(phase := Smart(buffer, bound)))
    {
      ghost var e := model.ends[i].(phase := Smart(buffer, bound));
      assert MirrorsAt(reg.mem, model, i);
      var q := reg.mem[Loc(i)].peer.value;
      var r := reg.(mem := reg.mem[q := reg.mem[q].(buffer := buffer, bound := bound)]);
      PhaseRep(reg, model, i, r, e, None);
      reg, model := r, Put(model, i, e);
    }

    /** `connect_to_remote`: `fatal` when it ends the process. */
    method ConnectToRemote(id: Id, dest: bytes) returns (fatal: bool)
      modifies this`out
      ensures fatal <==> Oversized(dest, limit)
      ensures out == if fatal then old(out) else old(out) + [Open(id, dest)]
    {
      var max := Min(limit, MAX_PAYLOAD);
      fatal := max > 0 && |dest| + 1 > max - 1;
      if !fatal { out := out + [Open(id, dest)]; }
    }

    /** The end of smart_socket_enqueue: the local socket gets the transport and the *_notify handlers, sends OPEN, and the smart socket is freed. */
    method RouteClient(i: Id, service: bytes) returns (fatal: bool)
      requires Valid() && Allocated(model, i) && model.ends[i].phase.Smart?
      modifies this`reg, this`model, this`out
      ensures fatal <==> Oversized(service, limit)
      ensures !fatal ==> Valid() && model == Put(old(model), i, old(model.ends[i]).(phase := Opening, readOn := false))
      ensures !fatal ==> out == old(out) + [Open(i, service)]
    {
      ghost var e := model.ends[i].(phase := Opening, readOn := false);
      assert MirrorsAt(reg.mem, model, i);
      var s := reg.mem[Loc(i)];
      var q := s.peer.value;
      s := s.(notify := true, peer := None, bound := true, readOn := false);
      fatal := ConnectToRemote(s.id, service);
      if fatal { return; }
      var r := reg.(mem := reg.mem[Loc(i) := s] - {q});
      PhaseRep(reg, model, i, r, e, None);
      reg, model := r, Put(model, i, e);
    }

    /** The decoded request: host:transport binds the smart socket, a dismissed or unroutable one closes both sockets. */
    method AskSmart(i: Id, service: bytes, eof: bool, ev: Event) returns (fatal: bool)
      requires Valid() && Allocated(model, i) && model.ends[i].phase.Smart?
      modifies this
      ensures online == old(online) && limit == old(limit)
      ensures var h := Asked(i, old(model.ends[i]), service, eof, ev);
              && (fatal <==> Dies(h.sent, limit))
              && (!fatal ==> Valid() && model == Put(old(model), i, h.end) && out == old(out) + h.sent)
    {
      fatal := false;
      ghost var m, h := model, Asked(i, model.ends[i], service, eof, ev);
      assert MirrorsAt(reg.mem, model, i);
      var bound := reg.mem[reg.mem[Loc(i)].peer.value].bound;
      match ev.ask
      case Dismissed => CloseLive(i);
      case Switched(found) =>
        KeepSmart(i, [], bound || found);
        PutPut(m, i, model.ends[i], h.end);
        if eof || ev.forceEof {
          CloseLive(i);
        }
      case Routed(acquire) =>
        if !bound && !acquire {
          CloseLive(i);
        } else {
          fatal := RouteClient(i, service);
          if fatal { return; }
          PutPut(m, i, model.ends[i], h.end);
          if eof {
            CloseLive(i);
          }
        }
    }

    /** smart_socket_enqueue on the peer, with its payload limit. */
    method HandToSmart(i: Id, data: bytes, eof: bool, ev: Event, max: nat) returns (fatal: bool)
      requires Valid() && Allocated(model, i) && model.ends[i].phase.Smart?
      modifies this
      ensures online == old(online) && limit == old(limit)
      ensures var h := Route(i, old(model.ends[i]), data, eof, ev, max);
              && (fatal <==> Dies(h.sent, limit))
              && (!fatal ==> Valid() && model == Put(old(model), i, h.end) && out == old(out) + h.sent)
    {
      fatal := false;
      ghost var m, h := model, Route(i, model.ends[i], data, eof, ev, max);
      assert MirrorsAt(reg.mem, model, i);
      var peer := reg.mem[reg.mem[Loc(i)].peer.value];
      var verdict := Feed(peer.buffer, data, max);
      match verdict
      case Wait(buffer) =>
        KeepSmart(i, buffer, peer.bound);
        PutPut(m, i, model.ends[i], h.end);
        if eof || ev.forceEof {
          CloseLive(i);
        }
      case Reject => CloseLive(i);
      case Request(service) => fatal := AskSmart(i, service, eof, ev);
    }

    /** `s->close(s)` on a socket whose callback is not in the middle of a change. */
    method CloseLive(i: Id)
      requires Valid() && Allocated(model, i)
      modifies this
      ensures Valid() && online == old(online) && limit == old(limit)
      ensures var c := Close(i, old(model.ends[i]), false); model == Put(old(model), i, c.end) && out == old(out) + c.sent
    {
      assert MirrorsAt(reg.mem, model, i);
      CloseEnd(i, model.ends[i], false);
      CloseSocket(i);
    }

    /** The FDE_READ half of local_socket_event_func. */
    method ReadHalf(i: Id, ev: Event) returns (fatal: bool)
      requires Valid() && Allocated(model, i)
      modifies this
      ensures online == old(online) && limit == old(limit)
      ensures var r := OnReadable(i, old(model.ends[i]), ev, limit);
              && (fatal <==> Dies(r.sent, limit))
              && (!fatal ==> Valid() && model == Put(old(model), i, r.end) && out == old(out) + r.sent)
    {
      fatal := false;
      assert MirrorsAt(reg.mem, model, i);
      assert model.ends[i := model.ends[i]] == model.ends;
      var max := MaxPayload(i);
      var data, eof := ReadAvailable(max, ev.input);
      var s := reg.mem[Loc(i)];
      if data == [] || s.peer.None? {
        if eof || (max == 0 && ev.forceEof) {
          CloseLive(i);
        }
      } else if reg.mem[s.peer.value].kind.Remote? {
        HandToRemote(i, data, eof);
      } else {
        fatal := HandToSmart(i, data, eof, ev, max);
      }
    }

    /** The callback when FDE_WRITE is among the events. */
    method WriteThenRead(i: Id, ev: Event) returns (fatal: bool)
      requires Valid() && Deliverable(model, i, ev) && ev.writable
      modifies this
      ensures online == old(online) && limit == old(limit)
      ensures var s := OnEvent(i, old(model.ends[i]), ev, limit);
              && (fatal <==> Dies(s.sent, limit))
              && (!fatal ==> Valid() && model == Put(old(model), i, s.end) && out == old(out) + s.sent)
    {
      fatal := false;
      ghost var m, w := model, OnWritable(i, model.ends[i], ev.writes);
      EventHalves(i, model.ends[i], ev, limit);
      WritableEnd(i, model.ends[i], ev.writes);
      var finished := WriteHalf(i, ev.writes);
      if !finished && ev.readable {
        ghost var r := OnReadable(i, w.end, ev, limit);
        PutPut(m, i, w.end, r.end);
        fatal := ReadHalf(i, ev);
        assert old(out) + w.sent + r.sent == old(out) + (w.sent + r.sent);
      }
    }

    /** `local_socket_event_func`. */
    method EventFunc(i: Id, ev: Event) returns (fatal: bool)
      requires Valid() && Deliverable(model, i, ev)
      modifies this
      ensures online == old(online) && limit == old(limit)
      ensures var s := OnEvent(i, old(model.ends[i]), ev, limit);
              && (fatal <==> Dies(s.sent, limit))
              && (!fatal ==> Valid() && model == Put(old(model), i, s.end) && out == old(out) + s.sent)
    {
      fatal := false;
      assert model.ends[i := model.ends[i]] == model.ends;
      if ev.writable {
        fatal := WriteThenRead(i, ev);
      } else if ev.readable {
        fatal := ReadHalf(i, ev);
      }
    }

    /** `create_local_socket`, with the fields and the peer its caller then gives the new socket. */
    method CreateSocket(bound: bool, readOn: bool, peer: Option<Sock>, ghost e: End) returns (id: Id)
      requires Valid() && e == NewEnd(e.origin, e.phase, readOn) && EndInv(e) && Image(Blank(bound, readOn), reg.nextId, e).bound == bound
      requires e.phase.Smart? || e.phase.Connected? || (e.phase.Opening? && e.origin.Forward?)
      requires peer == if HasPeer(e) then Some(PeerImage(reg.nextId, e)) else None
      modifies this`reg, this`model
      ensures Valid() && model == Install(old(model), e) && id == old(model.nextId)
    {
      id := reg.nextId;
      var s := Blank(bound, readOn).(id := id, peer := if peer.Some? then Some(Peer(id)) else None);
      var mem := reg.mem[Loc(id) := s];
      if peer.Some? {
        mem := mem[Peer(id) := peer.value];
      }
      var r := Registry(mem, reg.live + [Loc(id)], reg.closing, id + 1);
      assert MirrorsAt(reg.mem, model, id);
      RepNew(reg, model, r, e);
      reg, model := r, Install(model, e);
    }

    /** The smart-socket listener accepts a client. */
    method AcceptClient()
      requires Valid()
      modifies this`reg, this`model
      ensures Valid() && model == Install(old(model), NewEnd(Client, Smart([], false), true))
    {
      assert Flat([]) == [];
      var _ := CreateSocket(false, true, Some(PeerSock(SmartPeer, false, 0, reg.nextId, [])), NewEnd(Client, Smart([], false), true));
    }

    /** A forwarding listener accepts a connection and asks for the remote service. */
    method AcceptForward(dest: bytes) returns (fatal: bool)
      requires Valid()
      modifies this`reg, this`model, this`out
      ensures fatal <==> Oversized(dest, limit)
      ensures Valid() && model == Install(old(model), NewEnd(Forward, Opening, false))
      ensures !fatal ==> out == old(out) + [Open(old(model.nextId), dest)]
    {
      assert Flat([]) == [];
      var id := CreateSocket(true, false, None, NewEnd(Forward, Opening, false));
      fatal := ConnectToRemote(id, dest);
    }

    /** The READY branch of handle_packet for a socket that was found. */
    method HandleReady(i: Id, src: Id)
      requires Valid() && Found(model, i, 0) && src != 0
      modifies this`reg, this`model
      ensures Valid()
      ensures var e := old(model.ends[i]);
              model == if e.phase.Opening? || e.phase == Connected(src) then Put(old(model), i, Ready(e, src)) else old(model)
    {
      ghost var e := Ready(model.ends[i], src);
      assert MirrorsAt(reg.mem, model, i);
      assert model.ends[i := model.ends[i]] == model.ends;
      var s := reg.mem[Loc(i)];
      if s.peer.None? {
        if s.notify {
          // local_socket_ready_notify
          s := s.(notify := false, status := SaidOkay);
        }
        s := s.(peer := Some(Peer(i)), readOn := true);
        var r := reg.(mem := reg.mem[Loc(i) := s][Peer(i) := PeerSock(Remote, true, src, i, [])]);
        PhaseRep(reg, model, i, r, e, None);
        reg, model := r, Put(model, i, e);
      } else if reg.mem[s.peer.value].id == src {
        StoreEnd(i, s.(readOn := true), e, None);
      }
    }

    /** `handle_packet` on a stream command; `accept` says whether the service could be started. */
    method HandlePacket(p: Packet, accept: bool, script: seq<WriteResult>)
      requires Valid()
      modifies this
      ensures Valid() && online == old(online) && limit == old(limit)
      ensures var h := Handle(old(model), p, accept, script); model == h.ep && out == old(out) + h.sent
    {
      if !online { return; }
      match p
      case Open(src, _) =>
        if src != 0 {
          if !accept {
            out := out + [Clse(0, src)];
          } else {
            assert Flat([]) == [];
            var id := CreateSocket(false, true, Some(PeerSock(Remote, true, src, reg.nextId, [])), NewEnd(Service(src), Connected(src), true));
            out := out + [Okay(id, src)];
          }
        }
      case Okay(src, dst) =>
        if src != 0 && dst != 0 {
          var s := FindLocal(dst, 0);
          if s.Some? {
            HandleReady(dst, src);
          } else {
            out := out + [Clse(dst, src)];
          }
        }
      case Clse(src, dst) =>
        if dst != 0 {
          var s := FindLocal(dst, src);
          if s.Some? {
            HandleClose(dst, src);
          }
        }
      case Wrte(src, dst, data) =>
        if src != 0 && dst != 0 {
          var s := FindLocal(dst, src);
          if s.Some? {
            var ready := LocalEnqueue(dst, data, script);
            if ready {
              out := out + [Okay(reg.mem[Loc(dst)].id, src)];
            }
          }
        }
    }

    /** The CLOSE branch of handle_packet for a socket that was found: CLOSE(0, id) needs a peer on this transport, if any. */
    method HandleClose(i: Id, src: Id)
      requires Valid() && Found(model, i, src)
      modifies this
      ensures Valid() && online == old(online) && limit == old(limit)
      ensures var c := Close(i, old(model.ends[i]), false);
              if !OnTransport(old(model.ends[i])) then model == old(model) && out == old(out)
              else model == Put(old(model), i, c.end) && out == old(out) + c.sent
    {
      assert MirrorsAt(reg.mem, model, i);
      var s := reg.mem[Loc(i)];
      if src != 0 || s.peer.None? || reg.mem[s.peer.value].bound {
        CloseLive(i);
      }
    }

    /** One scan of close_all_sockets. */
    method FindFirst() returns (r: Option<Id>)
      requires Valid()
      ensures r.None? ==> forall i :: i in model.ends ==> !OnTransport(model.ends[i])
      ensures r.Some? ==> IsFirst(model, r.value) && r.value < model.nextId
    {
      PointerFacts(reg, model);
      ListFacts(reg, model);
      var k := FirstOnTransport(reg.live, reg.mem);
      FirstLive(reg, model, k);
      return if k < |reg.live| then Some(reg.live[k].n) else None;
    }

    /** Part of the way through close_all_sockets: `sent` is sent, and `total` is where it ends. */
    ghost predicate Closing(was: seq<Packet>, next: Id, sent: seq<Packet>, total: EndpointStep)
      reads this
    {
      Valid() && next <= model.nextId && out == was + sent && ClosesTo(model, next, sent, total)
    }

    method CloseNext(i: Id, ghost was: seq<Packet>, ghost next: Id, ghost sent: seq<Packet>, ghost total: EndpointStep)
      returns (ghost sent': seq<Packet>)
      requires Closing(was, next, sent, total) && IsFirst(model, i) && next <= i < model.nextId
      modifies this
      ensures Closing(was, i + 1, sent', total) && online == old(online) && limit == old(limit) && model.nextId == old(model.nextId)
      ensures forall j :: IsFirst(model, j) ==> i < j
    {
      CloseFromFirst(model, next, sent, total, i);
      sent' := sent + Close(i, model.ends[i], false).sent;
      CloseLive(i);
    }

    /** `close_all_sockets`: closing changes the list, so the scan restarts after each one. */
    method CloseAll()
      requires Valid()
      modifies this
      ensures Valid() && online == old(online) && limit == old(limit)
      ensures var c := CloseFrom(old(model), 1); model == c.ep && out == old(out) + c.sent
    {
      ghost var next: Id, sent: seq<Packet>, total := 1, [], CloseFrom(model, 1);
      var first: Option<Id> := FindFirst();
      while first.Some?
        invariant Closing(old(out), next, sent, total) && online == old(online) && limit == old(limit)
        invariant first.None? ==> forall i :: i in model.ends ==> !OnTransport(model.ends[i])
        invariant first.Some? ==> IsFirst(model, first.value) && next <= first.value < model.nextId
        decreases model.nextId - next
      {
        sent := CloseNext(first.value, old(out), next, sent, total);
        next := first.value + 1;
        first := FindFirst();
      }
      SkipDead(model, next, model.nextId);
    }

    /** `handle_offline`, as far as sockets are concerned. */
    method GoOffline()
      requires Valid()
      modifies this
      ensures Valid()
      ensures var c := CloseFrom(old(model), 1); model == c.ep.(online := false) && out == old(out) + c.sent
    {
      CloseAll();
      RepOnline(reg, model, false);
      online := false;
      model := model.(online := false);
    }
  }
}
