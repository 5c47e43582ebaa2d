/**
 The protocol falls silent. A weight on packets in flight, queued packets and live sockets
 pays for every packet handled and every queue drained; only a new connection or a read
 from a descriptor adds weight.
 */
module StreamSilence {
  import opened Base
  import opened Descriptors
  import opened SmartSocket
  import opened Streams
  import opened StreamInvariant
  import opened StreamRuns

  function PacketWeight(p: Packet): nat
  {
    match p
    case Open(_, _) => 4
    case Wrte(_, _, _) => 4
    case Okay(_, _) => 2
    case Clse(_, _) => 1
  }

  function ChannelWeight(ch: seq<Packet>): nat
  {
    if ch == [] then 0 else PacketWeight(ch[0]) + ChannelWeight(ch[1..])
  }

  function EndWeight(e: End): nat
  {
    (if Live(e) || e.phase.Smart? then 1 else 0) + 3 * |e.queue|
  }

  /** Over the ids below `n`. */
  function EndsWeight(ends: map<Id, End>, n: nat): nat
  {
    if n == 0 then 0
    else EndsWeight(ends, n - 1) + if n - 1 in ends then EndWeight(ends[n - 1]) else 0
  }

  function EndpointWeight(ep: Endpoint): nat
  {
    EndsWeight(ep.ends, ep.nextId)
  }

  function Potential(w: World): nat
  {
    EndpointWeight(w.x) + EndpointWeight(w.y) + ChannelWeight(w.xy) + ChannelWeight(w.yx)
  }

  /** The most weight a step may add: accepting a connection, or reading a descriptor. */
  function Inflow(a: Action): nat
  {
    match a
    case AcceptClient => 1
    case AcceptForward(_) => 5
    case Dispatch(_, ev) => if ev.readable then 4 else 0
    case Receive(_, _) => 0
    case GoOffline => 0
  }

  /** One for each packet handled and each queue drained to its end. */
  function Work(w: World, a: Action): nat
  {
    match a
    case Receive(_, _) => if w.yx == [] then 0 else 1
    case Dispatch(id, ev) =>
      if Happens(w.x, id, ev) && ev.writable
         && Drain(w.x.ends[id].queue, ev.writes).outcome.Done? then 1 else 0
    case _ => 0
  }

  // ----- sums -----

  lemma {:induction false} ChannelWeightAppend(a: seq<Packet>, b: seq<Packet>)
    ensures ChannelWeight(a + b) == ChannelWeight(a) + ChannelWeight(b)
  {
    if a == [] {
      assert a + b == b;
    } else {
      assert (a + b)[1..] == a[1..] + b;
      ChannelWeightAppend(a[1..], b);
    }
  }

  lemma ChannelWeightOne(p: Packet)
    ensures ChannelWeight([p]) == PacketWeight(p)
  {
    assert [p][1..] == [];
  }

  lemma {:induction false} EndsWeightPut(ends: map<Id, End>, id: Id, e: End, n: nat)
    requires id in ends
    ensures EndsWeight(ends[id := e], n) ==
            EndsWeight(ends, n) + if id < n then EndWeight(e) - EndWeight(ends[id]) else 0
  {
    if n > 0 { EndsWeightPut(ends, id, e, n - 1); }
  }

  lemma {:induction false} EndsWeightNew(ends: map<Id, End>, id: Id, e: End, n: nat)
    requires id !in ends && n <= id
    ensures EndsWeight(ends[id := e], n) == EndsWeight(ends, n)
  {
    if n > 0 { EndsWeightNew(ends, id, e, n - 1); }
  }

  // ----- one end -----

  lemma CloseWeight(id: Id, e: End, writeError: bool)
    ensures var s := Close(id, e, writeError); EndWeight(s.end) + ChannelWeight(s.sent) <= EndWeight(e)
  {
    var s := Close(id, e, writeError);
    if s.sent != [] { ChannelWeightOne(s.sent[0]); }
  }

  /** Handling a WRITE: what it leaves behind is lighter than the packet was. */
  lemma EnqueueWeight(id: Id, e: End, data: bytes, script: seq<WriteResult>)
    requires e.phase.Connected?
    ensures var s := Enqueue(id, e, data, script); EndWeight(s.end) + ChannelWeight(s.sent) <= EndWeight(e) + 3
  {
    var s := Enqueue(id, e, data, script);
    if s.sent != [] { ChannelWeightOne(s.sent[0]); }
  }

  lemma WritableWeight(id: Id, e: End, script: seq<WriteResult>)
    requires e.queue != []
    ensures var s := OnWritable(id, e, script);
            EndWeight(s.end) + ChannelWeight(s.sent) + (if Drain(e.queue, script).outcome.Done? then 1 else 0) <= EndWeight(e)
  {
    var d := Drain(e.queue, script);
    var e1 := e.(queue := d.queue, written := e.written + d.written);
    CloseWeight(id, e1, true);
    CloseWeight(id, e1, false);
    if e.phase.Connected? { ChannelWeightOne(Okay(id, e.phase.peer)); }
  }

  lemma ReadableWeight(id: Id, e: End, ev: Event, limit: nat)
    ensures var s := OnReadable(id, e, ev, limit); EndWeight(s.end) + ChannelWeight(s.sent) <= EndWeight(e) + 4
  {
    CloseWeight(id, e, false);
    var r := Pull(ReadLimit(e, limit), ev.input);
    if r.data != [] && e.phase.Connected? {
      var e1 := e.(handed := e.handed + r.data, readOn := false, faked := e.faked + if e.readOn then 0 else 1);
      CloseWeight(id, e1, false);
      ChannelWeightOne(Wrte(id, e.phase.peer, r.data));
      ChannelWeightAppend([Wrte(id, e.phase.peer, r.data)], Close(id, e1, false).sent);
    } else if r.data != [] && e.phase.Smart? {
      var v := Feed(e.phase.buffer, r.data, ReadLimit(e, limit));
      if v.Wait? { CloseWeight(id, e.(phase := Smart(v.buffer, e.phase.bound)), false); }
      if v.Request? { AskedWeight(id, e, v.service, r.eof, ev); }
    }
  }

  lemma AskedWeight(id: Id, e: End, service: bytes, eof: bool, ev: Event)
    requires e.phase.Smart?
    ensures var s := Asked(id, e, service, eof, ev); EndWeight(s.end) + ChannelWeight(s.sent) <= EndWeight(e) + 4
  {
    CloseWeight(id, e, false);
    match ev.ask
    case Dismissed =>
    case Switched(found) => CloseWeight(id, e.(phase := Smart([], e.phase.bound || found)), false);
    case Routed(_) =>
      CloseWeight(id, e.(phase := Opening, readOn := false), false);
      ChannelWeightOne(Open(id, service));
  }

  lemma EventWeight(id: Id, e: End, ev: Event, limit: nat)
    requires ev.writable ==> e.queue != []
    ensures var s := OnEvent(id, e, ev, limit);
            EndWeight(s.end) + ChannelWeight(s.sent)
              + (if ev.writable && Drain(e.queue, ev.writes).outcome.Done? then 1 else 0)
            <= EndWeight(e) + if ev.readable then 4 else 0
  {
    if ev.writable {
      var w := OnWritable(id, e, ev.writes);
      WritableWeight(id, e, ev.writes);
      if !w.finished && ev.readable {
        ReadableWeight(id, w.end, ev, limit);
        ChannelWeightAppend(w.sent, OnReadable(id, w.end, ev, limit).sent);
      }
    } else if ev.readable {
      ReadableWeight(id, e, ev, limit);
    }
  }

  // ----- one endpoint -----

  predicate IdsBelow(ep: Endpoint)
  {
    forall id :: id in ep.ends ==> id < ep.nextId
  }

  lemma UpdateWeight(ep: Endpoint, id: Id, s: EndStep)
    requires IdsBelow(ep) && id in ep.ends
    ensures EndpointWeight(Update(ep, id, s).ep) == EndpointWeight(ep) + EndWeight(s.end) - EndWeight(ep.ends[id])
  {
    EndsWeightPut(ep.ends, id, s.end, ep.nextId);
  }

  lemma InstallWeight(ep: Endpoint, e: End)
    requires IdsBelow(ep)
    ensures EndpointWeight(Install(ep, e)) == EndpointWeight(ep) + EndWeight(e)
  {
    assert ep.nextId !in ep.ends;
    EndsWeightNew(ep.ends, ep.nextId, e, ep.nextId);
  }

  /** Handling any packet leaves strictly less weight than the packet carried. */
  lemma HandleWeight(ep: Endpoint, p: Packet, accept: bool, script: seq<WriteResult>)
    requires IdsBelow(ep)
    ensures var s := Handle(ep, p, accept, script);
            EndpointWeight(s.ep) + ChannelWeight(s.sent) + 1 <= EndpointWeight(ep) + PacketWeight(p)
  {
    var s := Handle(ep, p, accept, script);
    if ep.online {
      match p
      case Open(src, _) =>
        if src != 0 && accept { InstallWeight(ep, NewEnd(Service(src), Connected(src), true)); }
        if s.sent != [] { ChannelWeightOne(s.sent[0]); }
      case Okay(src, dst) =>
        if s.sent != [] { ChannelWeightOne(s.sent[0]); }
        if dst in ep.ends { UpdateWeight(ep, dst, EndStep(Ready(ep.ends[dst], src), [])); }
      case Clse(src, dst) =>
        if dst in ep.ends {
          CloseWeight(dst, ep.ends[dst], false);
          UpdateWeight(ep, dst, Close(dst, ep.ends[dst], false));
        }
      case Wrte(src, dst, data) =>
        if src != 0 && Found(ep, dst, src) {
          EnqueueWeight(dst, ep.ends[dst], data, script);
          UpdateWeight(ep, dst, Enqueue(dst, ep.ends[dst], data, script));
        }
    }
  }

  lemma {:induction false} CloseFromWeight(ep: Endpoint, id: Id)
    requires IdsBelow(ep)
    ensures var s := CloseFrom(ep, id);
            IdsBelow(s.ep) && s.ep.nextId == ep.nextId && EndpointWeight(s.ep) + ChannelWeight(s.sent) <= EndpointWeight(ep)
    decreases ep.nextId - id
  {
    if id < ep.nextId {
      if id in ep.ends && OnTransport(ep.ends[id]) {
        var c := Close(id, ep.ends[id], false);
        CloseWeight(id, ep.ends[id], false);
        UpdateWeight(ep, id, c);
        var ep1 := Update(ep, id, c).ep;
        CloseFromWeight(ep1, id + 1);
        ChannelWeightAppend(c.sent, CloseFrom(ep1, id + 1).sent);
      } else {
        CloseFromWeight(ep, id + 1);
      }
    }
  }

  // ----- every run -----

  lemma StepXWeight(w: World, a: Action)
    requires IdsBelow(w.x)
    ensures Potential(StepX(w, a)) + Work(w, a) <= Potential(w) + Inflow(a)
  {
    match a
    case AcceptClient => InstallWeight(w.x, NewEnd(Client, Smart([], false), true));
    case AcceptForward(dest) =>
      InstallWeight(w.x, NewEnd(Forward, Opening, false));
      ChannelWeightOne(Open(w.x.nextId, dest));
      ChannelWeightAppend(w.xy, [Open(w.x.nextId, dest)]);
    case Dispatch(id, ev) =>
      if Happens(w.x, id, ev) {
        var s := OnEvent(id, w.x.ends[id], ev, w.x.limit);
        EventWeight(id, w.x.ends[id], ev, w.x.limit);
        UpdateWeight(w.x, id, s);
        ChannelWeightAppend(w.xy, s.sent);
      }
    case Receive(accept, script) =>
      if w.yx != [] {
        HandleWeight(w.x, w.yx[0], accept, script);
        ChannelWeightAppend(w.xy, Handle(w.x, w.yx[0], accept, script).sent);
      }
    case GoOffline =>
      CloseFromWeight(w.x, 1);
      ChannelWeightAppend(w.xy, CloseFrom(w.x, 1).sent);
  }

  function TotalInflow(turns: seq<Turn>): nat
  {
    if turns == [] then 0 else Inflow(turns[0].action) + TotalInflow(turns[1..])
  }

  function TotalWork(w: World, turns: seq<Turn>): nat
    decreases |turns|
  {
    if turns == [] then 0
    else (if turns[0].host then Work(w, turns[0].action) else Work(Swap(w), turns[0].action))
         + TotalWork(Step(w, turns[0]), turns[1..])
  }

  /**
   In every run, the packets handled and queues drained are paid for by the weight at the
   start and by what new connections and reads bring in.
   */
  lemma {:induction false} WorkIsBounded(w: World, turns: seq<Turn>)
    requires Inv(w)
    ensures TotalWork(w, turns) + Potential(Run(w, turns)) <= Potential(w) + TotalInflow(turns)
    decreases |turns|
  {
    if turns != [] {
      assert IdsBelow(w.x) && IdsBelow(w.y);
      if turns[0].host { StepXWeight(w, turns[0].action); } else { StepXWeight(Swap(w), turns[0].action); }
      StepInv(w, turns[0]);
      WorkIsBounded(Step(w, turns[0]), turns[1..]);
    }
  }

  /** With no new connections and no reads, the endpoints exchange at most `Potential(w)` more packets. */
  lemma FallsSilent(w: World, turns: seq<Turn>)
    requires Inv(w)
    requires forall i :: 0 <= i < |turns| ==> Inflow(turns[i].action) == 0
    ensures TotalWork(w, turns) <= Potential(w)
  {
    NoInflow(turns);
    WorkIsBounded(w, turns);
  }

  lemma {:induction false} NoInflow(turns: seq<Turn>)
    requires forall i :: 0 <= i < |turns| ==> Inflow(turns[i].action) == 0
    ensures TotalInflow(turns) == 0
  {
    if turns != [] { NoInflow(turns[1..]); }
  }
}
