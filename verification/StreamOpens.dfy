/**
 How long an OPEN can be. connect_to_remote ends the process over a destination that does not fit
 the transport; here is exactly when a callback does that, and that no OPEN in flight is too long.
 */
module StreamOpens {
  import opened Base
  import opened Descriptors
  import opened SmartSocket
  import opened Streams
  import opened StreamInvariant
  import opened StreamRuns
  import opened StreamTheorems

  /** A decoded request took its header and itself within the limit it was decoded under. */
  lemma RequestFits(buffer: bytes, data: bytes, max: nat)
    requires |data| <= max
    ensures var v := Feed(buffer, data, max); v.Request? ==> |v.service| + 4 <= max
  {
    if buffer == [] { assert buffer + data == data; }
  }

  /** What a client without a transport asks for in this event, if it is routed through one acquired on the spot. */
  function Acquiring(e: End, ev: Event): Option<bytes>
  {
    var r := Pull(MAX_PAYLOAD, ev.input);
    if e.phase.Smart? && !e.phase.bound && ev.readable && ev.ask == Routed(true) && r.data != [] then
      var v := Feed(e.phase.buffer, r.data, MAX_PAYLOAD);
      if v.Request? then Some(v.service) else None
    else None
  }

  lemma RouteSends(id: Id, e: End, data: bytes, eof: bool, ev: Event, max: nat)
    requires e.phase.Smart?
    ensures var v := Feed(e.phase.buffer, data, max);
            Route(id, e, data, eof, ev, max).sent ==
            if v.Request? && ev.ask.Routed? && (e.phase.bound || ev.ask.acquire) then [Open(id, v.service)] else []
  {
  }

  lemma SmartSends(id: Id, e: End, ev: Event, limit: nat)
    requires e.phase.Smart? && !ev.writable
    ensures var max := ReadLimit(e, limit); var r := Pull(max, ev.input);
            OnEvent(id, e, ev, limit).sent ==
            if ev.readable && r.data != [] then Route(id, e, r.data, r.eof, ev, max).sent else []
  {
  }

  /**
   A callback ends the process exactly when it routes a client that had no transport, so that its
   request was collected without a limit, and the transport it acquires is too narrow for it. A
   client bound by host:transport never does that.
   */
  lemma DiesExactlyWhen(id: Id, e: End, ev: Event, limit: nat)
    requires EndInv(e) && !e.phase.Closed? && (ev.writable ==> e.queue != [])
    ensures Dies(OnEvent(id, e, ev, limit).sent, limit) <==>
            Acquiring(e, ev).Some? && Oversized(Acquiring(e, ev).value, limit)
  {
    if e.phase.Smart? {
      var max := ReadLimit(e, limit);
      var r := Pull(max, ev.input);
      SmartSends(id, e, ev, limit);
      RouteSends(id, e, r.data, r.eof, ev, max);
      RequestFits(e.phase.buffer, r.data, max);
    } else {
      NoOpenUnlessSmart(id, e, ev, limit);
    }
  }

  lemma NoOpenUnlessSmart(id: Id, e: End, ev: Event, limit: nat)
    requires !e.phase.Smart?
    ensures forall p :: p in OnEvent(id, e, ev, limit).sent ==> !p.Open?
  {
  }

  /** A forwarded connection is opened exactly when the transport is online and its destination fits with a NUL and one byte to spare. */
  lemma ForwardOpensExactlyWhen(w: World, dest: bytes)
    ensures var w' := StepX(w, AcceptForward(dest)); var max := Min(w.x.limit, MAX_PAYLOAD);
            && (w' != w <==> w.x.online && (max == 0 || |dest| + 2 <= max))
            && (w' != w ==> w'.xy == w.xy + [Open(w.x.nextId, dest)] && w'.x == Install(w.x, NewEnd(Forward, Opening, false)))
  {
  }

  // ----- every run -----

  predicate NoOpens(packets: seq<Packet>)
  {
    forall p :: p in packets ==> !p.Open?
  }

  predicate OpensFitIn(packets: seq<Packet>, limit: nat)
  {
    forall p :: p in packets && p.Open? ==> !Oversized(p.dest, limit)
  }

  lemma EventOpens(id: Id, e: End, ev: Event, limit: nat)
    requires EndInv(e) && !e.phase.Closed? && (ev.writable ==> e.queue != [])
    requires !Dies(OnEvent(id, e, ev, limit).sent, limit)
    ensures OpensFitIn(OnEvent(id, e, ev, limit).sent, limit)
  {
    if !e.phase.Smart? { NoOpenUnlessSmart(id, e, ev, limit); }
  }

  lemma HandleNoOpens(ep: Endpoint, p: Packet, accept: bool, script: seq<WriteResult>)
    ensures NoOpens(Handle(ep, p, accept, script).sent)
  {
  }

  lemma {:induction false} CloseFromNoOpens(ep: Endpoint, id: Id)
    ensures NoOpens(CloseFrom(ep, id).sent)
    decreases ep.nextId - id
  {
    if id < ep.nextId {
      if id in ep.ends && OnTransport(ep.ends[id]) {
        CloseFromNoOpens(Put(ep, id, Close(id, ep.ends[id], false).end), id + 1);
      } else {
        CloseFromNoOpens(ep, id + 1);
      }
    }
  }

  /** What a step of `x` puts in its channel. */
  lemma StepXSends(w: World, a: Action) returns (sent: seq<Packet>)
    requires Inv(w)
    ensures StepX(w, a).xy == w.xy + sent && OpensFitIn(sent, w.x.limit)
  {
    sent := [];
    match a
    case AcceptClient =>
    case AcceptForward(dest) =>
      if w.x.online && !Oversized(dest, w.x.limit) { sent := [Open(w.x.nextId, dest)]; }
    case Dispatch(id, ev) =>
      if Happens(w.x, id, ev) {
        EventOpens(id, w.x.ends[id], ev, w.x.limit);
        sent := OnEvent(id, w.x.ends[id], ev, w.x.limit).sent;
      }
    case Receive(accept, script) =>
      if w.yx != [] {
        HandleNoOpens(w.x, w.yx[0], accept, script);
        sent := Handle(w.x, w.yx[0], accept, script).sent;
      }
    case GoOffline =>
      CloseFromNoOpens(w.x, 1);
      sent := CloseFrom(w.x, 1).sent;
  }

  lemma StepXOpens(w: World, a: Action)
    requires Inv(w) && OpensFitIn(w.xy, w.x.limit) && OpensFitIn(w.yx, w.y.limit)
    ensures var w' := StepX(w, a); OpensFitIn(w'.xy, w'.x.limit) && OpensFitIn(w'.yx, w'.y.limit)
  {
    var w' := StepX(w, a);
    var sent := StepXSends(w, a);
    StepLimit(w, a);
    assert w'.yx == w.yx || (w.yx != [] && w'.yx == w.yx[1..]);
  }

  lemma {:induction false} RunOpens(w: World, turns: seq<Turn>)
    requires Inv(w) && OpensFitIn(w.xy, w.x.limit) && OpensFitIn(w.yx, w.y.limit)
    ensures var w' := Run(w, turns); OpensFitIn(w'.xy, w'.x.limit) && OpensFitIn(w'.yx, w'.y.limit)
    decreases |turns|
  {
    if turns != [] {
      StepInv(w, turns[0]);
      SwapInv(w);
      if turns[0].host { StepXOpens(w, turns[0].action); } else { StepXOpens(Swap(w), turns[0].action); }
      RunOpens(Step(w, turns[0]), turns[1..]);
    }
  }

  /** In every run, every OPEN in flight, either way, fits the negotiated limit with its NUL. */
  lemma OpensFit(limit: nat, turns: seq<Turn>, p: Packet)
    requires var w := Run(Start(limit), turns); p in w.xy || p in w.yx
    requires p.Open?
    ensures limit == 0 || |p.dest| + 1 < limit
  {
    StartInv(limit);
    RunOpens(Start(limit), turns);
    LimitKept(Start(limit), turns);
  }
}
