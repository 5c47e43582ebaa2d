/**
 When a socket closes, keeps packets queued or asks for more, said in terms of what the kernel
 answered; and what a client that is still opening is told when that is over.
 */
module StreamCloses {
  import opened Base
  import opened Descriptors
  import opened SmartSocket
  import opened Streams
  import opened StreamInvariant
  import opened StreamPairs
  import opened StreamRuns
  import opened StreamTheorems

  /** The write half runs into a failed write. */
  predicate WritingFails(e: End, ev: Event)
  {
    ev.writable && QueueFails(e.queue, ev.writes)
  }

  /** The write half does not get to the end of the queue, so the callback returns before it reads. */
  predicate WritingBlocks(e: End, ev: Event)
  {
    ev.writable && QueueBlocks(e.queue, ev.writes)
  }

  lemma ReadClosesExactlyWhen(id: Id, e: End, ev: Event, limit: nat)
    requires EndInv(e) && (e.phase.Connected? || e.phase.Opening? || e.phase.Draining?)
    ensures var e' := OnReadable(id, e, ev, limit).end;
            if EndsReading(e, ev, limit) then !Live(e') && (e.phase.Draining? ==> e'.phase.Closed?) else e'.phase == e.phase
  {
    PullExactly(ReadLimit(e, limit), ev.input);
  }

  /**
   A callback closes a connected socket exactly when a write failed, or when it got to reading and
   met end of file. EAGAIN, on either side, closes nothing.
   */
  lemma EventClosesExactlyWhen(id: Id, e: End, ev: Event, limit: nat)
    requires EndInv(e) && e.phase.Connected? && (ev.writable ==> e.queue != [])
    ensures var e' := OnEvent(id, e, ev, limit).end;
            && (e'.phase == e.phase || !Live(e'))
            && (!Live(e') <==> WritingFails(e, ev) || (ev.readable && !WritingBlocks(e, ev) && EndsReading(e, ev, limit)))
  {
    DrainExactly(e.queue, ev.writes);
    if ev.writable {
      WritableEnd(id, e, ev.writes);
      var w := OnWritable(id, e, ev.writes);
      if !w.finished && ev.readable { ReadClosesExactlyWhen(id, w.end, ev, limit); }
    } else if ev.readable {
      ReadClosesExactlyWhen(id, e, ev, limit);
    }
  }

  /** A callback frees a socket on the closing list exactly when its queue is written or fails, or at end of file without a write. */
  lemma EventFreesExactlyWhen(id: Id, e: End, ev: Event, limit: nat)
    requires EndInv(e) && e.phase.Draining? && (ev.writable ==> e.queue != [])
    ensures var e' := OnEvent(id, e, ev, limit).end;
            && (e'.phase.Draining? || e'.phase.Closed?)
            && (e'.phase.Closed? <==> if ev.writable then !WritingBlocks(e, ev) else ev.readable && EndsReading(e, ev, limit))
  {
    DrainExactly(e.queue, ev.writes);
    if !ev.writable && ev.readable { ReadClosesExactlyWhen(id, e, ev, limit); }
  }

  /**
   A payload for a connected socket: behind queued packets it is queued; otherwise what the
   descriptor does not take before EAGAIN is queued, all of it taken is answered with READY, and a
   failed write closes the socket.
   */
  lemma EnqueueExactly(id: Id, e: End, data: bytes, script: seq<WriteResult>)
    requires EndInv(e) && e.phase.Connected?
    ensures var s := Enqueue(id, e, data, script);
            && (e.queue != [] ==> s.end.phase == e.phase && s.end.queue == e.queue + [data] && s.sent == [])
            && (e.queue == [] && WriteBlocks(data, script) ==> s.end.phase == e.phase && |s.end.queue| == 1 && s.sent == [])
            && (e.queue == [] && WriteFails(data, script) ==> s.end.phase.Closed? && s.sent == [Clse(id, e.phase.peer)])
            && (e.queue == [] && !WriteBlocks(data, script) && !WriteFails(data, script) ==>
                  s.end.phase == e.phase && s.end.queue == [] && s.end.written == e.written + data && s.sent == [Okay(id, e.phase.peer)])
            && (forall n :: 0 <= n <= |script| && e.queue == [] && BlocksAt(data, script, n) ==> s.end.queue == [data[TakenBy(script, n)..]])
  {
    PushExactly(data, script);
    assert data[..|data|] == data;
  }

  /** What has come in is an incomplete request, or host:transport. */
  predicate KeepsAsking(e: End, ev: Event, max: nat)
    requires e.phase.Smart?
  {
    var v := Feed(e.phase.buffer, Brought(ev.input)[..Min(max, |Brought(ev.input)|)], max);
    v.Wait? || (v.Request? && ev.ask.Switched?)
  }

  /**
   At end of file a client at the smart-socket stage is gone; while its request is incomplete, or
   when it was host:transport, it goes exactly then, or when forced to.
   */
  lemma SmartClosesExactlyWhen(id: Id, e: End, ev: Event, limit: nat)
    requires EndInv(e) && e.phase.Smart? && ev.readable && !ev.writable
    ensures var e' := OnEvent(id, e, ev, limit).end; var max := ReadLimit(e, limit);
            && (EndsReading(e, ev, limit) ==> e'.phase.Closed?)
            && (max > 0 && Brought(ev.input) != [] && KeepsAsking(e, ev, max) ==>
                  (e'.phase.Closed? <==> ReadEnds(max, ev.input) || ev.forceEof))
            && (!EndsReading(e, ev, limit) && Brought(ev.input) == [] ==> e' == e)
  {
    PullExactly(ReadLimit(e, limit), ev.input);
  }

  /**
   A packet that does not come from the peer of the connected socket it names changes nothing; nor
   does an OPEN, READY or WRITE with a zero id, or a CLOSE for id 0.
   */
  lemma StraysChangeNothing(ep: Endpoint, p: Packet, accept: bool, script: seq<WriteResult>)
    requires (!p.Open? && p.dst in ep.ends && p.src != 0 && ep.ends[p.dst].phase.Connected? && ep.ends[p.dst].phase.peer != p.src)
             || (!p.Clse? && p.src == 0) || (!p.Open? && p.dst == 0)
    ensures Handle(ep, p, accept, script) == EndpointStep(ep, [])
  {
  }

  // ----- a client that is opening -----

  /** A client that stops waiting for the answer to its OPEN reads OKAY if it is connected, and FAIL if not. */
  predicate Told(e: End, e': End)
  {
    e.origin.Client? && e.phase.Opening? && !e'.phase.Opening? ==>
      e'.status == if e'.phase.Connected? then SaidOkay else SaidFail
  }

  lemma EventTells(id: Id, e: End, ev: Event, limit: nat)
    requires EndInv(e) && (ev.writable ==> e.queue != [])
    ensures Told(e, OnEvent(id, e, ev, limit).end)
  {
  }

  lemma {:induction false} CloseFromTells(ep: Endpoint, id: Id, a: Id)
    requires a in ep.ends
    ensures a in CloseFrom(ep, id).ep.ends && Told(ep.ends[a], CloseFrom(ep, id).ep.ends[a])
    ensures ep.ends[a].phase.Closed? || ep.ends[a].phase.Draining? ==> CloseFrom(ep, id).ep.ends[a] == ep.ends[a]
    decreases ep.nextId - id
  {
    if id < ep.nextId {
      if id in ep.ends && OnTransport(ep.ends[id]) {
        var ep1 := Put(ep, id, Close(id, ep.ends[id], false).end);
        CloseFromTells(ep1, id + 1, a);
      } else {
        CloseFromTells(ep, id + 1, a);
      }
    }
  }

  lemma StepXTells(w: World, t: Action, a: Id)
    requires Inv(w) && a in w.x.ends
    ensures a in StepX(w, t).x.ends && Told(w.x.ends[a], StepX(w, t).x.ends[a])
  {
    match t
    case Dispatch(id, ev) => if Happens(w.x, id, ev) && id == a { EventTells(id, w.x.ends[id], ev, w.x.limit); }
    case GoOffline => CloseFromTells(w.x, 1, a);
    case _ =>
  }

  /** In every run, no client's wait for an answer ends without one. */
  lemma EveryClientIsTold(limit: nat, turns: seq<Turn>, t: Turn, a: Id)
    ensures var w := Run(Start(limit), turns); var w' := Step(w, t);
            && (a in w.x.ends ==> a in w'.x.ends && Told(w.x.ends[a], w'.x.ends[a]))
            && (a in w.y.ends ==> a in w'.y.ends && Told(w.y.ends[a], w'.y.ends[a]))
  {
    var w := Run(Start(limit), turns);
    StartInv(limit);
    RunInv(Start(limit), turns);
    SwapInv(w);
    StepLimit(w, t.action);
    StepLimit(Swap(w), t.action);
    if t.host && a in w.x.ends { StepXTells(w, t.action, a); }
    if !t.host && a in w.y.ends { StepXTells(Swap(w), t.action, a); }
  }
}
