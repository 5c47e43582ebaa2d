/**
 Each transition of one end keeps that end's own invariant, and keeps the invariant of the
 pair it forms with the end across the transport.
 */
module StreamPairs {
  import opened Base
  import opened Descriptors
  import opened SmartSocket
  import opened Streams
  import opened StreamInvariant

  // ----- one end on its own -----

  lemma CloseEnd(id: Id, e: End, writeError: bool)
    requires EndInv(e) && !e.phase.Closed?
    ensures EndInv(Close(id, e, writeError).end)
  {
    assert Flat([]) == [];
    assert e.written <= e.accepted;
  }

  /** No payload byte is lost or reordered unless the descriptor fails. */
  lemma TakeConserves(e: End, data: bytes, script: seq<WriteResult>)
    requires e.written + Flat(e.queue) == e.accepted
    ensures var t := Take(e, data, script);
            && (t.outcome.Failed? ==> t.end.queue == [] && t.end.written <= t.end.accepted)
            && (!t.outcome.Failed? ==> t.end.written + Flat(t.end.queue) == t.end.accepted)
  {
    assert Flat([]) == [];
    if e.queue == [] {
      var k := Push(data, script).count;
      assert data == data[..k] + data[k..];
      assert Flat([data[k..]]) == data[k..];
    } else {
      FlatSnoc(e.queue, data);
    }
  }

  lemma TakeEnd(e: End, data: bytes, script: seq<WriteResult>)
    requires EndInv(e) && e.phase.Connected?
    ensures var t := Take(e, data, script);
            if t.outcome.Failed? then t.end.queue == [] && t.end.written <= t.end.accepted else EndInv(t.end)
  {
    TakeConserves(e, data, script);
  }

  lemma EnqueueEnd(id: Id, e: End, data: bytes, script: seq<WriteResult>)
    requires EndInv(e) && e.phase.Connected?
    ensures EndInv(Enqueue(id, e, data, script).end)
  {
    TakeEnd(e, data, script);
  }

  lemma WritableEnd(id: Id, e: End, script: seq<WriteResult>)
    requires EndInv(e) && !e.phase.Closed? && e.queue != []
    ensures EndInv(OnWritable(id, e, script).end)
    ensures !OnWritable(id, e, script).finished ==> OnWritable(id, e, script).end.phase == e.phase && e.phase.Connected?
  {
    var d := Drain(e.queue, script);
    DrainConserves(e.queue, script);
    assert e.written + (d.written + Flat(d.queue)) == e.written + d.written + Flat(d.queue);
    var e1 := e.(queue := d.queue, written := e.written + d.written);
    if !d.outcome.Done? {
      assert EndInv(e1);
    }
    assert e1.written <= e1.accepted;
  }

  /** What the smart-socket stage changes. */
  predicate Unrouted(id: Id, e: End, s: EndStep, ask: Ask)
  {
    && s.end == e.(phase := s.end.phase, readOn := s.end.readOn, queue := s.end.queue, status := s.end.status)
    && !s.end.phase.Connected?
    && (s.sent == [] || (|s.sent| == 1 && s.sent[0].Open? && s.sent[0].src == id && !s.end.phase.Smart?))
    && (s.end.phase.Opening? ==> s.sent != [])
    && (OnTransport(s.end) ==> Reaches(ask) || OnTransport(e))
    && (e.queue == [] ==> s.end.queue == [] && !s.end.phase.Draining?)
  }

  lemma AskedShape(id: Id, e: End, service: bytes, eof: bool, ev: Event)
    requires e.phase.Smart?
    ensures Unrouted(id, e, Asked(id, e, service, eof, ev), ev.ask)
  {
  }

  lemma RouteShape(id: Id, e: End, data: bytes, eof: bool, ev: Event, max: nat)
    requires e.phase.Smart?
    ensures Unrouted(id, e, Route(id, e, data, eof, ev, max), ev.ask)
  {
    var v := Feed(e.phase.buffer, data, max);
    if v.Request? { AskedShape(id, e, v.service, eof, ev); }
  }

  lemma AskedEnd(id: Id, e: End, service: bytes, eof: bool, ev: Event)
    requires EndInv(e) && e.phase.Smart?
    ensures EndInv(Asked(id, e, service, eof, ev).end)
  {
    assert Flat([]) == [];
  }

  lemma RouteEnd(id: Id, e: End, data: bytes, eof: bool, ev: Event, max: nat)
    requires EndInv(e) && e.phase.Smart?
    ensures EndInv(Route(id, e, data, eof, ev, max).end)
  {
    assert Flat([]) == [];
    var v := Feed(e.phase.buffer, data, max);
    if v.Request? { AskedEnd(id, e, v.service, eof, ev); }
  }

  lemma ReadableEnd(id: Id, e: End, ev: Event, limit: nat)
    requires EndInv(e) && !e.phase.Closed?
    ensures EndInv(OnReadable(id, e, ev, limit).end)
  {
    assert Flat([]) == [];
    CloseEnd(id, e, false);
    var r := Pull(ReadLimit(e, limit), ev.input);
    if r.data != [] && e.phase.Connected? {
      var e1 := e.(handed := e.handed + r.data, readOn := false, faked := e.faked + if e.readOn then 0 else 1);
      CloseEnd(id, e1, false);
    } else if r.data != [] && e.phase.Smart? {
      RouteEnd(id, e, r.data, r.eof, ev, ReadLimit(e, limit));
    }
  }

  // ----- a pair of ends -----

  /** Once this end is gone, its peer only has to hear of it. */
  lemma PairGone(a: End, b: End, ab: seq<Packet>, ba: seq<Packet>, e: End, outs: seq<Packet>, ba': seq<Packet>, up: bool, upB: bool)
    requires PairInv(a, b, ab, ba, up, upB)
    requires !Live(e) && e.handed == a.handed + Data(outs) && e.accepted <= b.handed
    requires up && Live(b) ==> Closes(ab) + Closes(outs) > 0 || Okays(ba') > 0
    ensures PairInv(e, b, ab + outs, ba', up, upB)
  {
    CountsAppend(ab, outs);
    assert b.accepted + (Data(ab) + Data(outs)) == b.accepted + Data(ab) + Data(outs);
  }

  lemma PairClose(id: Id, a: End, b: End, ab: seq<Packet>, ba: seq<Packet>, writeError: bool, ba': seq<Packet>, up: bool, upB: bool)
    requires PairInv(a, b, ab, ba, up, upB)
    requires ba' == ba || a.phase.Connected?
    ensures var s := Close(id, a, writeError); PairInv(s.end, b, ab + s.sent, ba', up, upB)
  {
    var s := Close(id, a, writeError);
    if s.sent != [] { CountsOne(s.sent[0]); }
    PairGone(a, b, ab, ba, s.end, s.sent, ba', up, upB);
  }

  /** A READY arrives. */
  lemma PairReady(a: End, b: End, ab: seq<Packet>, ba: seq<Packet>, peer: Id, up: bool, upB: bool)
    requires PairInv(a, b, ab, ba, up, upB) && Live(a)
    requires ba != [] && ba[0].Okay?
    ensures PairInv(Ready(a, peer), b, ab, ba[1..], up, upB)
  {
  }

  /** A packet is queued, or written out and acknowledged, or kills the socket. */
  lemma EnqueueShape(id: Id, e: End, data: bytes, script: seq<WriteResult>)
    requires e.phase.Connected?
    ensures var s := Enqueue(id, e, data, script);
            && s.end.handed == e.handed && s.end.accepted == e.accepted + data
            && (if Live(s.end) then
                  && s.end.phase == e.phase && s.end.readOn == e.readOn && s.end.faked == e.faked
                  && ((s.sent == [] && |s.end.queue| == |e.queue| + 1) ||
                      (s.sent == [Okay(id, e.phase.peer)] && s.end.queue == e.queue))
                else s.sent == [Clse(id, e.phase.peer)])
  {
  }

  /** The payload of a WRITE has moved into the receiving end, which stays open. */
  lemma PairTook(a: End, b: End, ab: seq<Packet>, ba: seq<Packet>, e: End, outs: seq<Packet>, up: bool, upB: bool)
    requires PairInv(a, b, ab, ba, up, upB) && a.phase.Connected? && ba != [] && ba[0].Wrte?
    requires e.phase == a.phase && e.readOn == a.readOn && e.faked == a.faked && e.handed == a.handed && e.accepted == a.accepted + ba[0].data
    requires (outs == [] && |e.queue| == |a.queue| + 1) || (|outs| == 1 && outs[0].Okay? && e.queue == a.queue)
    ensures PairInv(e, b, ab + outs, ba[1..], up, upB)
  {
    assert a.accepted + ba[0].data + Data(ba[1..]) == a.accepted + (ba[0].data + Data(ba[1..]));
    CountsAppend(ab, outs);
    if outs != [] {
      assert outs == [outs[0]];
      CountsOne(outs[0]);
    }
  }

  /** A WRITE arrives. */
  lemma PairEnqueue(id: Id, a: End, b: End, ab: seq<Packet>, ba: seq<Packet>, script: seq<WriteResult>, up: bool, upB: bool)
    requires PairInv(a, b, ab, ba, up, upB) && a.phase.Connected? && EndInv(a)
    requires ba != [] && ba[0].Wrte?
    ensures var s := Enqueue(id, a, ba[0].data, script); PairInv(s.end, b, ab + s.sent, ba[1..], up, upB)
  {
    var data := ba[0].data;
    var s := Enqueue(id, a, data, script);
    EnqueueShape(id, a, data, script);
    if Live(s.end) {
      PairTook(a, b, ab, ba, s.end, s.sent, up, upB);
    } else {
      assert a.accepted + data + Data(ba[1..]) == b.handed;
      CountsOne(s.sent[0]);
      PairGone(a, b, ab, ba, s.end, s.sent, ba[1..], up, upB);
    }
  }

  /** The queue shrinks; a socket that stays open and empties it sends one READY. */
  lemma WritableShape(id: Id, e: End, script: seq<WriteResult>)
    requires EndInv(e) && !e.phase.Closed? && e.queue != []
    ensures var s := OnWritable(id, e, script);
            && s.end.handed == e.handed && s.end.accepted == e.accepted
            && (if Live(s.end) then
                  && e.phase.Connected? && s.end.phase == e.phase && s.end.readOn == e.readOn && s.end.faked == e.faked
                  && |s.end.queue| <= |e.queue|
                  && s.sent == (if s.end.queue == [] then [Okay(id, e.phase.peer)] else [])
                else s.sent == (if e.phase.Connected? then [Clse(id, e.phase.peer)] else []))
  {
  }

  /** Queued packets are written. */
  lemma PairWritable(id: Id, a: End, b: End, ab: seq<Packet>, ba: seq<Packet>, script: seq<WriteResult>, up: bool, upB: bool)
    requires PairInv(a, b, ab, ba, up, upB) && EndInv(a) && !a.phase.Closed? && a.queue != []
    ensures var s := OnWritable(id, a, script); PairInv(s.end, b, ab + s.sent, ba, up, upB)
  {
    var s := OnWritable(id, a, script);
    WritableShape(id, a, script);
    if s.sent != [] { CountsOne(s.sent[0]); }
    if Live(s.end) {
      CountsAppend(ab, s.sent);
    } else {
      assert a.accepted <= b.handed;
      PairGone(a, b, ab, ba, s.end, s.sent, ba, up, upB);
    }
  }

  /** A WRITE leaves, and with it the token of this end, if it had one. */
  lemma PairWrote(a: End, b: End, ab: seq<Packet>, ba: seq<Packet>, e: End, wrte: Packet, up: bool, upB: bool)
    requires PairInv(a, b, ab, ba, up, upB) && a.phase.Connected? && wrte.Wrte?
    requires e.phase == a.phase && e.queue == a.queue && e.accepted == a.accepted && e.handed == a.handed + wrte.data
    requires !e.readOn && e.faked == a.faked + if a.readOn then 0 else 1
    ensures PairInv(e, b, ab + [wrte], ba, up, upB)
  {
    CountsOne(wrte);
    CountsAppend(ab, [wrte]);
    assert b.accepted + (Data(ab) + wrte.data) == b.accepted + Data(ab) + wrte.data;
  }

  /** What was read goes to the peer. */
  lemma PairHandOver(id: Id, a: End, b: End, ab: seq<Packet>, ba: seq<Packet>, data: bytes, eof: bool, up: bool, upB: bool)
    requires PairInv(a, b, ab, ba, up, upB) && a.phase.Connected?
    ensures var s := HandOver(id, a, data, eof); PairInv(s.end, b, ab + s.sent, ba, up, upB)
  {
    var s := HandOver(id, a, data, eof);
    var wrte := Wrte(id, a.phase.peer, data);
    var e := a.(handed := a.handed + data, readOn := false, faked := a.faked + if a.readOn then 0 else 1);
    PairWrote(a, b, ab, ba, e, wrte, up, upB);
    if eof {
      PairClose(id, e, b, ab + [wrte], ba, false, ba, up, upB);
      assert ab + s.sent == ab + [wrte] + Close(id, e, false).sent;
    }
  }

  /** The descriptor is read, for whatever reason. */
  lemma PairReadable(id: Id, a: End, b: End, ab: seq<Packet>, ba: seq<Packet>, ev: Event, limit: nat, up: bool, upB: bool)
    requires PairInv(a, b, ab, ba, up, upB) && !a.phase.Smart?
    ensures var s := OnReadable(id, a, ev, limit); PairInv(s.end, b, ab + s.sent, ba, up, upB)
  {
    var r := Pull(ReadLimit(a, limit), ev.input);
    if r.data == [] || !a.phase.Connected? {
      PairClose(id, a, b, ab, ba, false, ba, up, upB);
      assert ab + [] == ab;
    } else {
      PairHandOver(id, a, b, ab, ba, r.data, r.eof, up, upB);
    }
  }
}
