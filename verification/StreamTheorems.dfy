/**
 What the stream protocol promises, over every run from the end of the CNXN exchange: any
 interleaving of the two endpoints, any short reads and writes, hang-ups, closes, write
 errors and loss of the transport.
 */
module StreamTheorems {
  import opened Base
  import opened Descriptors
  import opened SmartSocket
  import opened Streams
  import opened StreamInvariant
  import opened StreamPairs
  import opened StreamRuns

  /**
   End-to-end order: what reached the receiver's descriptor is a prefix of what the sender's
   socket handed over, in both directions; and while the receiver lives nothing is missing:
   written, queued and in-flight bytes together are everything handed over.
   */
  lemma DeliveredInOrder(limit: nat, turns: seq<Turn>, a: Id, b: Id)
    requires var w := Run(Start(limit), turns); Linked(w.x, w.y, a, b)
    ensures var w := Run(Start(limit), turns);
            && w.y.ends[b].written <= w.x.ends[a].handed
            && w.x.ends[a].written <= w.y.ends[b].handed
            && (Live(w.y.ends[b]) ==>
                  w.y.ends[b].written + Flat(w.y.ends[b].queue) + Data(Between(w.xy, a, b)) == w.x.ends[a].handed)
            && (Live(w.x.ends[a]) ==>
                  w.x.ends[a].written + Flat(w.x.ends[a].queue) + Data(Between(w.yx, b, a)) == w.y.ends[b].handed)
  {
    var w := Run(Start(limit), turns);
    StartInv(limit);
    RunInv(Start(limit), turns);
    assert PairOk(w, a, b);
    WrittenIsPrefix(w.x.ends[a]);
    WrittenIsPrefix(w.y.ends[b]);
  }

  lemma WrittenIsPrefix(e: End)
    requires EndInv(e)
    ensures e.written <= e.accepted
  {
  }

  /** Streams never mix: an end is linked to at most one end of the other side, for good. */
  lemma StreamsDoNotMix(limit: nat, turns: seq<Turn>, a: Id, a': Id, b: Id, b': Id)
    requires var w := Run(Start(limit), turns); Linked(w.x, w.y, a, b) && Linked(w.x, w.y, a', b')
    ensures a == a' <==> b == b'
  {
    var w := Run(Start(limit), turns);
    StartInv(limit);
    RunInv(Start(limit), turns);
    if a == a' { LinkUnique(w, a, b, b'); }
    if b == b' { LinkUnique(Swap(w), b, a, a'); }
  }

  /**
   Flow control: while both ends live, each direction holds at least one token, and at most
   one more than the packets the sender handed over on faked reads.
   */
  lemma TokensConserved(limit: nat, turns: seq<Turn>, a: Id, b: Id)
    requires var w := Run(Start(limit), turns);
             Linked(w.x, w.y, a, b) && Live(w.x.ends[a]) && Live(w.y.ends[b])
    ensures var w := Run(Start(limit), turns);
            && 1 <= Tokens(w.x.ends[a], w.y.ends[b], Between(w.xy, a, b), Between(w.yx, b, a)) <= 1 + w.x.ends[a].faked
            && 1 <= Tokens(w.y.ends[b], w.x.ends[a], Between(w.yx, b, a), Between(w.xy, a, b)) <= 1 + w.y.ends[b].faked
  {
    var w := Run(Start(limit), turns);
    StartInv(limit);
    RunInv(Start(limit), turns);
    assert PairOk(w, a, b);
  }

  // ----- runs without hang-ups -----

  /** Every readable event reaches a socket whose FDE_READ is on: poll reported no hang-up or error. */
  predicate NoHangUps(w: World, turns: seq<Turn>)
    decreases |turns|
  {
    turns == [] || (NoHangUp(if turns[0].host then w.x else w.y, turns[0].action) && NoHangUps(Step(w, turns[0]), turns[1..]))
  }

  predicate NoHangUp(ep: Endpoint, a: Action)
  {
    a.Dispatch? && a.id in ep.ends && a.ev.readable ==> ep.ends[a.id].readOn
  }

  predicate NoFakes(ep: Endpoint)
  {
    forall id :: id in ep.ends ==> ep.ends[id].faked == 0
  }

  lemma {:induction false} CloseFromNoFakes(ep: Endpoint, id: Id)
    requires NoFakes(ep)
    ensures NoFakes(CloseFrom(ep, id).ep)
    decreases ep.nextId - id
  {
    if id < ep.nextId {
      if id in ep.ends && OnTransport(ep.ends[id]) {
        CloseFromNoFakes(Update(ep, id, Close(id, ep.ends[id], false)).ep, id + 1);
      } else {
        CloseFromNoFakes(ep, id + 1);
      }
    }
  }

  lemma ReadNoFakes(id: Id, e: End, ev: Event, limit: nat)
    requires e.readOn && e.faked == 0
    ensures OnReadable(id, e, ev, limit).end.faked == 0
  {
    if e.phase.Smart? {
      var r := Pull(ReadLimit(e, limit), ev.input);
      RouteShape(id, e, r.data, r.eof, ev, ReadLimit(e, limit));
    }
  }

  lemma EventNoFakes(id: Id, e: End, ev: Event, limit: nat)
    requires ev.readable ==> e.readOn
    requires e.faked == 0
    ensures OnEvent(id, e, ev, limit).end.faked == 0
  {
    if ev.writable {
      var w := OnWritable(id, e, ev.writes);
      assert !w.finished ==> w.end.readOn == e.readOn;
      if ev.readable && !w.finished { ReadNoFakes(id, w.end, ev, limit); }
    } else if ev.readable {
      ReadNoFakes(id, e, ev, limit);
    }
  }

  lemma StepXNoFakes(w: World, a: Action)
    requires NoFakes(w.x) && NoHangUp(w.x, a)
    ensures NoFakes(StepX(w, a).x)
  {
    match a
    case Dispatch(id, ev) =>
      if Deliverable(w.x, id, ev) { EventNoFakes(id, w.x.ends[id], ev, w.x.limit); }
    case GoOffline => CloseFromNoFakes(w.x, 1);
    case _ =>
  }

  lemma {:induction false} RunNoFakes(w: World, turns: seq<Turn>)
    requires NoFakes(w.x) && NoFakes(w.y) && NoHangUps(w, turns)
    ensures NoFakes(Run(w, turns).x) && NoFakes(Run(w, turns).y)
    decreases |turns|
  {
    if turns != [] {
      if turns[0].host { StepXNoFakes(w, turns[0].action); } else { StepXNoFakes(Swap(w), turns[0].action); }
      StepLimit(w, turns[0].action);
      StepLimit(Swap(w), turns[0].action);
      RunNoFakes(Step(w, turns[0]), turns[1..]);
    }
  }

  /**
   Without hang-ups each direction has exactly one of: FDE_READ on at the sender, one WRITE in
   flight, one packet queued at the receiver, one READY in flight. So no queue ever holds two.
   */
  lemma ExactlyOneToken(limit: nat, turns: seq<Turn>, a: Id, b: Id)
    requires NoHangUps(Start(limit), turns)
    requires var w := Run(Start(limit), turns);
             Linked(w.x, w.y, a, b) && Live(w.x.ends[a]) && Live(w.y.ends[b])
    ensures var w := Run(Start(limit), turns);
            && Tokens(w.x.ends[a], w.y.ends[b], Between(w.xy, a, b), Between(w.yx, b, a)) == 1
            && Tokens(w.y.ends[b], w.x.ends[a], Between(w.yx, b, a), Between(w.xy, a, b)) == 1
            && |w.x.ends[a].queue| <= 1 && |w.y.ends[b].queue| <= 1
  {
    TokensConserved(limit, turns, a, b);
    RunNoFakes(Start(limit), turns);
  }

  // ----- when the channels are empty -----

  /**
   Agreement: once nothing is in flight and both sides are online, either both ends of a
   stream are open or neither is; every byte handed over was written or is queued at the
   receiver; and a sender whose receiver has nothing queued is free to read. No stream is
   left half open and none is stuck.
   */
  lemma QuietAgreement(limit: nat, turns: seq<Turn>, a: Id, b: Id)
    requires var w := Run(Start(limit), turns);
             w.xy == [] && w.yx == [] && w.x.online && w.y.online && Linked(w.x, w.y, a, b)
    ensures var w := Run(Start(limit), turns); var s, r := w.x.ends[a], w.y.ends[b];
            && (Live(s) <==> Live(r))
            && (Live(r) ==> s.phase == Connected(b) && r.phase == Connected(a))
            && (Live(r) ==> r.written + Flat(r.queue) == s.handed && s.written + Flat(s.queue) == r.handed)
            && (Live(r) && r.queue == [] ==> s.readOn)
            && (Live(s) && s.queue == [] ==> r.readOn)
  {
    var w := Run(Start(limit), turns);
    StartInv(limit);
    RunInv(Start(limit), turns);
    assert PairOk(w, a, b);
    var s, r := w.x.ends[a], w.y.ends[b];
    assert Between(w.xy, a, b) == [] && Between(w.yx, b, a) == [];
    if s.phase.Connected? { LinkUnique(w, a, b, s.phase.peer); }
    if r.phase.Connected? { LinkUnique(Swap(w), b, a, r.phase.peer); }
  }

  // ----- one socket through a whole run -----

  predicate History(ep: Endpoint, a: Id)
    requires a in ep.ends
  {
    var e := ep.ends[a];
    && e.written <= e.accepted
    && (!e.phase.Closed? ==> e.written + Flat(e.queue) == e.accepted)
    && (e.origin.Client? && e.accepted != [] ==> e.status.SaidOkay?)
    && (e.status.SaidFail? ==> e.written == [])
    && 1 <= a < ep.nextId
  }

  /**
   A smart-socket client that was routed reads OKAY before any stream byte; one that was told
   FAIL never gets a stream byte; and every socket's written bytes are a prefix of what it
   accepted, short of it only by its queue until it is freed.
   */
  lemma SocketHistory(limit: nat, turns: seq<Turn>, a: Id)
    ensures var w := Run(Start(limit), turns); (a in w.x.ends ==> History(w.x, a)) && (a in w.y.ends ==> History(w.y, a))
  {
    StartInv(limit);
    RunInv(Start(limit), turns);
  }

  /** Every WRITE in flight is nonempty and within the negotiated limit. */
  lemma WritesFit(limit: nat, turns: seq<Turn>, p: Packet)
    requires var w := Run(Start(limit), turns); p in w.xy || p in w.yx
    requires p.Wrte?
    ensures 0 < |p.data| <= limit
  {
    StartInv(limit);
    RunInv(Start(limit), turns);
    LimitKept(Start(limit), turns);
    var w := Run(Start(limit), turns);
    assert p in w.xy ==> PacketInv(w.x, w.y, p);
    assert p in w.yx ==> PacketInv(w.y, w.x, p);
  }

  lemma {:induction false} CloseFromLimit(ep: Endpoint, id: Id)
    ensures CloseFrom(ep, id).ep.limit == ep.limit
    decreases ep.nextId - id
  {
    if id < ep.nextId {
      if id in ep.ends && OnTransport(ep.ends[id]) {
        CloseFromLimit(Update(ep, id, Close(id, ep.ends[id], false)).ep, id + 1);
      } else {
        CloseFromLimit(ep, id + 1);
      }
    }
  }

  lemma StepLimit(w: World, a: Action)
    ensures StepX(w, a).x.limit == w.x.limit && StepX(w, a).y == w.y
  {
    CloseFromLimit(w.x, 1);
  }

  lemma {:induction false} LimitKept(w: World, turns: seq<Turn>)
    ensures Run(w, turns).x.limit == w.x.limit && Run(w, turns).y.limit == w.y.limit
    decreases |turns|
  {
    if turns != [] {
      StepLimit(w, turns[0].action);
      StepLimit(Swap(w), turns[0].action);
      LimitKept(Step(w, turns[0]), turns[1..]);
    }
  }

  // ----- when bytes are lost -----

  /** The read half sees end of file, or is forced to. */
  predicate EndsReading(e: End, ev: Event, limit: nat)
  {
    ReadEnds(ReadLimit(e, limit), ev.input) || (ReadLimit(e, limit) == 0 && ev.forceEof)
  }

  /** Freed with accepted bytes that never reached the descriptor. */
  predicate Lost(e: End)
  {
    e.phase.Closed? && e.written != e.accepted
  }

  lemma ReadLoses(id: Id, e: End, ev: Event, limit: nat)
    requires EndInv(e) && !e.phase.Closed?
    ensures Lost(OnReadable(id, e, ev, limit).end) ==> e.phase.Draining? && EndsReading(e, ev, limit)
  {
    assert Flat([]) == [];
    PullExactly(ReadLimit(e, limit), ev.input);
    if e.phase.Smart? {
      var r := Pull(ReadLimit(e, limit), ev.input);
      RouteShape(id, e, r.data, r.eof, ev, ReadLimit(e, limit));
    }
  }

  lemma WriteLoses(id: Id, e: End, script: seq<WriteResult>)
    requires EndInv(e) && !e.phase.Closed? && e.queue != []
    ensures Lost(OnWritable(id, e, script).end) ==> QueueFails(e.queue, script)
  {
    DrainConserves(e.queue, script);
    DrainExactly(e.queue, script);
    var d := Drain(e.queue, script);
    assert e.written + (d.written + Flat(d.queue)) == e.written + d.written + Flat(d.queue);
  }

  /** A callback loses bytes only by a write error, or by end of file on a socket that was already on the closing list. */
  lemma EventLoses(id: Id, e: End, ev: Event, limit: nat)
    requires EndInv(e) && !e.phase.Closed? && (ev.writable ==> e.queue != [])
    requires Lost(OnEvent(id, e, ev, limit).end)
    ensures (ev.writable && QueueFails(e.queue, ev.writes))
            || (e.phase.Draining? && ev.readable && EndsReading(e, ev, limit))
  {
    if ev.writable {
      var w := OnWritable(id, e, ev.writes);
      WritableEnd(id, e, ev.writes);
      if w.finished || !ev.readable {
        WriteLoses(id, e, ev.writes);
      } else {
        ReadLoses(id, w.end, ev, limit);
      }
    } else {
      ReadLoses(id, e, ev, limit);
    }
  }

  lemma CloseLosesNothing(id: Id, e: End)
    requires EndInv(e) && OnTransport(e)
    ensures !Lost(Close(id, e, false).end)
  {
    assert Flat([]) == [];
  }

  lemma {:induction false} CloseFromLosesNothing(ep: Endpoint, id: Id, a: Id)
    requires forall i :: i in ep.ends ==> EndInv(ep.ends[i])
    requires a in CloseFrom(ep, id).ep.ends && Lost(CloseFrom(ep, id).ep.ends[a])
    ensures a in ep.ends && Lost(ep.ends[a])
    decreases ep.nextId - id
  {
    if id < ep.nextId {
      if id in ep.ends && OnTransport(ep.ends[id]) {
        CloseEnd(id, ep.ends[id], false);
        CloseLosesNothing(id, ep.ends[id]);
        CloseFromLosesNothing(Put(ep, id, Close(id, ep.ends[id], false).end), id + 1, a);
      } else {
        CloseFromLosesNothing(ep, id + 1, a);
      }
    }
  }

  lemma HandleLoses(ep: Endpoint, p: Packet, accept: bool, script: seq<WriteResult>, a: Id)
    requires forall i :: i in ep.ends ==> EndInv(ep.ends[i])
    requires var ep' := Handle(ep, p, accept, script).ep; a in ep'.ends && Lost(ep'.ends[a]) && (a in ep.ends ==> !Lost(ep.ends[a]))
    ensures a in ep.ends && p.Wrte? && p.dst == a && ep.ends[a].phase == Connected(p.src)
            && ep.ends[a].queue == [] && WriteFails(p.data, script)
  {
    assert Flat([]) == [];
    if p.Wrte? { PushExactly(p.data, script); }
    if p.Clse? && p.dst in ep.ends && OnTransport(ep.ends[p.dst]) { CloseLosesNothing(p.dst, ep.ends[p.dst]); }
  }

  /** The only causes: a failed write, or end of file on a socket that was already draining. */
  predicate LossCause(w: World, a: Action, id: Id)
  {
    && id in w.x.ends
    && match a
       case Dispatch(i, ev) =>
         && i == id
         && ((ev.writable && QueueFails(w.x.ends[id].queue, ev.writes))
             || (w.x.ends[id].phase.Draining? && ev.readable && EndsReading(w.x.ends[id], ev, w.x.limit)))
       case Receive(_, script) =>
         && w.yx != [] && w.yx[0].Wrte? && w.yx[0].dst == id && w.x.ends[id].phase == Connected(w.yx[0].src)
         && w.x.ends[id].queue == [] && WriteFails(w.yx[0].data, script)
       case _ => false
  }

  lemma StepXLoses(w: World, a: Action, id: Id)
    requires Inv(w)
    requires var x' := StepX(w, a).x; id in x'.ends && Lost(x'.ends[id]) && (id in w.x.ends ==> !Lost(w.x.ends[id]))
    ensures LossCause(w, a, id)
  {
    match a
    case Dispatch(i, ev) =>
      if Deliverable(w.x, i, ev) && i == id { EventLoses(id, w.x.ends[id], ev, w.x.limit); }
    case Receive(accept, script) =>
      if w.yx != [] { HandleLoses(w.x, w.yx[0], accept, script, id); }
    case GoOffline => CloseFromLosesNothing(w.x, 1, id);
    case _ =>
  }

  /**
   In every run, a socket that becomes freed with bytes unwritten is freed by its own endpoint's
   step, and that step saw a failed write, or end of file on the socket while it was already on the
   closing list. A CLOSE and the loss of the transport never lose bytes.
   */
  lemma LostOnlyByErrorOrEof(limit: nat, turns: seq<Turn>, t: Turn, id: Id)
    ensures var w := Run(Start(limit), turns); var w' := Step(w, t);
            && (id in w'.x.ends && Lost(w'.x.ends[id]) && (id in w.x.ends ==> !Lost(w.x.ends[id])) ==> t.host && LossCause(w, t.action, id))
            && (id in w'.y.ends && Lost(w'.y.ends[id]) && (id in w.y.ends ==> !Lost(w.y.ends[id])) ==> !t.host && LossCause(Swap(w), t.action, id))
  {
    var w := Run(Start(limit), turns);
    var w' := Step(w, t);
    StartInv(limit);
    RunInv(Start(limit), turns);
    SwapInv(w);
    StepLimit(w, t.action);
    StepLimit(Swap(w), t.action);
    if t.host && id in w'.x.ends && Lost(w'.x.ends[id]) && (id in w.x.ends ==> !Lost(w.x.ends[id])) {
      StepXLoses(w, t.action, id);
    }
    if !t.host && id in w'.y.ends && Lost(w'.y.ends[id]) && (id in w.y.ends ==> !Lost(w.y.ends[id])) {
      StepXLoses(Swap(w), t.action, id);
    }
  }
}
