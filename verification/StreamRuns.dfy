/**
 Every step keeps the invariant, so it holds throughout every run; what the protocol
 promises about whole runs follows.
 */
module StreamRuns {
  import opened Base
  import opened Descriptors
  import opened SmartSocket
  import opened Streams
  import opened StreamInvariant
  import opened StreamPairs

  // ----- a new end -----

  /** A fresh id is linked to nothing and addressed by nothing. */
  lemma FreshId(w: World, b: Id)
    requires HalfInv(w) && HalfInv(Swap(w))
    ensures w.x.nextId !in w.x.ends
    ensures forall c :: c in w.y.ends ==> w.y.ends[c].origin != Service(w.x.nextId)
    ensures Between(w.xy, w.x.nextId, b) == [] && Between(w.yx, b, w.x.nextId) == []
  {
    assert forall c :: c in w.y.ends && w.y.ends[c].origin.Service? ==>
             OpenerInv(w.x, w.xy, w.y.ends[c].origin.opener);
    assert forall p :: p in w.xy ==> PacketInv(w.x, w.y, p);
    assert forall p :: p in w.yx ==> PacketInv(w.y, w.x, p);
    BetweenNone(w.xy, w.x.nextId, b);
    BetweenNone(w.yx, b, w.x.nextId);
  }

  lemma PacketInvGrows(x: Endpoint, y: Endpoint, e: End, p: Packet)
    requires x.nextId !in x.ends
    requires PacketInv(x, y, p) || PacketInv(y, x, p)
    ensures PacketInv(x, y, p) ==> PacketInv(Install(x, e), y, p)
    ensures PacketInv(y, x, p) ==> PacketInv(y, Install(x, e), p)
  {
  }

  /** The new end `e`, and the one packet it may send, fit the world around them. */
  ghost predicate FitsNew(w: World, e: End, outs: seq<Packet>, pop: bool)
  {
    && EndInv(e) && (OnTransport(e) ==> w.x.online)
    && (pop ==> w.yx != [])
    && (e.phase.Connected? ==> e.origin == Service(e.phase.peer))
    && (e.origin.Service? ==> OpenerInv(w.y, Rest(w.yx, pop), e.origin.opener))
    && (e.origin.Service? ==> forall c :: c in w.x.ends ==> w.x.ends[c].origin != e.origin)
    && |outs| <= 1
    && (forall p :: p in outs ==> p.src == w.x.nextId && PacketInv(Install(w.x, e), w.y, p))
  }

  lemma InstallChannels(w: World, e: End, outs: seq<Packet>, pop: bool)
    requires HalfInv(w) && HalfInv(Swap(w)) && FitsNew(w, e, outs, pop)
    ensures ChannelInv(Install(w.x, e), w.y, w.xy + outs)
    ensures ChannelInv(w.y, Install(w.x, e), Rest(w.yx, pop))
  {
    var x' := Install(w.x, e);
    var yx' := Rest(w.yx, pop);
    FreshId(w, 0);
    assert forall p :: p in yx' ==> p in w.yx;
    forall p | p in w.xy + outs ensures PacketInv(x', w.y, p) {
      if p in w.xy { PacketInvGrows(w.x, w.y, e, p); }
    }
    forall p | p in yx' ensures PacketInv(w.y, x', p) {
      PacketInvGrows(w.x, w.y, e, p);
    }
    assert forall p :: p in w.xy && p.Open? ==> PacketInv(w.x, w.y, p) && p.src != w.x.nextId;
  }

  lemma InstallServices(w: World, e: End, outs: seq<Packet>, pop: bool)
    requires HalfInv(w) && HalfInv(Swap(w)) && FitsNew(w, e, outs, pop)
    ensures ServicesInv(Install(w.x, e), w.y, Rest(w.yx, pop))
    ensures ServicesInv(w.y, Install(w.x, e), w.xy + outs)
  {
    var x' := Install(w.x, e);
    var yx' := Rest(w.yx, pop);
    FreshId(w, 0);
    assert forall p :: p in yx' ==> p in w.yx;
    forall c | c in w.x.ends && w.x.ends[c].origin.Service?
      ensures OpenerInv(w.y, yx', w.x.ends[c].origin.opener)
    {
      assert OpenerInv(w.y, w.yx, w.x.ends[c].origin.opener);
    }
    forall c | c in w.y.ends && w.y.ends[c].origin.Service?
      ensures OpenerInv(x', w.xy + outs, w.y.ends[c].origin.opener)
    {
      assert OpenerInv(w.x, w.xy, w.y.ends[c].origin.opener);
    }
  }

  /** Everything but the new end and its packet stays as it was. */
  lemma InstallHalves(w: World, e: End, outs: seq<Packet>, pop: bool)
    requires HalfInv(w) && HalfInv(Swap(w)) && FitsNew(w, e, outs, pop)
    ensures var w' := World(Install(w.x, e), w.y, w.xy + outs, Rest(w.yx, pop));
            HalfInv(w') && HalfInv(Swap(w'))
  {
    var x' := Install(w.x, e);
    FreshId(w, 0);
    InstallChannels(w, e, outs, pop);
    InstallServices(w, e, outs, pop);
    forall c | c in x'.ends && x'.ends[c].phase.Connected? ensures Linked(x', w.y, c, x'.ends[c].phase.peer) {
      if c in w.x.ends { assert Linked(w.x, w.y, c, w.x.ends[c].phase.peer); }
    }
    forall c | c in w.y.ends && w.y.ends[c].phase.Connected? ensures Linked(w.y, x', c, w.y.ends[c].phase.peer) {
      assert Linked(w.y, w.x, c, w.y.ends[c].phase.peer);
    }
  }

  /** The pairs that existed before. */
  lemma InstallOldPairs(w: World, e: End, outs: seq<Packet>, pop: bool, a: Id, b: Id)
    requires Inv(w)
    requires pop ==> w.yx != [] && w.yx[0].Open?
    requires forall p :: p in outs ==> p.src == w.x.nextId
    requires a != w.x.nextId && Linked(Install(w.x, e), w.y, a, b)
    ensures PairOk(World(Install(w.x, e), w.y, w.xy + outs, Rest(w.yx, pop)), a, b)
  {
    assert Linked(w.x, w.y, a, b);
    assert PairOk(w, a, b);
    BetweenNone(outs, a, b);
    BetweenAppend(w.xy, outs, a, b);
    assert Between(w.xy + outs, a, b) == Between(w.xy, a, b);
    assert Between(Rest(w.yx, pop), b, a) == Between(w.yx, b, a);
  }

  /** A client or a forwarded connection: not part of any stream yet. */
  lemma InstallUnlinked(w: World, e: End, outs: seq<Packet>)
    requires Inv(w)
    requires EndInv(e) && (OnTransport(e) ==> w.x.online)
    requires !e.origin.Service? && !e.phase.Connected?
    requires outs == [] || (!e.phase.Smart? && e.handed == e.accepted == [] && exists dest :: outs == [Open(w.x.nextId, dest)])
    ensures Inv(World(Install(w.x, e), w.y, w.xy + outs, w.yx))
  {
    InstallHalves(w, e, outs, false);
    FreshId(w, 0);
    forall a, b | Linked(Install(w.x, e), w.y, a, b)
      ensures PairOk(World(Install(w.x, e), w.y, w.xy + outs, w.yx), a, b)
    {
      InstallOldPairs(w, e, outs, false, a, b);
    }
  }

  /** A service as OPEN creates it, against an opener with its OPEN still in flight. */
  lemma PairBorn(src: Id, a: Id, opener: End, up: bool, upB: bool)
    requires EndInv(opener) && opener.handed == opener.accepted == []
    requires !opener.phase.Connected?
    ensures PairInv(NewEnd(Service(src), Connected(src), true), opener, [Okay(a, src)], [], up, upB)
    ensures EndInv(NewEnd(Service(src), Connected(src), true))
  {
    CountsOne(Okay(a, src));
    assert Flat([]) == [];
  }

  lemma ServiceFits(w: World)
    requires HalfInv(w) && HalfInv(Swap(w)) && w.x.online
    requires w.yx != [] && w.yx[0].Open?
    ensures var src := w.yx[0].src;
            && FitsNew(w, NewEnd(Service(src), Connected(src), true), [Okay(w.x.nextId, src)], true)
            && src in w.y.ends && EndInv(w.y.ends[src]) && !w.y.ends[src].phase.Connected?
            && w.y.ends[src].handed == w.y.ends[src].accepted == []
  {
    var a, src := w.x.nextId, w.yx[0].src;
    var e := NewEnd(Service(src), Connected(src), true);
    assert PacketInv(w.y, w.x, w.yx[0]);
    PairBorn(src, a, w.y.ends[src], w.x.online, w.y.online);
    assert OpenerInv(w.y, w.yx[1..], src);
    assert forall c :: c in w.x.ends && w.x.ends[c].origin.Service? ==> OpenerInv(w.y, w.yx, w.x.ends[c].origin.opener);
    assert Linked(Install(w.x, e), w.y, a, src);
  }

  /** OPEN is accepted: the new service is linked to its opener, one READY in flight. */
  lemma InstallService(w: World)
    requires Inv(w) && w.x.online
    requires w.yx != [] && w.yx[0].Open?
    ensures var a := w.x.nextId; var src := w.yx[0].src;
            Inv(World(Install(w.x, NewEnd(Service(src), Connected(src), true)), w.y, w.xy + [Okay(a, src)], w.yx[1..]))
  {
    var a, src := w.x.nextId, w.yx[0].src;
    var e := NewEnd(Service(src), Connected(src), true);
    var outs := [Okay(a, src)];
    ServiceFits(w);
    InstallHalves(w, e, outs, true);
    var w' := World(Install(w.x, e), w.y, w.xy + outs, w.yx[1..]);
    forall c, b | Linked(w'.x, w'.y, c, b)
      ensures PairOk(w', c, b)
    {
      if c == a {
        FreshId(w, b);
        PairBorn(src, a, w.y.ends[src], w.x.online, w.y.online);
        BetweenAppend(w.xy, outs, a, b);
        assert Between(w'.xy, a, src) == outs;
      } else {
        InstallOldPairs(w, e, outs, true, c, b);
      }
    }
  }

  // ----- packets that change no end -----

  /** An OPEN that creates no service: refused, or ignored while offline. */
  lemma OpenIgnored(w: World, outs: seq<Packet>)
    requires Inv(w)
    requires w.yx != [] && w.yx[0].Open?
    requires outs == [] || outs == [Clse(0, w.yx[0].src)]
    ensures Inv(World(w.x, w.y, w.xy + outs, w.yx[1..]))
  {
    var w' := World(w.x, w.y, w.xy + outs, w.yx[1..]);
    assert PacketInv(w.y, w.x, w.yx[0]);
    assert forall p :: p in w.yx[1..] ==> p in w.yx;
    assert EndsInv(w.x) && EndsInv(w.y);
    assert ChannelInv(w'.x, w'.y, w'.xy) && ChannelInv(w'.y, w'.x, w'.yx);
    forall c | c in w.x.ends && w.x.ends[c].origin.Service?
      ensures OpenerInv(w.y, w'.yx, w.x.ends[c].origin.opener)
    {
      assert OpenerInv(w.y, w.yx, w.x.ends[c].origin.opener);
    }
    forall c | c in w.y.ends && w.y.ends[c].origin.Service?
      ensures OpenerInv(w.x, w'.xy, w.y.ends[c].origin.opener)
    {
      assert OpenerInv(w.x, w.xy, w.y.ends[c].origin.opener);
    }
    forall a, b | Linked(w'.x, w'.y, a, b) ensures PairOk(w', a, b) {
      assert PairOk(w, a, b);
      BetweenNone(outs, a, b);
      BetweenAppend(w.xy, outs, a, b);
      assert Between(w'.xy, a, b) == Between(w.xy, a, b);
      assert Between(w'.yx, b, a) == Between(w.yx, b, a);
    }
  }

  /** The next packet, addressed to a known end, and where it comes from. */
  lemma NextPacket(w: World) returns (a: Id)
    requires Inv(w)
    requires w.yx != [] && !w.yx[0].Open?
    ensures a == w.yx[0].dst && a in w.x.ends && 1 <= a
    ensures w.yx[0].src != 0 || w.yx[0].Clse?
    ensures w.yx[0].src != 0 ==> Linked(w.x, w.y, a, w.yx[0].src)
    ensures forall b :: Linked(w.x, w.y, a, b) && w.yx[0].src == b ==>
              Between(w.yx, b, a) == [w.yx[0]] + Between(w.yx[1..], b, a)
    ensures forall b :: Linked(w.x, w.y, a, b) && w.yx[0].src != 0 ==> b == w.yx[0].src
    ensures forall b :: Linked(w.x, w.y, a, b) && w.yx[0].src == 0 ==> Between(w.yx[1..], b, a) == Between(w.yx, b, a)
  {
    a := w.yx[0].dst;
    assert PacketInv(w.y, w.x, w.yx[0]);
    assert forall b :: b in w.y.ends ==> 1 <= b;
    forall b | Linked(w.x, w.y, a, b) && w.yx[0].src != 0 ensures b == w.yx[0].src {
      LinkUnique(w, a, b, w.yx[0].src);
    }
  }

  /** A packet for an end that is no longer live is consumed, with or without a CLOSE in reply. */
  lemma PacketIgnored(w: World, outs: seq<Packet>)
    requires Inv(w)
    requires w.yx != [] && !w.yx[0].Open?
    requires w.yx[0].dst in w.x.ends && !Live(w.x.ends[w.yx[0].dst])
    requires if w.x.online && w.yx[0].Okay? then outs == [Clse(w.yx[0].dst, w.yx[0].src)] else outs == []
    ensures Inv(World(w.x, w.y, w.xy + outs, w.yx[1..]))
  {
    var a := NextPacket(w);
    var e := w.x.ends[a];
    assert w.x.ends[a := e] == w.x.ends;
    assert Put(w.x, a, e) == w.x;
    if outs != [] { CountsOne(outs[0]); }
    forall b | Linked(w.x, w.y, a, b)
      ensures PairInv(e, w.y.ends[b], Between(w.xy, a, b) + outs, Between(Rest(w.yx, true), b, a), w.x.online, w.y.online)
    {
      assert PairOk(w, a, b);
      PairGone(e, w.y.ends[b], Between(w.xy, a, b), Between(w.yx, b, a), e, outs, Between(w.yx[1..], b, a), w.x.online, w.y.online);
    }
    TouchInv(w, a, e, outs, true);
  }

  // ----- the main thread handles a packet -----

  lemma ReceiveOkay(w: World)
    requires Inv(w) && w.yx != [] && w.yx[0].Okay?
    requires Live(w.x.ends[NextDst(w)])
    ensures w.x.ends[NextDst(w)].phase.Opening? || w.x.ends[NextDst(w)].phase == Connected(w.yx[0].src)
    ensures Inv(Touch(w, NextDst(w), Ready(w.x.ends[NextDst(w)], w.yx[0].src), [], true))
  {
    var a := NextPacket(w);
    var src := w.yx[0].src;
    var e := w.x.ends[a];
    if e.phase.Connected? { LinkUnique(w, a, src, e.phase.peer); }
    assert PairOk(w, a, src);
    PairReady(e, w.y.ends[src], Between(w.xy, a, src), Between(w.yx, src, a), src, w.x.online, w.y.online);
    forall b | Linked(w.x, w.y, a, b)
      ensures PairInv(Ready(e, src), w.y.ends[b], Between(w.xy, a, b) + [], Between(w.yx[1..], b, a), w.x.online, w.y.online)
    {
      assert b == src;
      assert Between(w.xy, a, b) + [] == Between(w.xy, a, b);
    }
    TouchInv(w, a, Ready(e, src), [], true);
  }

  /** The end the next packet is addressed to. */
  ghost function NextDst(w: World): Id
    requires Inv(w) && w.yx != [] && !w.yx[0].Open?
    ensures NextDst(w) in w.x.ends
  {
    assert PacketInv(w.y, w.x, w.yx[0]);
    w.yx[0].dst
  }

  /** While an end is opening, the READY that connects it comes before anything else its peer sends. */
  lemma OpeningHearsOkayFirst(w: World)
    requires Inv(w) && w.yx != [] && !w.yx[0].Open? && w.yx[0].src != 0
    requires w.x.ends[NextDst(w)].phase.Opening?
    ensures w.yx[0].Okay?
  {
    var a := NextPacket(w);
    assert PairOk(w, a, w.yx[0].src);
  }

  lemma ReceiveClse(w: World)
    requires Inv(w) && w.yx != [] && w.yx[0].Clse?
    requires Live(w.x.ends[NextDst(w)])
    ensures var a := NextDst(w); var s := Close(a, w.x.ends[a], false); Inv(Touch(w, a, s.end, s.sent, true))
    ensures w.yx[0].src != 0 ==> w.x.ends[NextDst(w)].phase == Connected(w.yx[0].src)
  {
    var a := NextPacket(w);
    var e := w.x.ends[a];
    var s := Close(a, e, false);
    if w.yx[0].src != 0 {
      if e.phase.Opening? { OpeningHearsOkayFirst(w); }
      else { LinkUnique(w, a, w.yx[0].src, e.phase.peer); }
    }
    CloseTouches(w, a, true);
  }

  /** Closing an end, whatever else happens in the same step. */
  lemma CloseTouches(w: World, a: Id, pop: bool)
    requires Inv(w) && a in w.x.ends && !w.x.ends[a].phase.Closed?
    requires pop ==> w.yx != [] && w.yx[0].Clse? && w.yx[0].dst == a
    requires pop && w.yx[0].src != 0 ==> w.x.ends[a].phase == Connected(w.yx[0].src)
    ensures var s := Close(a, w.x.ends[a], false); Inv(Touch(w, a, s.end, s.sent, pop))
  {
    var e := w.x.ends[a];
    var s := Close(a, e, false);
    CloseEnd(a, e, false);
    forall b | Linked(w.x, w.y, a, b)
      ensures PairInv(s.end, w.y.ends[b], Between(w.xy, a, b) + s.sent, Between(Rest(w.yx, pop), b, a), w.x.online, w.y.online)
    {
      assert PairOk(w, a, b);
      PairClose(a, e, w.y.ends[b], Between(w.xy, a, b), Between(w.yx, b, a), false, Between(Rest(w.yx, pop), b, a), w.x.online, w.y.online);
    }
    TouchInv(w, a, s.end, s.sent, pop);
  }

  lemma EnqueueFits(w: World, a: Id, script: seq<WriteResult>)
    requires w.yx != [] && w.yx[0].Wrte? && w.yx[0].dst == a && w.yx[0].data != [] && a != 0
    requires a in w.x.ends && EndInv(w.x.ends[a]) && w.x.online
    requires w.x.ends[a].phase == Connected(w.yx[0].src) && Linked(w.x, w.y, a, w.yx[0].src)
    ensures var s := Enqueue(a, w.x.ends[a], w.yx[0].data, script); Fits(w, a, s.end, s.sent, true)
  {
    EnqueueEnd(a, w.x.ends[a], w.yx[0].data, script);
  }

  /** A WRITE for a live end finds it connected to its sender. */
  lemma WrteFinds(w: World)
    requires Inv(w) && w.yx != [] && w.yx[0].Wrte?
    requires Live(w.x.ends[NextDst(w)])
    ensures w.x.ends[NextDst(w)].phase == Connected(w.yx[0].src)
    ensures w.yx[0].data != [] && w.x.online && EndInv(w.x.ends[NextDst(w)])
  {
    var a := NextPacket(w);
    assert PacketInv(w.y, w.x, w.yx[0]);
    if w.x.ends[a].phase.Opening? { OpeningHearsOkayFirst(w); }
    LinkUnique(w, a, w.yx[0].src, w.x.ends[a].phase.peer);
  }

  lemma ReceiveWrte(w: World, script: seq<WriteResult>)
    requires Inv(w) && w.yx != [] && w.yx[0].Wrte?
    requires Live(w.x.ends[NextDst(w)])
    ensures w.x.ends[NextDst(w)].phase == Connected(w.yx[0].src)
    ensures var a := NextDst(w); var s := Enqueue(a, w.x.ends[a], w.yx[0].data, script); Inv(Touch(w, a, s.end, s.sent, true))
  {
    var a := NextPacket(w);
    var src := w.yx[0].src;
    WrteFinds(w);
    EnqueueFits(w, a, script);
    var s := Enqueue(a, w.x.ends[a], w.yx[0].data, script);
    assert PairOk(w, a, src);
    PairEnqueue(a, w.x.ends[a], w.y.ends[src], Between(w.xy, a, src), Between(w.yx, src, a), script, w.x.online, w.y.online);
    TouchInv(w, a, s.end, s.sent, true);
  }

  /** Smart-socket clients take part in no stream. */
  lemma SmartUnlinked(w: World, a: Id)
    requires HalfInv(w) && HalfInv(Swap(w)) && a in w.x.ends && w.x.ends[a].phase.Smart?
    ensures forall b :: !Linked(w.x, w.y, a, b)
    ensures forall p :: p in w.xy && p.Open? ==> p.src != a
  {
    assert forall c :: c in w.y.ends && w.y.ends[c].origin.Service? ==> OpenerInv(w.x, w.xy, w.y.ends[c].origin.opener);
    assert forall p :: p in w.xy ==> PacketInv(w.x, w.y, p);
  }

  lemma ReceiveInv(w: World, accept: bool, script: seq<WriteResult>)
    requires Inv(w)
    ensures Inv(StepX(w, Receive(accept, script)))
  {
    if w.yx != [] {
      var p := w.yx[0];
      if p.Open? {
        assert PacketInv(w.y, w.x, p);
        if w.x.online && accept { InstallService(w); }
        else { OpenIgnored(w, Handle(w.x, p, accept, script).sent); }
      } else {
        ReceiveKnown(w, accept, script);
      }
    }
  }

  /** What handle_packet does once it has found the socket, as a change of that one end. */
  lemma ReceiveLive(w: World, accept: bool, script: seq<WriteResult>)
    requires w.x.online && w.yx != [] && !w.yx[0].Open?
    requires w.yx[0].dst in w.x.ends && Live(w.x.ends[w.yx[0].dst]) && w.yx[0].dst != 0
    ensures var a := w.yx[0].dst; var e := w.x.ends[a]; var w' := StepX(w, Receive(accept, script));
            match w.yx[0]
            case Okay(src, _) => src != 0 && (e.phase.Opening? || e.phase == Connected(src)) ==> w' == Touch(w, a, Ready(e, src), [], true)
            case Clse(src, _) => (src == 0 || e.phase == Connected(src)) ==>
                                 w' == Touch(w, a, Close(a, e, false).end, Close(a, e, false).sent, true)
            case Wrte(src, _, d) => src != 0 && e.phase == Connected(src) ==>
                                    w' == Touch(w, a, Enqueue(a, e, d, script).end, Enqueue(a, e, d, script).sent, true)
  {
  }

  lemma ReceiveKnown(w: World, accept: bool, script: seq<WriteResult>)
    requires Inv(w) && w.yx != [] && !w.yx[0].Open?
    ensures Inv(StepX(w, Receive(accept, script)))
  {
    var a := NextPacket(w);
    if w.x.online && Live(w.x.ends[a]) {
      ReceiveLive(w, accept, script);
      match w.yx[0]
      case Okay(_, _) => ReceiveOkay(w);
      case Clse(_, _) => ReceiveClse(w);
      case Wrte(_, _, _) => ReceiveWrte(w, script);
    } else {
      ReceiveDead(w, accept, script);
    }
  }

  /** What handle_packet does for a socket that is draining, closed, or at the smart-socket stage and unbound. */
  lemma HandleDead(ep: Endpoint, p: Packet, accept: bool, script: seq<WriteResult>)
    requires !p.Open? && p.dst != 0 && p.dst in ep.ends && !OnTransport(ep.ends[p.dst])
    requires (p.Okay? ==> p.src != 0) && (ep.ends[p.dst].phase.Smart? ==> p.Clse?)
    ensures Handle(ep, p, accept, script) == EndpointStep(ep, if ep.online && p.Okay? then [Clse(p.dst, p.src)] else [])
  {
  }

  lemma ReceiveDead(w: World, accept: bool, script: seq<WriteResult>)
    requires Inv(w) && w.yx != [] && !w.yx[0].Open?
    requires !w.x.online || !Live(w.x.ends[NextDst(w)])
    ensures Inv(StepX(w, Receive(accept, script)))
  {
    var a := NextPacket(w);
    if w.x.online && OnTransport(w.x.ends[a]) {
      SmartUnlinked(w, a);
      CloseTouches(w, a, true);
      HandleBound(w, accept, script);
    } else {
      if w.x.online {
        if w.x.ends[a].phase.Smart? { SmartUnlinked(w, a); }
        HandleDead(w.x, w.yx[0], accept, script);
      }
      PacketIgnored(w, Handle(w.x, w.yx[0], accept, script).sent);
    }
  }

  /** CLOSE(0, id) closes a smart-socket client that is bound to the transport. */
  lemma HandleBound(w: World, accept: bool, script: seq<WriteResult>)
    requires w.x.online && w.yx != [] && w.yx[0].Clse? && w.yx[0].src == 0 && w.yx[0].dst != 0
    requires w.yx[0].dst in w.x.ends && OnTransport(w.x.ends[w.yx[0].dst])
    ensures var a := w.yx[0].dst; var c := Close(a, w.x.ends[a], false);
            StepX(w, Receive(accept, script)) == Touch(w, a, c.end, c.sent, true)
  {
  }

  // ----- the event loop calls a socket's callback -----

  lemma WritableFits(w: World, a: Id, script: seq<WriteResult>)
    requires a in w.x.ends && EndInv(w.x.ends[a]) && !w.x.ends[a].phase.Closed? && w.x.ends[a].queue != []
    requires (Live(w.x.ends[a]) ==> w.x.online) && a != 0
    requires w.x.ends[a].phase.Connected? ==> Linked(w.x, w.y, a, w.x.ends[a].phase.peer)
    ensures var s := OnWritable(a, w.x.ends[a], script); Fits(w, a, s.end, s.sent, false)
  {
    WritableEnd(a, w.x.ends[a], script);
  }

  lemma WritableTouches(w: World, a: Id, script: seq<WriteResult>)
    requires Inv(w) && a in w.x.ends && !w.x.ends[a].phase.Closed? && w.x.ends[a].queue != []
    ensures var s := OnWritable(a, w.x.ends[a], script); Inv(Touch(w, a, s.end, s.sent, false))
  {
    var e := w.x.ends[a];
    var s := OnWritable(a, e, script);
    WritableFits(w, a, script);
    forall b | Linked(w.x, w.y, a, b)
      ensures PairInv(s.end, w.y.ends[b], Between(w.xy, a, b) + s.sent, Between(w.yx, b, a), w.x.online, w.y.online)
    {
      assert PairOk(w, a, b);
      PairWritable(a, e, w.y.ends[b], Between(w.xy, a, b), Between(w.yx, b, a), script, w.x.online, w.y.online);
    }
    TouchInv(w, a, s.end, s.sent, false);
  }

  lemma ReadableFits(w: World, a: Id, ev: Event)
    requires a in w.x.ends && EndInv(w.x.ends[a]) && !w.x.ends[a].phase.Closed? && !w.x.ends[a].phase.Smart?
    requires (Live(w.x.ends[a]) ==> w.x.online) && a != 0
    requires w.x.ends[a].phase.Connected? ==> Linked(w.x, w.y, a, w.x.ends[a].phase.peer)
    ensures var s := OnReadable(a, w.x.ends[a], ev, w.x.limit); Fits(w, a, s.end, s.sent, false)
  {
    ReadableEnd(a, w.x.ends[a], ev, w.x.limit);
  }

  lemma ReadableTouches(w: World, a: Id, ev: Event)
    requires Inv(w) && a in w.x.ends && !w.x.ends[a].phase.Closed? && !w.x.ends[a].phase.Smart?
    ensures var s := OnReadable(a, w.x.ends[a], ev, w.x.limit); Inv(Touch(w, a, s.end, s.sent, false))
  {
    var e := w.x.ends[a];
    var s := OnReadable(a, e, ev, w.x.limit);
    ReadableFits(w, a, ev);
    forall b | Linked(w.x, w.y, a, b)
      ensures PairInv(s.end, w.y.ends[b], Between(w.xy, a, b) + s.sent, Between(w.yx, b, a), w.x.online, w.y.online)
    {
      assert PairOk(w, a, b);
      PairReadable(a, e, w.y.ends[b], Between(w.xy, a, b), Between(w.yx, b, a), ev, w.x.limit, w.x.online, w.y.online);
    }
    TouchInv(w, a, s.end, s.sent, false);
  }

  /** Sending the OPEN of an end that never sent one. */
  lemma OpenSent(w: World, a: Id, dest: bytes)
    requires Inv(w) && a in w.x.ends
    requires PacketInv(w.x, w.y, Open(a, dest))
    requires forall b :: !Linked(w.x, w.y, a, b)
    requires forall p :: p in w.xy && p.Open? ==> p.src != a
    ensures Inv(w.(xy := w.xy + [Open(a, dest)]))
  {
    var outs := [Open(a, dest)];
    var w' := w.(xy := w.xy + outs);
    forall c | c in w.y.ends && w.y.ends[c].origin.Service?
      ensures OpenerInv(w.x, w'.xy, w.y.ends[c].origin.opener)
    {
      assert OpenerInv(w.x, w.xy, w.y.ends[c].origin.opener);
      assert w.y.ends[c].origin == Service(a) ==> Linked(w.x, w.y, a, c);
    }
    forall c, b | Linked(w'.x, w'.y, c, b) ensures PairOk(w', c, b) {
      assert PairOk(w, c, b);
      BetweenNone(outs, c, b);
      BetweenAppend(w.xy, outs, c, b);
      assert Between(w'.xy, c, b) == Between(w.xy, c, b);
    }
  }

  /** What a read does at the smart-socket stage. */
  lemma SmartReadShape(a: Id, e: End, ev: Event, limit: nat)
    requires e.phase.Smart? && EndInv(e)
    ensures var s := OnReadable(a, e, ev, limit);
            && EndInv(s.end) && s.end.origin == e.origin && !s.end.phase.Connected?
            && s.end.handed == [] && s.end.accepted == []
            && (OnTransport(s.end) ==> Reaches(ev.ask) || OnTransport(e))
            && (s.sent == [] || (|s.sent| == 1 && s.sent[0].Open? && s.sent[0].src == a && !s.end.phase.Smart?))
  {
    ReadableEnd(a, e, ev, limit);
    var r := Pull(ReadLimit(e, limit), ev.input);
    RouteShape(a, e, r.data, r.eof, ev, ReadLimit(e, limit));
  }

  lemma SmartReadFits(w: World, a: Id, ev: Event)
    requires a in w.x.ends && w.x.ends[a].phase.Smart? && EndInv(w.x.ends[a])
    requires (OnTransport(w.x.ends[a]) ==> w.x.online) && (Reaches(ev.ask) ==> w.x.online)
    ensures Fits(w, a, OnReadable(a, w.x.ends[a], ev, w.x.limit).end, [], false)
  {
    SmartReadShape(a, w.x.ends[a], ev, w.x.limit);
  }

  lemma SmartReadTouches(w: World, a: Id, ev: Event)
    requires Inv(w) && a in w.x.ends && w.x.ends[a].phase.Smart? && (Reaches(ev.ask) ==> w.x.online)
    ensures var s := OnReadable(a, w.x.ends[a], ev, w.x.limit); Inv(Touch(w, a, s.end, s.sent, false))
  {
    var s := OnReadable(a, w.x.ends[a], ev, w.x.limit);
    SmartReadFits(w, a, ev);
    SmartUnlinked(w, a);
    TouchInv(w, a, s.end, [], false);
    var w1 := Touch(w, a, s.end, [], false);
    assert w1.xy == w.xy;
    SmartReadShape(a, w.x.ends[a], ev, w.x.limit);
    if s.sent != [] {
      forall b ensures !Linked(w1.x, w1.y, a, b) { SameLinks(w, a, s.end, a, b); }
      OpenSent(w1, a, s.sent[0].dest);
      assert s.sent == [Open(a, s.sent[0].dest)];
    }
    assert w1.(xy := w.xy + s.sent) == Touch(w, a, s.end, s.sent, false);
  }

  /** The callback as a change of one end, or two in a row when it both writes and reads. */
  lemma EventTouches(w: World, a: Id, ev: Event)
    requires a in w.x.ends
    ensures var e := w.x.ends[a]; var c := OnEvent(a, e, ev, w.x.limit); var w' := Touch(w, a, c.end, c.sent, false);
            if ev.writable then
              var s := OnWritable(a, e, ev.writes);
              var w1 := Touch(w, a, s.end, s.sent, false);
              if s.finished || !ev.readable then w' == w1
              else var r := OnReadable(a, s.end, ev, w.x.limit); w' == Touch(w1, a, r.end, r.sent, false)
            else if ev.readable then
              var r := OnReadable(a, e, ev, w.x.limit); w' == Touch(w, a, r.end, r.sent, false)
            else w' == w
  {
    var e := w.x.ends[a];
    if ev.writable {
      var s := OnWritable(a, e, ev.writes);
      var r := OnReadable(a, s.end, ev, w.x.limit);
      assert w.xy + s.sent + r.sent == w.xy + (s.sent + r.sent);
      assert w.x.ends[a := s.end][a := r.end] == w.x.ends[a := r.end];
    } else if !ev.readable {
      assert w.x.ends[a := e] == w.x.ends;
      assert w.xy + [] == w.xy;
    }
  }

  lemma DispatchTouches(w: World, a: Id, ev: Event)
    requires Happens(w.x, a, ev)
    ensures var c := OnEvent(a, w.x.ends[a], ev, w.x.limit); StepX(w, Dispatch(a, ev)) == Touch(w, a, c.end, c.sent, false)
  {
  }

  lemma DispatchInv(w: World, a: Id, ev: Event)
    requires Inv(w)
    ensures Inv(StepX(w, Dispatch(a, ev)))
  {
    if Happens(w.x, a, ev) {
      var e := w.x.ends[a];
      DispatchTouches(w, a, ev);
      EventTouches(w, a, ev);
      if ev.writable {
        WritableTouches(w, a, ev.writes);
        var s := OnWritable(a, e, ev.writes);
        WritableEnd(a, e, ev.writes);
        if !s.finished && ev.readable {
          ReadableTouches(Touch(w, a, s.end, s.sent, false), a, ev);
        }
      } else if ev.readable {
        if e.phase.Smart? { SmartReadTouches(w, a, ev); } else { ReadableTouches(w, a, ev); }
      }
    }
  }

  // ----- the transport goes offline -----

  function CloseAll(w: World, id: Id): World
  {
    w.(x := CloseFrom(w.x, id).ep, xy := w.xy + CloseFrom(w.x, id).sent)
  }

  lemma CloseAllTouches(w: World, id: Id)
    requires id < w.x.nextId && id in w.x.ends && OnTransport(w.x.ends[id])
    ensures var s := Close(id, w.x.ends[id], false);
            CloseAll(w, id) == CloseAll(Touch(w, id, s.end, s.sent, false), id + 1)
  {
    var s := Close(id, w.x.ends[id], false);
    var r := CloseFrom(Put(w.x, id, s.end), id + 1);
    assert w.xy + s.sent + r.sent == w.xy + (s.sent + r.sent);
  }

  lemma CloseAllSkips(w: World, id: Id)
    ensures id >= w.x.nextId ==> CloseAll(w, id) == w
    ensures id < w.x.nextId && !(id in w.x.ends && OnTransport(w.x.ends[id])) ==> CloseAll(w, id) == CloseAll(w, id + 1)
  {
    assert w.xy + [] == w.xy;
  }

  lemma CloseOneInv(w: World, id: Id)
    requires Inv(w) && id < w.x.nextId && id in w.x.ends && OnTransport(w.x.ends[id])
    ensures var s := Close(id, w.x.ends[id], false);
            var w' := Touch(w, id, s.end, s.sent, false);
            Inv(w') && w'.x.nextId == w.x.nextId && CloseAll(w, id) == CloseAll(w', id + 1)
  {
    CloseTouches(w, id, false);
    CloseAllTouches(w, id);
  }

  lemma {:induction false} CloseAllInv(w: World, id: Id)
    requires Inv(w)
    ensures Inv(CloseAll(w, id))
    decreases w.x.nextId - id
  {
    CloseAllSkips(w, id);
    if id < w.x.nextId {
      if id in w.x.ends && OnTransport(w.x.ends[id]) {
        CloseOneInv(w, id);
        var s := Close(id, w.x.ends[id], false);
        CloseAllInv(Touch(w, id, s.end, s.sent, false), id + 1);
      } else {
        CloseAllInv(w, id + 1);
      }
    }
  }

  /** close_all_sockets leaves no socket in the live list that refers to the transport, itself or through its peer. */
  lemma {:induction false} NoneLeft(ep: Endpoint, id: Id)
    requires forall a :: a in ep.ends ==> a < ep.nextId
    requires forall a :: a in ep.ends && a < id ==> !OnTransport(ep.ends[a])
    ensures var ep' := CloseFrom(ep, id).ep;
            ep'.ends.Keys == ep.ends.Keys && forall a :: a in ep'.ends ==> !OnTransport(ep'.ends[a])
    decreases ep.nextId - id
  {
    if id >= ep.nextId {
    } else if id in ep.ends && OnTransport(ep.ends[id]) {
      NoneLeft(Put(ep, id, Close(id, ep.ends[id], false).end), id + 1);
    } else {
      NoneLeft(ep, id + 1);
    }
  }

  lemma OfflineInv(w: World)
    requires Inv(w)
    ensures Inv(StepX(w, GoOffline))
  {
    CloseAllInv(w, 1);
    NoneLeft(w.x, 1);
    SetOffline(CloseAll(w, 1));
  }

  lemma SetOffline(w: World)
    requires Inv(w)
    requires forall a :: a in w.x.ends ==> !OnTransport(w.x.ends[a])
    ensures Inv(w.(x := w.x.(online := false)))
  {
    var w' := w.(x := w.x.(online := false));
    forall a, b | Linked(w'.x, w'.y, a, b) ensures PairOk(w', a, b) {
      assert Linked(w.x, w.y, a, b);
      assert PairOk(w, a, b);
    }
    assert forall p :: PacketInv(w.x, w.y, p) == PacketInv(w'.x, w'.y, p);
    assert forall p :: PacketInv(w.y, w.x, p) == PacketInv(w'.y, w'.x, p);
    assert forall b :: OpenerInv(w.x, w.xy, b) == OpenerInv(w'.x, w'.xy, b);
  }

  // ----- every run -----

  lemma StepXInv(w: World, a: Action)
    requires Inv(w)
    ensures Inv(StepX(w, a))
  {
    match a
    case AcceptClient =>
      assert Flat([]) == [];
      InstallUnlinked(w, NewEnd(Client, Smart([], false), true), []);
      assert w.xy + [] == w.xy;
    case AcceptForward(dest) =>
      if w.x.online && !Oversized(dest, w.x.limit) {
        assert Flat([]) == [];
        InstallUnlinked(w, NewEnd(Forward, Opening, false), [Open(w.x.nextId, dest)]);
      }
    case Dispatch(id, ev) => DispatchInv(w, id, ev);
    case Receive(accept, script) => ReceiveInv(w, accept, script);
    case GoOffline => OfflineInv(w);
  }

  /** Every step of either endpoint keeps the invariant. */
  lemma StepInv(w: World, t: Turn)
    requires Inv(w)
    ensures Inv(Step(w, t))
  {
    if t.host {
      StepXInv(w, t.action);
    } else {
      SwapInv(w);
      StepXInv(Swap(w), t.action);
      SwapInv(StepX(Swap(w), t.action));
    }
  }

  lemma {:induction false} RunInv(w: World, turns: seq<Turn>)
    requires Inv(w)
    ensures Inv(Run(w, turns))
    decreases |turns|
  {
    if turns != [] {
      StepInv(w, turns[0]);
      RunInv(Step(w, turns[0]), turns[1..]);
    }
  }
}
