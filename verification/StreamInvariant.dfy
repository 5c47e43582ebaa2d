/**
 The invariant behind every whole-run property of the stream protocol. It is stated per
 pair of linked ends, over the packets in flight between the two, so that a step needs to
 be examined only on the pair it touches.
 */
module StreamInvariant {
  import opened Base
  import opened Descriptors
  import opened SmartSocket
  import opened Streams

  // ----- packets in flight between two ends -----

  /** The packets of a channel that go from end `a` to end `b`, in order. */
  function Between(ch: seq<Packet>, a: Id, b: Id): seq<Packet>
  {
    if ch == [] then []
    else if !ch[0].Open? && ch[0].src == a && ch[0].dst == b then [ch[0]] + Between(ch[1..], a, b)
    else Between(ch[1..], a, b)
  }

  function Data(ps: seq<Packet>): bytes
  {
    if ps == [] then [] else (if ps[0].Wrte? then ps[0].data else []) + Data(ps[1..])
  }

  function Writes(ps: seq<Packet>): nat
  {
    if ps == [] then 0 else (if ps[0].Wrte? then 1 else 0) + Writes(ps[1..])
  }

  function Okays(ps: seq<Packet>): nat
  {
    if ps == [] then 0 else (if ps[0].Okay? then 1 else 0) + Okays(ps[1..])
  }

  function Closes(ps: seq<Packet>): nat
  {
    if ps == [] then 0 else (if ps[0].Clse? then 1 else 0) + Closes(ps[1..])
  }

  lemma {:induction false} BetweenAppend(ch: seq<Packet>, more: seq<Packet>, a: Id, b: Id)
    ensures Between(ch + more, a, b) == Between(ch, a, b) + Between(more, a, b)
  {
    if ch == [] {
      assert ch + more == more;
    } else {
      assert (ch + more)[1..] == ch[1..] + more;
      BetweenAppend(ch[1..], more, a, b);
    }
  }

  lemma {:induction false} BetweenNone(ch: seq<Packet>, a: Id, b: Id)
    requires forall p :: p in ch && !p.Open? ==> p.src != a || p.dst != b
    ensures Between(ch, a, b) == []
  {
    if ch != [] {
      assert ch[0] in ch;
      assert forall p :: p in ch[1..] ==> p in ch;
      BetweenNone(ch[1..], a, b);
    }
  }

  lemma {:induction false} BetweenAll(ch: seq<Packet>, a: Id, b: Id)
    requires forall p :: p in ch ==> !p.Open? && p.src == a && p.dst == b
    ensures Between(ch, a, b) == ch
  {
    if ch != [] {
      assert ch[0] in ch;
      assert forall p :: p in ch[1..] ==> p in ch;
      BetweenAll(ch[1..], a, b);
    }
  }

  lemma {:induction false} CountsAppend(ps: seq<Packet>, qs: seq<Packet>)
    ensures Data(ps + qs) == Data(ps) + Data(qs)
    ensures Writes(ps + qs) == Writes(ps) + Writes(qs)
    ensures Okays(ps + qs) == Okays(ps) + Okays(qs)
    ensures Closes(ps + qs) == Closes(ps) + Closes(qs)
  {
    if ps == [] {
      assert ps + qs == qs;
    } else {
      assert (ps + qs)[1..] == ps[1..] + qs;
      CountsAppend(ps[1..], qs);
    }
  }

  lemma CountsOne(p: Packet)
    ensures Data([p]) == if p.Wrte? then p.data else []
    ensures Writes([p]) == if p.Wrte? then 1 else 0
    ensures Okays([p]) == if p.Okay? then 1 else 0
    ensures Closes([p]) == if p.Clse? then 1 else 0
  {
    assert [p][1..] == [];
  }

  // ----- one end -----

  /** What holds of a local socket on its own, whatever the other side does. */
  predicate EndInv(e: End)
  {
    && (if e.phase.Closed? then e.written <= e.accepted && e.queue == []
        else e.written + Flat(e.queue) == e.accepted)
    && (e.phase.Smart? || e.phase.Opening? ==> e.queue == [] && e.handed == [] && e.accepted == [])
    && (e.phase.Draining? ==> e.queue != [])
    && (!Live(e) && !e.phase.Smart? ==> !e.readOn)
    && (e.phase.Opening? ==> !e.readOn)
    && (e.phase.Smart? ==> e.origin.Client?) && (e.phase.Opening? ==> !e.origin.Service?)
    && StatusInv(e)
  }

  /** A routed client reads OKAY before any stream byte, or FAIL and no stream byte. */
  predicate StatusInv(e: End)
  {
    && (e.origin.Client? && e.accepted != [] ==> e.status.SaidOkay?)
    && (e.origin.Client? && e.phase.Connected? ==> e.status.SaidOkay?)
    && ((e.phase.Smart? || e.phase.Opening?) ==> e.status.Silent?)
    && (!e.origin.Client? ==> e.status.Silent?)
  }

  // ----- two linked ends -----

  /** Flow-control tokens of the direction from `a` to `b`. */
  function Tokens(a: End, b: End, ab: seq<Packet>, ba: seq<Packet>): nat
  {
    (if a.readOn then 1 else 0) + Writes(ab) + |b.queue| + Okays(ba)
  }

  /**
   The direction from end `a` to end `b`, given the packets in flight each way; `up` says that
   the endpoint of `a` is online.
   */
  predicate Flow(a: End, b: End, ab: seq<Packet>, ba: seq<Packet>, up: bool)
  {
    // in order, nothing lost while the receiver lives
    && (if Live(b) then b.accepted + Data(ab) == a.handed else b.accepted <= a.handed)
    // the READY that connects an opening end comes before anything else
    && (b.phase.Opening? ==> ab != [] && ab[0].Okay?)
    // flow control
    && (Live(a) && Live(b) ==> 1 <= Tokens(a, b, ab, ba) <= 1 + a.faked)
    // an end that outlives its peer will hear of it
    && (up && !Live(a) && Live(b) ==> Closes(ab) > 0 || Okays(ba) > 0)
  }

  predicate PairInv(a: End, b: End, ab: seq<Packet>, ba: seq<Packet>, upA: bool, upB: bool)
  {
    Flow(a, b, ab, ba, upA) && Flow(b, a, ba, ab, upB)
  }

  // ----- the whole world -----

  /** Ends `a` of `x` and `b` of `y` belong to one stream: one was created for the other's OPEN. */
  predicate Linked(x: Endpoint, y: Endpoint, a: Id, b: Id)
  {
    && a in x.ends && b in y.ends
    && (x.ends[a].origin == Service(b) || y.ends[b].origin == Service(a))
  }

  predicate EndsInv(x: Endpoint)
  {
    && 1 <= x.nextId
    && (forall a :: a in x.ends ==> 1 <= a < x.nextId && EndInv(x.ends[a]))
    && (!x.online ==> forall a :: a in x.ends ==> !OnTransport(x.ends[a]))
  }

  /** Services of `x` against their openers in `y`. */
  predicate ServicesInv(x: Endpoint, y: Endpoint, yx: seq<Packet>)
  {
    && (forall a :: a in x.ends && x.ends[a].origin.Service? ==>
          OpenerInv(y, yx, x.ends[a].origin.opener))
    && (forall a, a' :: a in x.ends && a' in x.ends && x.ends[a].origin.Service? && a != a' ==>
          x.ends[a'].origin != x.ends[a].origin)
  }

  /** Once served, an opener is known, is not itself a service, and has no OPEN in flight. */
  predicate OpenerInv(y: Endpoint, yx: seq<Packet>, b: Id)
  {
    && b in y.ends && !y.ends[b].origin.Service? && !y.ends[b].phase.Smart?
    && (forall p :: p in yx && p.Open? ==> p.src != b)
  }

  predicate PacketInv(x: Endpoint, y: Endpoint, p: Packet)
  {
    match p
    case Open(a, _) =>
      && a in x.ends && !x.ends[a].origin.Service? && !x.ends[a].phase.Smart? && !x.ends[a].phase.Connected?
      && x.ends[a].handed == [] && x.ends[a].accepted == []
    case Clse(a, b) => if a == 0 then b in y.ends else Linked(x, y, a, b)
    case Okay(a, b) => Linked(x, y, a, b)
    case Wrte(a, b, d) => Linked(x, y, a, b) && 0 < |d| <= x.limit
  }

  predicate ChannelInv(x: Endpoint, y: Endpoint, xy: seq<Packet>)
  {
    && (forall p :: p in xy ==> PacketInv(x, y, p))
    && (forall i, j :: 0 <= i < j < |xy| && xy[i].Open? && xy[j].Open? ==> xy[i].src != xy[j].src)
  }

  predicate ConnectedInv(x: Endpoint, y: Endpoint)
  {
    forall a :: a in x.ends && x.ends[a].phase.Connected? ==> Linked(x, y, a, x.ends[a].phase.peer)
  }

  predicate HalfInv(w: World)
  {
    && EndsInv(w.x)
    && ServicesInv(w.x, w.y, w.yx)
    && ChannelInv(w.x, w.y, w.xy)
    && ConnectedInv(w.x, w.y)
  }

  predicate PairOk(w: World, a: Id, b: Id)
    requires Linked(w.x, w.y, a, b)
  {
    PairInv(w.x.ends[a], w.y.ends[b], Between(w.xy, a, b), Between(w.yx, b, a), w.x.online, w.y.online)
  }

  ghost predicate PairsInv(w: World)
  {
    forall a, b :: Linked(w.x, w.y, a, b) ==> PairOk(w, a, b)
  }

  ghost predicate Inv(w: World)
  {
    HalfInv(w) && HalfInv(Swap(w)) && PairsInv(w)
  }

  lemma StartInv(limit: nat)
    ensures Inv(Start(limit))
  {
  }

  lemma SwapInv(w: World)
    requires Inv(w)
    ensures Inv(Swap(w))
  {
    forall a, b | Linked(w.y, w.x, a, b)
      ensures PairOk(Swap(w), a, b)
    {
      assert Linked(w.x, w.y, b, a);
    }
  }

  /** A stream has exactly two ends: an end is linked to at most one end of the other side. */
  lemma LinkUnique(w: World, a: Id, b: Id, b': Id)
    requires HalfInv(w) && HalfInv(Swap(w))
    requires Linked(w.x, w.y, a, b) && Linked(w.x, w.y, a, b')
    ensures b == b'
  {
    assert w.x.ends[a].origin.Service? ==> OpenerInv(w.y, w.yx, w.x.ends[a].origin.opener);
    assert w.y.ends[b].origin.Service? ==> OpenerInv(w.x, w.xy, w.y.ends[b].origin.opener);
    assert w.y.ends[b'].origin.Service? ==> OpenerInv(w.x, w.xy, w.y.ends[b'].origin.opener);
  }

  // ----- a step that changes one end -----

  function Put(x: Endpoint, a: Id, e: End): Endpoint
  {
    x.(ends := x.ends[a := e])
  }

  function Rest(ch: seq<Packet>, pop: bool): seq<Packet>
    requires pop ==> ch != []
  {
    if pop then ch[1..] else ch
  }

  /** World after end `a` becomes `e`, sends `outs`, and possibly consumes the next packet. */
  function Touch(w: World, a: Id, e: End, outs: seq<Packet>, pop: bool): World
    requires pop ==> w.yx != []
  {
    World(Put(w.x, a, e), w.y, w.xy + outs, Rest(w.yx, pop))
  }

  /** The new end fits the world around it. */
  ghost predicate Fits(w: World, a: Id, e: End, outs: seq<Packet>, pop: bool)
  {
    && a in w.x.ends
    && EndInv(e)
    && e.origin == w.x.ends[a].origin
    && (OnTransport(e) ==> w.x.online)
    && (e.phase.Smart? ==> w.x.ends[a].phase.Smart?)
    && (e.phase.Connected? ==> Linked(w.x, w.y, a, e.phase.peer))
    && (w.x.ends[a].phase.Connected? || (e.handed == w.x.ends[a].handed && e.accepted == w.x.ends[a].accepted))
    && (forall p :: p in outs ==> !p.Open? && p.src == a && PacketInv(w.x, w.y, p))
    && (pop ==> w.yx != [] && !w.yx[0].Open? && w.yx[0].dst == a)
  }

  lemma SameLinks(w: World, a: Id, e: End, c: Id, b: Id)
    requires a in w.x.ends && e.origin == w.x.ends[a].origin
    ensures Linked(Put(w.x, a, e), w.y, c, b) <==> Linked(w.x, w.y, c, b)
    ensures Linked(w.y, Put(w.x, a, e), b, c) <==> Linked(w.y, w.x, b, c)
  {
  }

  /** An opener with its OPEN still in flight is not connected. */
  lemma NotYetServed(w: World, p: Packet)
    requires HalfInv(w) && HalfInv(Swap(w))
    requires p in w.xy && p.Open?
    ensures forall b :: !Linked(w.x, w.y, p.src, b)
  {
    assert PacketInv(w.x, w.y, p);
    assert forall b :: b in w.y.ends && w.y.ends[b].origin.Service? ==>
             OpenerInv(w.x, w.xy, w.y.ends[b].origin.opener);
  }

  lemma TouchChannels(w: World, a: Id, e: End, outs: seq<Packet>, pop: bool)
    requires HalfInv(w) && HalfInv(Swap(w))
    requires Fits(w, a, e, outs, pop)
    ensures ChannelInv(Put(w.x, a, e), w.y, w.xy + outs)
    ensures ChannelInv(w.y, Put(w.x, a, e), Rest(w.yx, pop))
  {
    var x' := Put(w.x, a, e);
    forall p | p in w.xy + outs ensures PacketInv(x', w.y, p) {
      if p in w.xy && p.Open? {
        NotYetServed(w, p);
        assert PacketInv(w.x, w.y, p);
        if p.src == a {
          assert !w.x.ends[a].phase.Connected?;
          assert e.phase.Connected? ==> Linked(w.x, w.y, a, e.phase.peer);
        }
      } else {
        assert PacketInv(w.x, w.y, p);
        SameLinks(w, a, e, p.src, p.dst);
      }
    }
    var yx' := Rest(w.yx, pop);
    forall p | p in yx' ensures PacketInv(w.y, x', p) {
      assert p in w.yx;
      assert PacketInv(w.y, w.x, p);
      if !p.Open? { SameLinks(w, a, e, p.dst, p.src); }
    }
  }

  lemma TouchServices(w: World, a: Id, e: End, outs: seq<Packet>, pop: bool)
    requires HalfInv(w) && HalfInv(Swap(w))
    requires Fits(w, a, e, outs, pop)
    ensures ServicesInv(Put(w.x, a, e), w.y, Rest(w.yx, pop))
    ensures ServicesInv(w.y, Put(w.x, a, e), w.xy + outs)
  {
    var x' := Put(w.x, a, e);
    var yx' := Rest(w.yx, pop);
    forall c | c in x'.ends && x'.ends[c].origin.Service?
      ensures OpenerInv(w.y, yx', x'.ends[c].origin.opener)
    {
      assert OpenerInv(w.y, w.yx, w.x.ends[c].origin.opener);
      assert forall p :: p in yx' ==> p in w.yx;
    }
    forall c | c in w.y.ends && w.y.ends[c].origin.Service?
      ensures OpenerInv(x', w.xy + outs, w.y.ends[c].origin.opener)
    {
      assert OpenerInv(w.x, w.xy, w.y.ends[c].origin.opener);
    }
  }

  lemma TouchHalves(w: World, a: Id, e: End, outs: seq<Packet>, pop: bool)
    requires HalfInv(w) && HalfInv(Swap(w))
    requires Fits(w, a, e, outs, pop)
    ensures HalfInv(Touch(w, a, e, outs, pop)) && HalfInv(Swap(Touch(w, a, e, outs, pop)))
  {
    var w' := Touch(w, a, e, outs, pop);
    TouchChannels(w, a, e, outs, pop);
    TouchServices(w, a, e, outs, pop);
    forall c | c in w'.x.ends && w'.x.ends[c].phase.Connected?
      ensures Linked(w'.x, w.y, c, w'.x.ends[c].phase.peer)
    {
      SameLinks(w, a, e, c, w'.x.ends[c].phase.peer);
    }
    forall c | c in w.y.ends && w.y.ends[c].phase.Connected?
      ensures Linked(w.y, w'.x, c, w.y.ends[c].phase.peer)
    {
      SameLinks(w, a, e, w.y.ends[c].phase.peer, c);
    }
  }

  /** The pair that is touched. */
  lemma TouchOwnPair(w: World, a: Id, e: End, outs: seq<Packet>, pop: bool, b: Id)
    requires HalfInv(w) && HalfInv(Swap(w))
    requires Fits(w, a, e, outs, pop)
    requires Linked(w.x, w.y, a, b)
    ensures Between(w.xy + outs, a, b) == Between(w.xy, a, b) + outs
  {
    forall p | p in outs ensures p.dst == b {
      assert PacketInv(w.x, w.y, p);
      LinkUnique(w, a, b, p.dst);
    }
    BetweenAll(outs, a, b);
    BetweenAppend(w.xy, outs, a, b);
  }

  /** Any other pair sees the same ends and the same packets in flight. */
  lemma TouchOtherPair(w: World, a: Id, e: End, outs: seq<Packet>, pop: bool, c: Id, b: Id)
    requires Fits(w, a, e, outs, pop)
    requires c != a
    ensures Between(w.xy + outs, c, b) == Between(w.xy, c, b)
    ensures Between(Rest(w.yx, pop), b, c) == Between(w.yx, b, c)
  {
    BetweenNone(outs, c, b);
    BetweenAppend(w.xy, outs, c, b);
  }

  /**
   A step on one end keeps the invariant as soon as it keeps it on that end's own pair:
   no other stream can notice.
   */
  lemma TouchInv(w: World, a: Id, e: End, outs: seq<Packet>, pop: bool)
    requires Inv(w)
    requires Fits(w, a, e, outs, pop)
    requires forall b :: Linked(w.x, w.y, a, b) ==>
               PairInv(e, w.y.ends[b], Between(w.xy, a, b) + outs, Between(Rest(w.yx, pop), b, a), w.x.online, w.y.online)
    ensures Inv(Touch(w, a, e, outs, pop))
  {
    var w' := Touch(w, a, e, outs, pop);
    TouchHalves(w, a, e, outs, pop);
    forall c, b | Linked(w'.x, w'.y, c, b)
      ensures PairOk(w', c, b)
    {
      SameLinks(w, a, e, c, b);
      if c == a {
        TouchOwnPair(w, a, e, outs, pop, b);
      } else {
        assert PairOk(w, c, b);
        TouchOtherPair(w, a, e, outs, pop, c, b);
      }
    }
  }
}
