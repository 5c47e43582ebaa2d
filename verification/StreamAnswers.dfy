/**
 Every OPEN is answered: while an end is opening, its OPEN, the stream it became part of, or
 the CLOSE that refuses it exists somewhere; so with empty channels nobody is left waiting.
 */
module StreamAnswers {
  import opened Base
  import opened Descriptors
  import opened SmartSocket
  import opened Streams
  import opened StreamInvariant
  import opened StreamPairs
  import opened StreamRuns

  predicate HasOpen(ch: seq<Packet>, a: Id)
  {
    exists i :: 0 <= i < |ch| && ch[i].Open? && ch[i].src == a
  }

  ghost predicate Answered(x: Endpoint, y: Endpoint, xy: seq<Packet>, yx: seq<Packet>, a: Id)
  {
    HasOpen(xy, a) || (exists b :: Linked(x, y, a, b)) || Clse(0, a) in yx
  }

  ghost predicate AllAnswered(w: World)
  {
    w.y.online ==> forall a :: a in w.x.ends && w.x.ends[a].phase.Opening? ==> Answered(w.x, w.y, w.xy, w.yx, a)
  }

  /** What every step of `x` does to `x`: ends stay, keep their origin, and reopen for nobody. */
  predicate Grows(x: Endpoint, x': Endpoint, sent: seq<Packet>)
  {
    && (forall a :: a in x.ends ==> a in x'.ends && x'.ends[a].origin == x.ends[a].origin)
    && (forall a :: a in x'.ends && x'.ends[a].phase.Opening? ==>
          (a in x.ends && x.ends[a].phase.Opening?) || HasOpen(sent, a))
    && (x'.online ==> x.online)
  }

  lemma {:induction false} CloseFromGrows(x: Endpoint, id: Id)
    ensures Grows(x, CloseFrom(x, id).ep, CloseFrom(x, id).sent)
    ensures forall p :: p in CloseFrom(x, id).sent ==> !p.Open?
    decreases x.nextId - id
  {
    if id < x.nextId {
      if id in x.ends && OnTransport(x.ends[id]) {
        var s := Update(x, id, Close(id, x.ends[id], false));
        CloseFromGrows(s.ep, id + 1);
      } else {
        CloseFromGrows(x, id + 1);
      }
    }
  }

  lemma EventGrows(id: Id, e: End, ev: Event, limit: nat)
    ensures var s := OnEvent(id, e, ev, limit);
            && s.end.origin == e.origin
            && (s.end.phase.Opening? ==> e.phase.Opening? || HasOpen(s.sent, id))
  {
    if !ev.writable && ev.readable {
      ReadGrows(id, e, ev, limit);
    } else if ev.writable {
      var w := OnWritable(id, e, ev.writes);
      if !w.finished && ev.readable {
        ReadGrows(id, w.end, ev, limit);
        var r := OnReadable(id, w.end, ev, limit);
        if HasOpen(r.sent, id) {
          var i :| 0 <= i < |r.sent| && r.sent[i].Open? && r.sent[i].src == id;
          assert (w.sent + r.sent)[|w.sent| + i] == r.sent[i];
        }
      }
    }
  }

  lemma ReadGrows(id: Id, e: End, ev: Event, limit: nat)
    ensures var s := OnReadable(id, e, ev, limit);
            && s.end.origin == e.origin
            && (s.end.phase.Opening? ==> e.phase.Opening? || HasOpen(s.sent, id))
  {
    var s := OnReadable(id, e, ev, limit);
    if e.phase.Smart? {
      var r := Pull(ReadLimit(e, limit), ev.input);
      RouteShape(id, e, r.data, r.eof, ev, ReadLimit(e, limit));
    }
    if s.sent != [] && s.sent[0].Open? { assert HasOpen(s.sent, id); }
  }

  lemma HandleGrows(x: Endpoint, p: Packet, accept: bool, script: seq<WriteResult>)
    requires x.nextId !in x.ends
    ensures var s := Handle(x, p, accept, script); Grows(x, s.ep, s.sent)
  {
  }

  /** A channel that only grows, and a table that only grows, keep every answer. */
  lemma AnswerKept(x: Endpoint, y: Endpoint, xy: seq<Packet>, yx: seq<Packet>, a: Id, x': Endpoint, sent: seq<Packet>)
    requires Answered(x, y, xy, yx, a) && Grows(x, x', sent)
    ensures HasOpen(xy + sent, a) || (exists b :: Linked(x', y, a, b)) || Clse(0, a) in yx
  {
    if HasOpen(xy, a) {
      var i :| 0 <= i < |xy| && xy[i].Open? && xy[i].src == a;
      assert (xy + sent)[i] == xy[i];
    } else if b :| Linked(x, y, a, b) {
      assert Linked(x', y, a, b);
    }
  }

  lemma SentOpen(xy: seq<Packet>, sent: seq<Packet>, a: Id)
    requires HasOpen(sent, a)
    ensures HasOpen(xy + sent, a)
  {
    var i :| 0 <= i < |sent| && sent[i].Open? && sent[i].src == a;
    assert (xy + sent)[|xy| + i] == sent[i];
  }

  /** A step of `x` that consumes no packet. */
  lemma GrowAnswered(w: World, x': Endpoint, sent: seq<Packet>)
    requires AllAnswered(w) && AllAnswered(Swap(w)) && Grows(w.x, x', sent)
    ensures var w' := World(x', w.y, w.xy + sent, w.yx); AllAnswered(w') && AllAnswered(Swap(w'))
  {
    var w' := World(x', w.y, w.xy + sent, w.yx);
    if w.y.online {
      forall a | a in x'.ends && x'.ends[a].phase.Opening? ensures Answered(x', w.y, w'.xy, w.yx, a) {
        if a in w.x.ends && w.x.ends[a].phase.Opening? {
          AnswerKept(w.x, w.y, w.xy, w.yx, a, x', sent);
        } else {
          SentOpen(w.xy, sent, a);
        }
      }
    }
    if x'.online {
      forall b | b in w.y.ends && w.y.ends[b].phase.Opening? ensures Answered(w.y, x', w.yx, w'.xy, b) {
        assert Answered(w.y, w.x, w.yx, w.xy, b);
        if a :| Linked(w.y, w.x, b, a) { assert Linked(w.y, x', b, a); }
      }
    }
  }

  /** The packet that is consumed answers nobody else. */
  lemma ReceiveAnswered(w: World, accept: bool, script: seq<WriteResult>)
    requires Inv(w) && AllAnswered(w) && AllAnswered(Swap(w)) && w.yx != []
    ensures var w' := StepX(w, Receive(accept, script)); AllAnswered(w') && AllAnswered(Swap(w'))
  {
    var s := Handle(w.x, w.yx[0], accept, script);
    var w' := StepX(w, Receive(accept, script));
    HandleGrows(w.x, w.yx[0], accept, script);
    GrowAnswered(w, s.ep, s.sent);
    var w1 := World(s.ep, w.y, w.xy + s.sent, w.yx);
    if w.y.online {
      forall a | a in s.ep.ends && s.ep.ends[a].phase.Opening? ensures Answered(s.ep, w.y, w'.xy, w'.yx, a) {
        assert Answered(w1.x, w1.y, w1.xy, w1.yx, a);
        OpenerStillAnswered(w, accept, script, a);
      }
    }
    if s.ep.online {
      forall b | b in w.y.ends && w.y.ends[b].phase.Opening? ensures Answered(w.y, s.ep, w'.yx, w'.xy, b) {
        assert Answered(w1.y, w1.x, w1.yx, w1.xy, b);
        if HasOpen(w.yx, b) { OpenConsumed(w, accept, script, b); }
      }
    }
  }

  lemma OpenerStillAnswered(w: World, accept: bool, script: seq<WriteResult>, a: Id)
    requires EndsInv(w.x) && w.yx != []
    requires var s := Handle(w.x, w.yx[0], accept, script);
             a in s.ep.ends && s.ep.ends[a].phase.Opening? && Answered(s.ep, w.y, w.xy + s.sent, w.yx, a)
    ensures var w' := StepX(w, Receive(accept, script)); Answered(w'.x, w'.y, w'.xy, w'.yx, a)
  {
    assert a in w.x.ends by { HandleGrows(w.x, w.yx[0], accept, script); }
    RefusalCloses(w.x, a, accept, script);
    assert Clse(0, a) in w.yx && w.yx[0] != Clse(0, a) ==> Clse(0, a) in w.yx[1..];
  }

  lemma RefusalCloses(x: Endpoint, a: Id, accept: bool, script: seq<WriteResult>)
    requires EndsInv(x) && a in x.ends
    ensures !Handle(x, Clse(0, a), accept, script).ep.ends[a].phase.Opening?
  {
  }

  lemma OpenConsumed(w: World, accept: bool, script: seq<WriteResult>, b: Id)
    requires Inv(w) && w.yx != [] && w.x.online && b in w.y.ends
    requires HasOpen(w.yx, b)
    ensures var w' := StepX(w, Receive(accept, script)); Answered(w'.y, w'.x, w'.yx, w'.xy, b)
  {
    var i :| 0 <= i < |w.yx| && w.yx[i].Open? && w.yx[i].src == b;
    var w' := StepX(w, Receive(accept, script));
    if i > 0 {
      assert w'.yx[i - 1] == w.yx[i];
    } else {
      assert 1 <= b;
      if accept { assert Linked(w'.y, w'.x, b, w.x.nextId); }
      else { assert w'.xy == w.xy + [Clse(0, b)]; }
    }
  }

  lemma DispatchAnswered(w: World, id: Id, ev: Event)
    requires Inv(w) && AllAnswered(w) && AllAnswered(Swap(w))
    ensures var w' := StepX(w, Dispatch(id, ev)); AllAnswered(w') && AllAnswered(Swap(w'))
  {
    if Happens(w.x, id, ev) {
      var s := OnEvent(id, w.x.ends[id], ev, w.x.limit);
      EventGrows(id, w.x.ends[id], ev, w.x.limit);
      GrowAnswered(w, Put(w.x, id, s.end), s.sent);
    }
  }

  lemma StepXAnswered(w: World, a: Action)
    requires Inv(w) && AllAnswered(w) && AllAnswered(Swap(w))
    ensures AllAnswered(StepX(w, a)) && AllAnswered(Swap(StepX(w, a)))
  {
    var w' := StepX(w, a);
    match a
    case AcceptClient =>
      assert Grows(w.x, w'.x, []);
      GrowAnswered(w, w'.x, []);
      assert w.xy + [] == w.xy;
    case AcceptForward(dest) =>
      if w.x.online && !Oversized(dest, w.x.limit) {
        var sent := [Open(w.x.nextId, dest)];
        assert sent[0].src == w.x.nextId;
        assert HasOpen(sent, w.x.nextId);
        GrowAnswered(w, w'.x, sent);
      }
    case Dispatch(id, ev) => DispatchAnswered(w, id, ev);
    case Receive(accept, script) => if w.yx != [] { ReceiveAnswered(w, accept, script); }
    case GoOffline =>
      CloseFromGrows(w.x, 1);
      var s := CloseFrom(w.x, 1);
      assert Grows(w.x, w'.x, s.sent);
      GrowAnswered(w, w'.x, s.sent);
  }

  lemma {:induction false} RunAnswered(w: World, turns: seq<Turn>)
    requires Inv(w) && AllAnswered(w) && AllAnswered(Swap(w))
    ensures AllAnswered(Run(w, turns)) && AllAnswered(Swap(Run(w, turns)))
    decreases |turns|
  {
    if turns != [] {
      StepInv(w, turns[0]);
      if turns[0].host {
        StepXAnswered(w, turns[0].action);
      } else {
        SwapInv(w);
        StepXAnswered(Swap(w), turns[0].action);
      }
      RunAnswered(Step(w, turns[0]), turns[1..]);
    }
  }

  lemma NobodyWaits(w: World, a: Id)
    requires Inv(w) && AllAnswered(w) && w.xy == [] && w.yx == [] && w.x.online && w.y.online && a in w.x.ends
    ensures !w.x.ends[a].phase.Opening?
  {
    forall b | Linked(w.x, w.y, a, b) ensures !w.x.ends[a].phase.Opening? {
      assert PairOk(w, a, b);
    }
    assert w.x.ends[a].phase.Opening? ==> Answered(w.x, w.y, w.xy, w.yx, a);
  }

  /** With nothing in flight and both sides online, no socket of either is still waiting for its OPEN. */
  lemma NobodyLeftWaiting(limit: nat, turns: seq<Turn>, a: Id)
    requires var w := Run(Start(limit), turns); w.xy == [] && w.yx == [] && w.x.online && w.y.online
    ensures var w := Run(Start(limit), turns);
            && (a in w.x.ends ==> !w.x.ends[a].phase.Opening?)
            && (a in w.y.ends ==> !w.y.ends[a].phase.Opening?)
  {
    var w := Run(Start(limit), turns);
    StartInv(limit);
    RunInv(Start(limit), turns);
    RunAnswered(Start(limit), turns);
    SwapInv(w);
    if a in w.x.ends { NobodyWaits(w, a); }
    if a in w.y.ends { NobodyWaits(Swap(w), a); }
  }
}
