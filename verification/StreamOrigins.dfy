/** Bytes come from the other end of the stream and from nowhere else. */
module StreamOrigins {
  import opened Base
  import opened Descriptors
  import opened SmartSocket
  import opened Streams
  import opened StreamInvariant
  import opened StreamPairs
  import opened StreamRuns
  import opened StreamAnswers
  import opened StreamTheorems

  predicate Untouched(e: End)
  {
    e.handed == [] && e.accepted == []
  }

  /** Only a connected socket takes part in the exchange of bytes. */
  predicate BytesKept(was: End, e: End)
  {
    was.phase.Connected? || (e.handed == was.handed && e.accepted == was.accepted)
  }

  lemma EventBytes(id: Id, e: End, ev: Event, limit: nat)
    requires ev.writable ==> e.queue != []
    ensures BytesKept(e, OnEvent(id, e, ev, limit).end)
  {
    if ev.writable {
      var w := OnWritable(id, e, ev.writes);
      ReadBytes(id, w.end, ev, limit);
    }
    ReadBytes(id, e, ev, limit);
  }

  lemma ReadBytes(id: Id, e: End, ev: Event, limit: nat)
    ensures BytesKept(e, OnReadable(id, e, ev, limit).end)
  {
    if e.phase.Smart? {
      var r := Pull(ReadLimit(e, limit), ev.input);
      RouteShape(id, e, r.data, r.eof, ev, ReadLimit(e, limit));
    }
  }

  /** Every end of `x'` was there with the same bytes, or connected, or is new and has none. */
  predicate TableKept(x: Endpoint, x': Endpoint)
  {
    forall a :: a in x'.ends ==> if a in x.ends then BytesKept(x.ends[a], x'.ends[a]) else Untouched(x'.ends[a])
  }

  lemma {:induction false} CloseFromBytes(ep: Endpoint, id: Id)
    ensures forall a :: a in CloseFrom(ep, id).ep.ends ==>
              a in ep.ends && CloseFrom(ep, id).ep.ends[a].handed == ep.ends[a].handed
              && CloseFrom(ep, id).ep.ends[a].accepted == ep.ends[a].accepted
    decreases ep.nextId - id
  {
    if id < ep.nextId {
      if id in ep.ends && OnTransport(ep.ends[id]) {
        CloseFromBytes(Put(ep, id, Close(id, ep.ends[id], false).end), id + 1);
      } else {
        CloseFromBytes(ep, id + 1);
      }
    }
  }

  lemma HandleBytes(ep: Endpoint, p: Packet, accept: bool, script: seq<WriteResult>)
    requires ep.nextId !in ep.ends
    ensures TableKept(ep, Handle(ep, p, accept, script).ep)
  {
  }

  lemma StepXBytes(w: World, a: Action)
    requires Inv(w)
    ensures TableKept(w.x, StepX(w, a).x)
  {
    match a
    case Dispatch(id, ev) =>
      if Deliverable(w.x, id, ev) { EventBytes(id, w.x.ends[id], ev, w.x.limit); }
    case Receive(accept, script) =>
      if w.yx != [] { HandleBytes(w.x, w.yx[0], accept, script); }
    case GoOffline => CloseFromBytes(w.x, 1);
    case _ =>
  }

  /** Ends stay in the table and keep their origin, so links last. */
  predicate OriginsKept(x: Endpoint, x': Endpoint)
  {
    forall a :: a in x.ends ==> a in x'.ends && x'.ends[a].origin == x.ends[a].origin
  }

  lemma StepXOrigins(w: World, a: Action)
    requires Inv(w)
    ensures OriginsKept(w.x, StepX(w, a).x)
  {
    match a
    case Dispatch(id, ev) =>
      if Deliverable(w.x, id, ev) { EventGrows(id, w.x.ends[id], ev, w.x.limit); }
    case Receive(accept, script) =>
      if w.yx != [] { HandleGrows(w.x, w.yx[0], accept, script); }
    case GoOffline => CloseFromGrows(w.x, 1);
    case _ =>
  }

  /** An end of `x` without a counterpart in `y` has had no bytes. */
  ghost predicate LinkedOrSilent(x: Endpoint, y: Endpoint)
  {
    forall a :: a in x.ends ==> Untouched(x.ends[a]) || exists b :: Linked(x, y, a, b)
  }

  lemma StepXLinked(w: World, a: Action)
    requires Inv(w) && LinkedOrSilent(w.x, w.y) && LinkedOrSilent(w.y, w.x)
    ensures var w' := StepX(w, a); LinkedOrSilent(w'.x, w'.y) && LinkedOrSilent(w'.y, w'.x)
  {
    var x' := StepX(w, a).x;
    StepXBytes(w, a);
    StepXOrigins(w, a);
    StepLimit(w, a);
    forall c | c in x'.ends && !Untouched(x'.ends[c]) ensures exists b :: Linked(x', w.y, c, b) {
      var b :| Linked(w.x, w.y, c, b) by {
        if w.x.ends[c].phase.Connected? { assert Linked(w.x, w.y, c, w.x.ends[c].phase.peer); }
      }
      assert Linked(x', w.y, c, b);
    }
    forall c | c in w.y.ends && !Untouched(w.y.ends[c]) ensures exists b :: Linked(w.y, x', c, b) {
      var b :| Linked(w.y, w.x, c, b);
      assert Linked(w.y, x', c, b);
    }
  }

  lemma {:induction false} RunLinked(w: World, turns: seq<Turn>)
    requires Inv(w) && LinkedOrSilent(w.x, w.y) && LinkedOrSilent(w.y, w.x)
    ensures var w' := Run(w, turns); LinkedOrSilent(w'.x, w'.y) && LinkedOrSilent(w'.y, w'.x)
    decreases |turns|
  {
    if turns != [] {
      StepInv(w, turns[0]);
      SwapInv(w);
      if turns[0].host { StepXLinked(w, turns[0].action); } else { StepXLinked(Swap(w), turns[0].action); }
      RunLinked(Step(w, turns[0]), turns[1..]);
    }
  }

  /** In every run, an end that is linked to nobody has handed over nothing and accepted nothing. */
  lemma UnlinkedIsSilent(limit: nat, turns: seq<Turn>, a: Id)
    ensures var w := Run(Start(limit), turns);
            && (a in w.x.ends && (forall b :: !Linked(w.x, w.y, a, b)) ==> w.x.ends[a].handed == [] && w.x.ends[a].accepted == [])
            && (a in w.y.ends && (forall b :: !Linked(w.y, w.x, a, b)) ==> w.y.ends[a].handed == [] && w.y.ends[a].accepted == [])
  {
    StartInv(limit);
    RunLinked(Start(limit), turns);
  }
}
