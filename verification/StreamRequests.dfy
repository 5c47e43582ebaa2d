/**
 The smart-socket stage of a client over any number of events: its bytes arrive cut in any way,
 and each request is answered once, when its last byte is in.
 */
module StreamRequests {
  import opened Base
  import opened Descriptors
  import opened SmartSocket
  import opened Streams

  /** The callbacks of one socket in a row, with what they send. */
  function Events(id: Id, e: End, events: seq<Event>, limit: nat): EndStep
    decreases |events|
  {
    if events == [] then EndStep(e, [])
    else
      var s := OnEvent(id, e, events[0], limit);
      var r := Events(id, s.end, events[1..], limit);
      EndStep(r.end, s.sent + r.sent)
  }

  /** The event makes `data` readable, and neither end of file nor anything else; `avail` is what one read may return. */
  predicate Brings(ev: Event, data: bytes, avail: nat)
  {
    && ev.readable && !ev.writable && !ev.forceEof
    && data != [] && |data| <= avail && Brought(ev.input) == data && !ReadEnds(avail, ev.input)
  }

  predicate BringAll(events: seq<Event>, packets: seq<bytes>, avail: nat)
  {
    |events| == |packets| && forall i :: 0 <= i < |events| ==> Brings(events[i], packets[i], avail)
  }

  lemma OneEvent(id: Id, e: End, ev: Event, data: bytes, limit: nat)
    requires e.phase.Smart? && Brings(ev, data, ReadLimit(e, limit))
    ensures OnEvent(id, e, ev, limit) == Route(id, e, data, false, ev, ReadLimit(e, limit))
  {
    var avail := ReadLimit(e, limit);
    PullExactly(avail, ev.input);
    assert data[..|data|] == data;
  }

  /**
   What becomes of a request with this text: a host request and one that finds no transport close
   the client; host:transport leaves it ready for the next request, bound if the transport was
   found; a request for the device is sent on with one OPEN.
   */
  predicate Answered(id: Id, e: End, text: bytes, ask: Ask, s: EndStep)
    requires e.phase.Smart?
  {
    match ask
    case Dismissed => s.end.phase.Closed? && s.sent == []
    case Switched(found) => s.end == e.(phase := Smart([], e.phase.bound || found)) && s.sent == []
    case Routed(acquire) =>
      if e.phase.bound || acquire then s.end == e.(phase := Opening, readOn := false) && s.sent == [Open(id, text)]
      else s.end.phase.Closed? && s.sent == []
  }

  /** After the first `k` events nothing has been sent and the client is still at this stage. */
  predicate Waits(id: Id, e: End, events: seq<Event>, limit: nat, k: nat)
    requires k <= |events|
  {
    var s := Events(id, e, events[..k], limit);
    s.sent == [] && s.end.phase.Smart?
  }

  /** A piece that is not the last is collected. */
  lemma PartEvent(id: Id, e: End, ev: Event, p: bytes, whole: bytes, limit: nat)
    requires e.phase.Smart? && Framed(whole) && |whole| <= ReadLimit(e, limit) && Brings(ev, p, ReadLimit(e, limit))
    requires e.phase.buffer + p < whole
    ensures OnEvent(id, e, ev, limit) == EndStep(e.(phase := Smart(e.phase.buffer + p, e.phase.bound)), [])
  {
    OneEvent(id, e, ev, p, limit);
    FeedPart(whole, e.phase.buffer, p, ReadLimit(e, limit));
  }

  lemma LastEvent(id: Id, e: End, ev: Event, p: bytes, whole: bytes, limit: nat)
    requires e.phase.Smart? && e.queue == [] && Framed(whole) && |whole| <= ReadLimit(e, limit) && Brings(ev, p, ReadLimit(e, limit))
    requires e.phase.buffer + p == whole
    ensures Answered(id, e, CString(whole[4..]), ev.ask, OnEvent(id, e, ev, limit))
  {
    OneEvent(id, e, ev, p, limit);
    FeedLast(whole, e.phase.buffer, p, ReadLimit(e, limit));
  }

  lemma EventsOne(id: Id, e: End, ev: Event, limit: nat)
    ensures Events(id, e, [ev], limit) == OnEvent(id, e, ev, limit)
  {
    var s := OnEvent(id, e, ev, limit);
    assert Events(id, s.end, [], limit) == EndStep(s.end, []);
    assert s.sent + [] == s.sent;
  }

  lemma WaitsLater(id: Id, e: End, events: seq<Event>, limit: nat, e': End, k: nat)
    requires 0 < k <= |events| && OnEvent(id, e, events[0], limit) == EndStep(e', []) && Waits(id, e', events[1..], limit, k - 1)
    ensures Waits(id, e, events, limit, k)
  {
    assert events[..k][1..] == events[1..][..k - 1];
  }

  lemma {:induction false} RequestFrom(id: Id, e: End, events: seq<Event>, packets: seq<bytes>, whole: bytes, limit: nat)
    requires e.phase.Smart? && e.queue == [] && Framed(whole) && |whole| <= ReadLimit(e, limit)
    requires BringAll(events, packets, ReadLimit(e, limit)) && events != []
    requires e.phase.buffer + Flat(packets) == whole
    ensures Answered(id, e, CString(whole[4..]), events[|events| - 1].ask, Events(id, e, events, limit))
    ensures forall k :: 0 <= k < |events| ==> Waits(id, e, events, limit, k)
    decreases |events|
  {
    var p, max := packets[0], ReadLimit(e, limit);
    assert e.phase.buffer + p + Flat(packets[1..]) == whole;
    assert Brings(events[0], p, max);
    if |events| == 1 {
      assert packets[1..] == [] && events == [events[0]];
      LastEvent(id, e, events[0], p, whole, limit);
      EventsOne(id, e, events[0], limit);
    } else {
      assert Flat(packets[1..]) != [] by { assert packets[1..][0] == packets[1]; assert Brings(events[1], packets[1], max); }
      PartEvent(id, e, events[0], p, whole, limit);
      var e' := e.(phase := Smart(e.phase.buffer + p, e.phase.bound));
      RequestFrom(id, e', events[1..], packets[1..], whole, limit);
      var r := Events(id, e', events[1..], limit);
      assert Events(id, e, events, limit) == EndStep(r.end, [] + r.sent) == r;
      forall k | 0 < k < |events| ensures Waits(id, e, events, limit, k) { WaitsLater(id, e, events, limit, e', k); }
    }
  }

  /** However a request is cut, nothing happens before its last byte, and then exactly what it asks for. */
  lemma RequestAnswered(id: Id, e: End, events: seq<Event>, packets: seq<bytes>, text: bytes, limit: nat)
    requires e.phase.Smart? && e.phase.buffer == [] && e.queue == []
    requires 1 <= |text| <= 0xffff && |text| + 4 <= ReadLimit(e, limit) && 0 !in text
    requires BringAll(events, packets, ReadLimit(e, limit)) && Flat(packets) == Encode(text)
    ensures events != [] && Answered(id, e, text, events[|events| - 1].ask, Events(id, e, events, limit))
    ensures forall k :: 0 <= k < |events| ==> Waits(id, e, events, limit, k)
  {
    EncodeFramed(text);
    FrameAnswered(id, e, events, packets, Encode(text), limit);
  }

  lemma FrameAnswered(id: Id, e: End, events: seq<Event>, packets: seq<bytes>, whole: bytes, limit: nat)
    requires e.phase.Smart? && e.phase.buffer == [] && e.queue == [] && Framed(whole) && |whole| <= ReadLimit(e, limit)
    requires BringAll(events, packets, ReadLimit(e, limit)) && Flat(packets) == whole
    ensures events != [] && Answered(id, e, CString(whole[4..]), events[|events| - 1].ask, Events(id, e, events, limit))
    ensures forall k :: 0 <= k < |events| ==> Waits(id, e, events, limit, k)
  {
    assert [] + Flat(packets) == whole;
    RequestFrom(id, e, events, packets, whole, limit);
  }

  lemma {:induction false} EventsAppend(id: Id, e: End, a: seq<Event>, b: seq<Event>, limit: nat)
    ensures var s := Events(id, e, a, limit); var r := Events(id, s.end, b, limit);
            Events(id, e, a + b, limit) == EndStep(r.end, s.sent + r.sent)
    decreases |a|
  {
    if a == [] {
      assert a + b == b;
    } else {
      assert (a + b)[1..] == a[1..] + b;
      var s := OnEvent(id, e, a[0], limit);
      EventsAppend(id, s.end, a[1..], b, limit);
      var m := Events(id, s.end, a[1..], limit);
      var r := Events(id, m.end, b, limit);
      assert s.sent + (m.sent + r.sent) == s.sent + m.sent + r.sent;
    }
  }

  lemma AfterBinding(id: Id, e: End, first: seq<Event>, second: seq<Event>, limit: nat, bound: End)
    requires Events(id, e, first, limit) == EndStep(bound, [])
    ensures Events(id, e, first + second, limit) == Events(id, bound, second, limit)
  {
    EventsAppend(id, e, first, second, limit);
    var r := Events(id, bound, second, limit);
    assert [] + r.sent == r.sent;
  }

  lemma WaitsThrough(id: Id, e: End, first: seq<Event>, second: seq<Event>, limit: nat, bound: End, k: nat)
    requires Events(id, e, first, limit) == EndStep(bound, []) && k < |first| + |second|
    requires if k < |first| then Waits(id, e, first, limit, k) else Waits(id, bound, second, limit, k - |first|)
    ensures Waits(id, e, first + second, limit, k)
  {
    if k < |first| {
      assert (first + second)[..k] == first[..k];
    } else {
      assert (first + second)[..k] == first + second[..k - |first|];
      AfterBinding(id, e, first, second[..k - |first|], limit, bound);
    }
  }

  lemma TwoFrames(
    id: Id, e: End, first: seq<Event>, packets: seq<bytes>, whole: bytes, second: seq<Event>, packets': seq<bytes>, whole': bytes, limit: nat)
    requires e.origin.Client? && e.phase == Smart([], false) && e.queue == []
    requires Framed(whole) && |whole| <= MAX_PAYLOAD && BringAll(first, packets, MAX_PAYLOAD) && Flat(packets) == whole
    requires first != [] ==> first[|first| - 1].ask == Switched(true)
    requires Framed(whole') && |whole'| <= Min(limit, MAX_PAYLOAD)
    requires BringAll(second, packets', Min(limit, MAX_PAYLOAD)) && Flat(packets') == whole'
    requires second != [] ==> second[|second| - 1].ask.Routed?
    ensures Events(id, e, first, limit) == EndStep(e.(phase := Smart([], true)), [])
    ensures Events(id, e, first + second, limit) == EndStep(e.(phase := Opening, readOn := false), [Open(id, CString(whole'[4..]))])
    ensures forall k :: 0 <= k < |first| + |second| ==> Waits(id, e, first + second, limit, k)
  {
    FrameAnswered(id, e, first, packets, whole, limit);
    var bound := e.(phase := Smart([], true));
    FrameAnswered(id, bound, second, packets', whole', limit);
    AfterBinding(id, e, first, second, limit, bound);
    var all := first + second;
    forall k | 0 <= k < |first| + |second| ensures Waits(id, e, all, limit, k) { WaitsThrough(id, e, first, second, limit, bound, k); }
  }

  /**
   A client that first asks for a transport, with host:transport, and then for a service on it:
   both requests cut in any way. The first binds it and sends nothing; the second leads to exactly
   one OPEN, for exactly that service, on the event with its last byte.
   */
  lemma TwoRequests(
    id: Id, e: End, first: seq<Event>, packets: seq<bytes>, transport: bytes,
    second: seq<Event>, packets': seq<bytes>, service: bytes, limit: nat)
    requires e.origin.Client? && e.phase == Smart([], false) && e.queue == []
    requires 1 <= |transport| <= 0xffff
    requires BringAll(first, packets, MAX_PAYLOAD) && Flat(packets) == Encode(transport)
    requires first != [] ==> first[|first| - 1].ask == Switched(true)
    requires 1 <= |service| <= 0xffff && |service| + 4 <= Min(limit, MAX_PAYLOAD) && 0 !in service
    requires BringAll(second, packets', Min(limit, MAX_PAYLOAD)) && Flat(packets') == Encode(service)
    requires second != [] ==> second[|second| - 1].ask.Routed?
    ensures Events(id, e, first, limit) == EndStep(e.(phase := Smart([], true)), [])
    ensures Events(id, e, first + second, limit) == EndStep(e.(phase := Opening, readOn := false), [Open(id, service)])
    ensures forall k :: 0 <= k < |first| + |second| ==> Waits(id, e, first + second, limit, k)
  {
    EncodeFramed(transport);
    EncodeFramed(service);
    TwoFrames(id, e, first, packets, Encode(transport), second, packets', Encode(service), limit);
  }

  /** A request that does not fit the limit closes the client, before anything is sent. */
  lemma {:induction false} OversizedCloses(id: Id, e: End, events: seq<Event>, packets: seq<bytes>, whole: bytes, limit: nat) returns (k: nat)
    requires e.phase.Smart? && e.queue == []
    requires Framed(whole) && ReadLimit(e, limit) < |whole|
    requires BringAll(events, packets, ReadLimit(e, limit))
    requires |e.phase.buffer| <= ReadLimit(e, limit) && e.phase.buffer + Flat(packets) == whole
    ensures 0 < k <= |events|
    ensures var s := Events(id, e, events[..k], limit); s.end.phase.Closed? && s.sent == []
    decreases |events|
  {
    var p, max := packets[0], ReadLimit(e, limit);
    assert e.phase.buffer + p + Flat(packets[1..]) == whole;
    OneEvent(id, e, events[0], p, limit);
    FeedOversized(whole, e.phase.buffer, p, max);
    var s := OnEvent(id, e, events[0], limit);
    if |e.phase.buffer| + |p| > max {
      k := 1;
      assert events[..1][1..] == [];
    } else {
      k := OversizedCloses(id, s.end, events[1..], packets[1..], whole, limit);
      assert events[..k + 1][1..] == events[1..][..k];
      k := k + 1;
    }
  }
}
