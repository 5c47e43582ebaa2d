/**
 The stream-multiplexing protocol of core/adb/sockets.cpp and core/adb/adb.cpp, as a step
 system over values: two endpoints, each a table of stream ends, joined by two FIFO
 channels of packets. Module Sockets holds the pointer-and-list implementation and proves
 that it performs exactly these steps.
 */
module Streams {
  import opened Base
  import opened Descriptors
  import opened SmartSocket

  type Id = nat

  /** `src` is the sender's local id (arg0), `dst` the receiver's (arg1). */
  datatype Packet =
    | Open(src: Id, dest: bytes)
    | Okay(src: Id, dst: Id)
    | Wrte(src: Id, dst: Id, data: bytes)
    | Clse(src: Id, dst: Id)

  /** How the local socket came to be. */
  datatype Origin =
    | Client                  // accepted by the smart-socket listener
    | Forward                 // accepted by a forwarding listener, OPEN sent at once
    | Service(opener: Id)     // created for the other side's OPEN(opener)

  datatype Phase =
    | Smart(buffer: bytes, bound: bool)  // peer is a smart socket collecting a request, perhaps bound to the transport
    | Opening                 // OPEN sent, no peer yet
    | Connected(peer: Id)     // peer is a remote socket with this id
    | Draining                // on the closing list, packets still queued
    | Closed                  // freed

  /** The status a smart-socket client reads before any stream byte. */
  datatype Status = Silent | SaidOkay | SaidFail

  /**
   One local socket together with what passed through its descriptor.
   `handed`:   stream bytes read from it and given to the remote peer.
   `accepted`: payload bytes given to it by the other end.
   `written`:  the part of `accepted` that reached the descriptor.
   `faked`:    packets it handed over while FDE_READ was off (a hang-up fakes a read).
   FDE_WRITE is on exactly when `queue` is nonempty.
   */
  datatype End = End(
    origin: Origin, phase: Phase, readOn: bool, queue: seq<bytes>, status: Status,
    handed: bytes, accepted: bytes, written: bytes, faked: nat)

  /** In the live list and part of a stream. */
  predicate Live(e: End)
  {
    e.phase.Opening? || e.phase.Connected?
  }

  /** In the live list and referring to the transport, itself or through its peer. */
  predicate OnTransport(e: End)
  {
    Live(e) || (e.phase.Smart? && e.phase.bound)
  }

  datatype EndStep = EndStep(end: End, sent: seq<Packet>)

  // ----- local sockets -----

  /** `s->close`: local_socket_close, behind local_socket_close_notify for a client that is still opening. */
  function Close(id: Id, e: End, writeError: bool): EndStep
  {
    var sent := if e.phase.Connected? then [Clse(id, e.phase.peer)] else [];
    var status := if e.origin.Client? && e.phase.Opening? then SaidFail else e.status;
    if e.phase.Draining? || writeError || e.queue == [] then
      EndStep(e.(phase := Closed, readOn := false, queue := [], status := status), sent)
    else
      EndStep(e.(phase := Draining, readOn := false, status := status), sent)
  }

  datatype Taken = Taken(end: End, outcome: Outcome)

  /** The payload goes to the descriptor as far as it will take it, the rest to the queue. */
  function Take(e: End, data: bytes, script: seq<WriteResult>): Taken
  {
    var e1 := e.(accepted := e.accepted + data);
    if e.queue != [] then Taken(e1.(queue := e.queue + [data]), Blocked)
    else
      var r := Push(data, script);
      var e2 := e1.(written := e.written + data[..r.count]);
      Taken(if r.outcome.Blocked? then e2.(queue := [data[r.count..]]) else e2, r.outcome)
  }

  /** `local_socket_enqueue`, with the READY that handle_packet sends when it returns 0. */
  function Enqueue(id: Id, e: End, data: bytes, script: seq<WriteResult>): EndStep
    requires e.phase.Connected?
  {
    var t := Take(e, data, script);
    match t.outcome
    case Done => EndStep(t.end, [Okay(id, e.phase.peer)])
    case Blocked => EndStep(t.end, [])
    case Failed => Close(id, t.end, true)
  }

  /** A request at the smart-socket stage. */
  datatype Ask =
    | Dismissed             // a host request, answered at once, or any request that is refused: both sockets close
    | Switched(found: bool) // host:transport; whether the transport was acquired
    | Routed(acquire: bool) // for the device; a device's own client acquires the transport if it has none

  /** Only a transport that is not offline is acquired or routed to. */
  predicate Reaches(ask: Ask)
  {
    ask.Routed? || (ask.Switched? && ask.found)
  }

  /** What poll and the kernel offer to one call of local_socket_event_func. */
  datatype Event = Event(
    writable: bool, readable: bool, writes: seq<WriteResult>, input: seq<ReadResult>,
    forceEof: bool,   // fde.force_eof
    ask: Ask)         // what the decoded request turns out to be

  datatype WriteStep = WriteStep(end: End, sent: seq<Packet>, finished: bool)

  /** The FDE_WRITE half; `finished` when the callback returns there. */
  function OnWritable(id: Id, e: End, script: seq<WriteResult>): WriteStep
  {
    var d := Drain(e.queue, script);
    var e1 := e.(queue := d.queue, written := e.written + d.written);
    match d.outcome
    case Blocked => WriteStep(e1, [], true)
    case Failed => var c := Close(id, e1, true); WriteStep(c.end, c.sent, true)
    case Done =>
      if e.phase.Draining? then var c := Close(id, e1, false); WriteStep(c.end, c.sent, true)
      else WriteStep(e1, if e.phase.Connected? then [Okay(id, e.phase.peer)] else [], false)
  }

  /** `asocket::get_max_payload`: a socket without a transport, its own or its peer's, is not limited by one. */
  function ReadLimit(e: End, limit: nat): nat
  {
    if (e.phase.Smart? && !e.phase.bound) || (e.origin.Service? && !e.phase.Connected?) then MAX_PAYLOAD
    else Min(limit, MAX_PAYLOAD)
  }

  /** What was read goes to the remote peer, which then counts as busy. */
  function HandOver(id: Id, e: End, data: bytes, eof: bool): EndStep
    requires e.phase.Connected?
  {
    var e1 := e.(handed := e.handed + data, readOn := false, faked := e.faked + if e.readOn then 0 else 1);
    var wrte := Wrte(id, e.phase.peer, data);
    if eof then var c := Close(id, e1, false); EndStep(c.end, [wrte] + c.sent)
    else EndStep(e1, [wrte])
  }

  /** The end of smart_socket_enqueue: host:transport binds the smart socket and keeps it, other requests end it. */
  function Asked(id: Id, e: End, service: bytes, eof: bool, ev: Event): EndStep
    requires e.phase.Smart?
  {
    match ev.ask
    case Dismissed => Close(id, e, false)
    case Switched(found) =>
      var e1 := e.(phase := Smart([], e.phase.bound || found));
      if eof || ev.forceEof then Close(id, e1, false) else EndStep(e1, [])
    case Routed(acquire) =>
      if !e.phase.bound && !acquire then Close(id, e, false)
      else
        var e1 := e.(phase := Opening, readOn := false);
        EndStep(if eof then Close(id, e1, false).end else e1, [Open(id, service)])
  }

  /** What was read goes to the smart socket, which may route the client. */
  function Route(id: Id, e: End, data: bytes, eof: bool, ev: Event, max: nat): EndStep
    requires e.phase.Smart?
  {
    match Feed(e.phase.buffer, data, max)
    case Wait(b) =>
      var e1 := e.(phase := Smart(b, e.phase.bound));
      if eof || ev.forceEof then Close(id, e1, false) else EndStep(e1, [])
    case Reject => Close(id, e, false)
    case Request(service) => Asked(id, e, service, eof, ev)
  }

  /** The FDE_READ half. `limit` is the negotiated payload limit of the transport. */
  function OnReadable(id: Id, e: End, ev: Event, limit: nat): EndStep
  {
    var avail := ReadLimit(e, limit);
    var r := Pull(avail, ev.input);
    if r.data == [] || !(e.phase.Connected? || e.phase.Smart?) then
      if r.eof || (avail == 0 && ev.forceEof) then Close(id, e, false) else EndStep(e, [])
    else if e.phase.Connected? then HandOver(id, e, r.data, r.eof)
    else Route(id, e, r.data, r.eof, ev, avail)
  }

  /** `local_socket_event_func`. */
  function OnEvent(id: Id, e: End, ev: Event, limit: nat): EndStep
  {
    if ev.writable then
      var w := OnWritable(id, e, ev.writes);
      if w.finished || !ev.readable then EndStep(w.end, w.sent)
      else
        var r := OnReadable(id, w.end, ev, limit);
        EndStep(r.end, w.sent + r.sent)
    else if ev.readable then OnReadable(id, e, ev, limit)
    else EndStep(e, [])
  }

  /**
   `connect_to_remote` takes the whole process down over a destination that does not fit the
   transport's payload limit with its NUL; the subtraction is unsigned, so limit 0 lets all pass.
   */
  predicate Oversized(dest: bytes, limit: nat)
  {
    var max := Min(limit, MAX_PAYLOAD);
    max > 0 && |dest| + 1 > max - 1
  }

  /** An OPEN is the last packet of a callback that sends one. */
  predicate Dies(sent: seq<Packet>, limit: nat)
  {
    sent != [] && sent[|sent| - 1].Open? && Oversized(sent[|sent| - 1].dest, limit)
  }

  // ----- endpoints -----

  /** `ends` keeps closed sockets as history; `limit` is the transport's max_payload. */
  datatype Endpoint = Endpoint(ends: map<Id, End>, nextId: Id, online: bool, limit: nat)

  datatype EndpointStep = EndpointStep(ep: Endpoint, sent: seq<Packet>)

  function NewEnd(origin: Origin, phase: Phase, readOn: bool): End
  {
    End(origin, phase, readOn, [], Silent, [], [], [], 0)
  }

  function Install(ep: Endpoint, e: End): Endpoint
  {
    ep.(ends := ep.ends[ep.nextId := e], nextId := ep.nextId + 1)
  }

  function Update(ep: Endpoint, id: Id, s: EndStep): EndpointStep
  {
    EndpointStep(ep.(ends := ep.ends[id := s.end]), s.sent)
  }

  /** `find_local_socket`: in the live list, and connected to `peerId` unless that is 0. */
  predicate Found(ep: Endpoint, id: Id, peerId: Id)
  {
    && id in ep.ends
    && (Live(ep.ends[id]) || ep.ends[id].phase.Smart?)
    && (peerId == 0 || ep.ends[id].phase == Connected(peerId))
  }

  /** The first READY connects an opening socket; a smart-socket client is told so. */
  function Ready(e: End, peerId: Id): End
  {
    if e.phase.Opening? then
      e.(phase := Connected(peerId), readOn := true,
         status := if e.origin.Client? then SaidOkay else e.status)
    else e.(readOn := true)
  }

  /** `handle_packet` on the four stream commands; `accept` says whether the service could be started. */
  function Handle(ep: Endpoint, p: Packet, accept: bool, script: seq<WriteResult>): EndpointStep
  {
    if !ep.online then EndpointStep(ep, [])
    else
      match p
      case Open(src, _) =>
        if src == 0 then EndpointStep(ep, [])
        else if !accept then EndpointStep(ep, [Clse(0, src)])
        else EndpointStep(Install(ep, NewEnd(Service(src), Connected(src), true)), [Okay(ep.nextId, src)])
      case Okay(src, dst) =>
        if src == 0 || dst == 0 then EndpointStep(ep, [])
        else if !Found(ep, dst, 0) then EndpointStep(ep, [Clse(dst, src)])
        else if ep.ends[dst].phase.Opening? || ep.ends[dst].phase == Connected(src) then
          Update(ep, dst, EndStep(Ready(ep.ends[dst], src), []))
        else EndpointStep(ep, [])
      case Clse(src, dst) =>
        if dst != 0 && Found(ep, dst, src) && OnTransport(ep.ends[dst]) then Update(ep, dst, Close(dst, ep.ends[dst], false))
        else EndpointStep(ep, [])
      case Wrte(src, dst, data) =>
        if src != 0 && dst != 0 && Found(ep, dst, src) then Update(ep, dst, Enqueue(dst, ep.ends[dst], data, script))
        else EndpointStep(ep, [])
  }

  /** `close_all_sockets`: every live socket on the transport, in list (that is, id) order. */
  function CloseFrom(ep: Endpoint, id: Id): EndpointStep
    decreases ep.nextId - id
  {
    if id >= ep.nextId then EndpointStep(ep, [])
    else if id in ep.ends && OnTransport(ep.ends[id]) then
      var s := Update(ep, id, Close(id, ep.ends[id], false));
      var r := CloseFrom(s.ep, id + 1);
      EndpointStep(r.ep, s.sent + r.sent)
    else CloseFrom(ep, id + 1)
  }

  // ----- two endpoints and their transport -----

  datatype World = World(x: Endpoint, y: Endpoint, xy: seq<Packet>, yx: seq<Packet>)

  datatype Action =
    | AcceptClient                                  // the smart-socket listener accepts
    | AcceptForward(dest: bytes)                    // a forwarding listener accepts and sends OPEN
    | Dispatch(id: Id, ev: Event)                   // the event loop calls a socket's callback
    | Receive(accept: bool, script: seq<WriteResult>)  // the main thread handles the next packet
    | GoOffline                                     // SYNC(0): handle_offline

  /** What the event loop can deliver: no dead socket, and FDE_WRITE only while it is enabled. */
  predicate Deliverable(ep: Endpoint, id: Id, ev: Event)
  {
    && id in ep.ends
    && !ep.ends[id].phase.Closed?
    && (ev.writable ==> ep.ends[id].queue != [])
  }

  /** The callback runs, and returns: requests that ask for a transport find one, and no OPEN is oversized. */
  predicate Happens(ep: Endpoint, id: Id, ev: Event)
  {
    && Deliverable(ep, id, ev) && (Reaches(ev.ask) ==> ep.online)
    && !Dies(OnEvent(id, ep.ends[id], ev, ep.limit).sent, ep.limit)
  }

  /**
   One step of endpoint `x`; an action that is not possible, or would end the process, leaves the
   world as it is.
   */
  function StepX(w: World, a: Action): World
  {
    match a
    case AcceptClient => w.(x := Install(w.x, NewEnd(Client, Smart([], false), true)))
    case AcceptForward(dest) =>
      if w.x.online && !Oversized(dest, w.x.limit) then
        w.(x := Install(w.x, NewEnd(Forward, Opening, false)), xy := w.xy + [Open(w.x.nextId, dest)])
      else w
    case Dispatch(id, ev) =>
      if Happens(w.x, id, ev) then
        var s := Update(w.x, id, OnEvent(id, w.x.ends[id], ev, w.x.limit));
        w.(x := s.ep, xy := w.xy + s.sent)
      else w
    case Receive(accept, script) =>
      if w.yx == [] then w
      else
        var s := Handle(w.x, w.yx[0], accept, script);
        w.(x := s.ep, xy := w.xy + s.sent, yx := w.yx[1..])
    case GoOffline =>
      var s := CloseFrom(w.x, 1);
      w.(x := s.ep.(online := false), xy := w.xy + s.sent)
  }

  function Swap(w: World): World
  {
    World(w.y, w.x, w.yx, w.xy)
  }

  datatype Turn = Turn(host: bool, action: Action)

  function Step(w: World, t: Turn): World
  {
    if t.host then StepX(w, t.action) else Swap(StepX(Swap(w), t.action))
  }

  function Run(w: World, turns: seq<Turn>): World
    decreases |turns|
  {
    if turns == [] then w else Run(Step(w, turns[0]), turns[1..])
  }

  /** Just after the CNXN exchange: both ends online with the same payload limit. */
  function Start(limit: nat): World
  {
    var ep := Endpoint(map[], 1, true, limit);
    World(ep, ep, [], [])
  }
}
