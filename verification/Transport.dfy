/**
 The life of one transport in core/adb/transport.cpp: a reader thread, a writer thread and the
 main thread, joined by a socket pair that carries packets both ways and by the registration
 pipe that carries the removal message. Every interleaving is a run of `Next`. What may refer
 to the transport, the sockets of module Streams and the listeners of module Listeners, is part
 of the state.
 */
module Transport {
  import opened Base
  import opened Descriptors
  import opened Streams
  import opened StreamInvariant
  import opened StreamRuns
  import L = Listeners

  /** The transport in question. */
  const SELF: L.Tid := 0

  /** What travels on the socket pair. */
  datatype Msg = Sync(arg0: nat, arg1: nat) | Cnxn(maxdata: nat) | Stream(packet: Packet)

  // ----- the two threads -----

  /** A thread's progress; only the reader starts before `Working` and passes through `Ended`. */
  datatype Life = Starting | Working | Ended | Leaving | Unreffing | Gone

  /** `removals`: removal messages sent; `enlisted`: put on transport_list; `freed`: removed and deleted. */
  datatype Threads = Threads(
    reader: Life, writer: Life, refCount: nat, kicked: bool, kicks: nat,
    enlisted: bool, removals: nat, freed: bool,
    writeFailed: bool,   // the writer left because t->Write failed
    ioFailed: bool)      // the socket pair itself failed

  /** `kick_transport`: only a listed transport is kicked, and only once. */
  function Kick(t: Threads): Threads
  {
    if t.enlisted && !t.freed && !t.kicked then t.(kicked := true, kicks := t.kicks + 1) else t
  }

  /** `transport_unref`: the last one out sends the removal message. */
  function Unref(t: Threads): Threads
    requires t.refCount > 0
  {
    t.(refCount := t.refCount - 1, removals := t.removals + if t.refCount == 1 then 1 else 0)
  }

  function Holds(l: Life): nat
  {
    if l.Gone? then 0 else 1
  }

  predicate Left(l: Life)
  {
    l.Leaving? || l.Unreffing? || l.Gone?
  }

  predicate ThreadInv(t: Threads)
  {
    && t.refCount == Holds(t.reader) + Holds(t.writer)
    && t.removals == (if t.refCount == 0 then 1 else 0)
    && t.kicks == (if t.kicked then 1 else 0)
    && (t.freed ==> t.refCount == 0 && t.enlisted)
    && !t.writer.Starting? && !t.writer.Ended?
    && (Left(t.writer) && !t.ioFailed ==> t.enlisted)
    && ((t.writer.Unreffing? || t.writer.Gone?) && !t.ioFailed ==> t.kicked)
  }

  /** The end of either thread: kick, then drop the reference. */
  function ReaderLeaves(t: Threads): Threads
    requires Left(t.reader) && (t.reader.Unreffing? ==> t.refCount > 0)
  {
    match t.reader
    case Leaving => Kick(t).(reader := Unreffing)
    case Unreffing => Unref(t).(reader := Gone)
    case Gone => t
  }

  function WriterLeaves(t: Threads): Threads
    requires Left(t.writer) && (t.writer.Unreffing? ==> t.refCount > 0)
  {
    match t.writer
    case Leaving => Kick(t).(writer := Unreffing)
    case Unreffing => Unref(t).(writer := Gone)
    case Gone => t
  }

  // ----- the socket pair -----

  /** What the writer has made of the messages it has seen. */
  datatype Mode = Waiting | Active | Stopped

  /** `sent` is all the main thread wrote; `outbox` the part the writer has not read; `wire` what it passed on. */
  datatype Link = Link(inbox: seq<Msg>, outbox: seq<Msg>, sent: seq<Msg>, wire: seq<Msg>, mode: Mode, token: nat)

  function Send(k: Link, msgs: seq<Msg>): Link
  {
    k.(outbox := k.outbox + msgs, sent := k.sent + msgs)
  }

  /** The token is 1: the reader thread counts up from 0, once. */
  const TOKEN := 1

  function NextMode(mode: Mode, m: Msg): Mode
  {
    if mode.Stopped? || !m.Sync? then mode
    else if m.arg0 == 0 then Stopped
    else if m.arg1 == TOKEN then Active
    else mode
  }

  /** The messages the writer passes to the remote end out of `msgs`. */
  function Forwarded(mode: Mode, msgs: seq<Msg>): seq<Msg>
    decreases |msgs|
  {
    if msgs == [] then []
    else (if mode.Active? && !msgs[0].Sync? then [msgs[0]] else []) + Forwarded(NextMode(mode, msgs[0]), msgs[1..])
  }

  function ModeAfter(mode: Mode, msgs: seq<Msg>): Mode
    decreases |msgs|
  {
    if msgs == [] then mode else ModeAfter(NextMode(mode, msgs[0]), msgs[1..])
  }

  lemma {:induction false} ForwardedAppend(mode: Mode, a: seq<Msg>, b: seq<Msg>)
    ensures Forwarded(mode, a + b) == Forwarded(mode, a) + Forwarded(ModeAfter(mode, a), b)
    ensures ModeAfter(mode, a + b) == ModeAfter(ModeAfter(mode, a), b)
    decreases |a|
  {
    if a == [] {
      assert a + b == b;
    } else {
      assert (a + b)[1..] == a[1..] + b;
      ForwardedAppend(NextMode(mode, a[0]), a[1..], b);
    }
  }

  /** No SYNC ever goes over the wire, so none ever comes from an honest remote end. */
  lemma {:induction false} NoSyncOnWire(mode: Mode, msgs: seq<Msg>)
    ensures forall m :: m in Forwarded(mode, msgs) ==> !m.Sync?
    decreases |msgs|
  {
    if msgs != [] { NoSyncOnWire(NextMode(mode, msgs[0]), msgs[1..]); }
  }

  // ----- what refers to the transport -----

  /** `offline`: connection_state_ is kCsOffline; `closed`: the main thread has handled SYNC(0). */
  datatype Refs = Refs(ep: Endpoint, listeners: seq<L.Listener>, offline: bool, closed: bool)

  /** A socket in the live list that refers to the transport, itself or through its peer. */
  predicate SocketRefers(ep: Endpoint, id: Id)
  {
    id in ep.ends && OnTransport(ep.ends[id])
  }

  /** A socket on the closing list keeps the transport it was opened on; a service has none of its own. */
  predicate DrainRefers(ep: Endpoint, id: Id)
  {
    id in ep.ends && ep.ends[id].phase.Draining? && !ep.ends[id].origin.Service?
  }

  predicate ListenerRefers(listeners: seq<L.Listener>, k: int)
  {
    0 <= k < |listeners| && listeners[k].transport == Some(SELF)
  }

  /** What handle_offline sees to: the live list and the listeners. */
  ghost predicate Released(ep: Endpoint, listeners: seq<L.Listener>)
  {
    (forall id :: !SocketRefers(ep, id)) && (forall k :: !ListenerRefers(listeners, k))
  }

  ghost predicate Unreferenced(ep: Endpoint, listeners: seq<L.Listener>)
  {
    Released(ep, listeners) && forall id :: !DrainRefers(ep, id)
  }

  ghost predicate RefsInv(r: Refs)
  {
    && 1 <= r.ep.nextId && (forall id :: id in r.ep.ends ==> 1 <= id < r.ep.nextId)
    && (forall id :: id in r.ep.ends && r.ep.ends[id].phase.Smart? ==> r.ep.ends[id].queue == [])
    && (r.offline <==> !r.ep.online)
    && (r.offline ==> Released(r.ep, r.listeners))
    && (r.closed ==> r.offline)
  }

  /**
   Whether the callback of local_socket_event_func looks at the transport: to learn how much it
   may read, or to send.
   */
  predicate Uses(id: Id, e: End, ev: Event, limit: nat)
  {
    && (OnTransport(e) || (e.phase.Draining? && !e.origin.Service?))
    && (OnEvent(id, e, ev, limit).sent != [] || (ev.readable && !(ev.writable && OnWritable(id, e, ev.writes).finished)))
  }

  /** `handle_offline`: the sockets are closed, then the disconnect callbacks run. */
  function Offline(r: Refs): Refs
  {
    Refs(CloseFrom(r.ep, 1).ep.(online := false), L.WithoutTransport(r.listeners, SELF), true, r.closed)
  }

  function Wrap(packets: seq<Packet>): (msgs: seq<Msg>)
    ensures |msgs| == |packets| && forall i :: 0 <= i < |msgs| ==> msgs[i].Stream?
  {
    seq(|packets|, i requires 0 <= i < |packets| => Stream(packets[i]))
  }

  // ----- steps -----

  /** `late`: the main thread has looked at the transport after freeing it. */
  datatype State = State(th: Threads, link: Link, refs: Refs, host: bool, late: bool)

  datatype Move =
    | Enlist                                            // the main thread ends the registration
    | ReaderStep(remote: Option<Msg>)                   // None: read_from_remote fails
    | WriterStep(ok: bool)                              // whether t->Write succeeds
    | ReaderIoFails | WriterIoFails                     // an operation on the socket pair fails
    | KickFromOutside                                   // kick_all_transports and the like
    | HandleNext(accept: bool, script: seq<WriteResult>)   // transport_socket_events
    | AcceptClient
    | AcceptOn(k: nat, dest: bytes)                     // listener `k` accepts a connection
    | Dispatch(id: Id, ev: Event)
    | AddListener(l: L.Listener)                        // install_listener
    | DropListener(k: nat)                              // remove_listener
    | Free                                              // the removal message is handled

  /** The main thread outlives the transport. */
  predicate MainRuns(s: State)
  {
    s.th.enlisted
  }

  /** A transport that is offline, or no longer on transport_list, is not acquired. */
  predicate Acquirable(s: State)
  {
    !s.refs.offline && !s.th.freed
  }

  function Touch(s: State, uses: bool): State
  {
    s.(late := s.late || (s.th.freed && uses))
  }

  function ReaderMove(s: State, remote: Option<Msg>): State
    requires s.th.reader.Unreffing? ==> s.th.refCount > 0
  {
    var k := s.link;
    match s.th.reader
    case Starting => s.(th := s.th.(reader := Working), link := k.(token := k.token + 1, inbox := k.inbox + [Sync(1, k.token + 1)]))
    case Working =>
      if remote.None? then s.(th := s.th.(reader := Ended))
      else if remote.value.Sync? then s
      else s.(link := k.(inbox := k.inbox + [remote.value]))
    case Ended => s.(th := s.th.(reader := Leaving), link := k.(inbox := k.inbox + [Sync(0, 0)]))
    case _ => s.(th := ReaderLeaves(s.th))
  }

  function WriterMove(s: State, ok: bool): State
    requires !s.th.writer.Starting? && !s.th.writer.Ended? && (s.th.writer.Unreffing? ==> s.th.refCount > 0)
  {
    if s.th.writer.Working? then
      if s.link.outbox == [] then s
      else
        var k, m := s.link, s.link.outbox[0];
        var k' := k.(outbox := k.outbox[1..]);
        if m.Sync? && m.arg0 == 0 then s.(th := s.th.(writer := Leaving), link := k'.(mode := Stopped))
        else if m.Sync? then s.(link := k'.(mode := if m.arg1 == k.token then Active else k.mode))
        else if !k.mode.Active? then s.(link := k')
        else if ok then s.(link := k'.(wire := k.wire + [m]))
        else s.(th := s.th.(writer := Leaving, writeFailed := true), link := k'.(mode := Stopped))
    else s.(th := WriterLeaves(s.th))
  }

  datatype Answer = Answer(msgs: seq<Msg>, refs: Refs)

  /** `handle_packet`: what the main thread writes back, and what it changes. */
  function AnswerTo(host: bool, r: Refs, m: Msg, accept: bool, script: seq<WriteResult>): Answer
  {
    match m
    case Sync(arg0, _) =>
      if arg0 != 0 then Answer([m] + if host then [Cnxn(r.ep.limit)] else [], r)
      else Answer(Wrap(CloseFrom(r.ep, 1).sent) + [m], Offline(r).(closed := true))
    case Cnxn(maxdata) =>
      var limit := Min(maxdata, MAX_PAYLOAD);
      var r1 := if r.offline then r else Offline(r);
      Answer((if r.offline then [] else Wrap(CloseFrom(r.ep, 1).sent)) + (if host then [] else [Cnxn(limit)]),
             r1.(ep := r1.ep.(online := true, limit := limit), offline := false))
    case Stream(p) =>
      var h := Handle(r.ep, p, accept, script);
      Answer(Wrap(h.sent), r.(ep := h.ep))
  }

  function HandleMsg(s: State, accept: bool, script: seq<WriteResult>): State
    requires s.link.inbox != []
  {
    var a := AnswerTo(s.host, s.refs, s.link.inbox[0], accept, script);
    s.(link := Send(s.link.(inbox := s.link.inbox[1..]), a.msgs), refs := a.refs)
  }

  /**
   A request that would reach a freed transport through a bound smart socket is not taken further:
   the read that brought it has looked at the transport already, so `late` is set by any other
   answer to it. An OPEN too long for the transport would end the process; runs that go on past it
   are only more runs.
   */
  function Next(s: State, a: Move): State
  {
    var t, r := s.th, s.refs;
    match a
    case Enlist => s.(th := t.(enlisted := true))
    case ReaderStep(remote) => if t.reader.Unreffing? && t.refCount == 0 then s else ReaderMove(s, remote)
    case WriterStep(ok) =>
      if t.writer.Starting? || t.writer.Ended? || (t.writer.Unreffing? && t.refCount == 0) then s else WriterMove(s, ok)
    case ReaderIoFails =>
      if Left(t.reader) then s
      else s.(th := t.(reader := Leaving, ioFailed := true),
              link := s.link.(token := s.link.token + if t.reader.Starting? then 1 else 0))
    case WriterIoFails =>
      if Left(t.writer) then s else s.(th := t.(writer := Leaving, ioFailed := true), link := s.link.(mode := Stopped))
    case KickFromOutside => s.(th := Kick(t))
    case HandleNext(accept, script) =>
      if MainRuns(s) && !t.freed && s.link.inbox != [] then HandleMsg(s, accept, script) else s
    case AcceptClient => if MainRuns(s) then s.(refs := r.(ep := Install(r.ep, NewEnd(Client, Smart([], false), true)))) else s
    case AcceptOn(n, dest) =>
      if MainRuns(s) && ListenerRefers(r.listeners, n) then
        Touch(s, true).(link := Send(s.link, [Stream(Open(r.ep.nextId, dest))]),
                        refs := r.(ep := Install(r.ep, NewEnd(Forward, Opening, false))))
      else s
    case Dispatch(id, ev) =>
      if MainRuns(s) && Deliverable(r.ep, id, ev) && (Reaches(ev.ask) ==> Acquirable(s)) then
        var e := OnEvent(id, r.ep.ends[id], ev, r.ep.limit);
        Touch(s, Uses(id, r.ep.ends[id], ev, r.ep.limit)).(link := Send(s.link, Wrap(e.sent)), refs := r.(ep := Put(r.ep, id, e.end)))
      else s
    case AddListener(l) =>
      if MainRuns(s) && (l.transport == Some(SELF) ==> Acquirable(s)) then s.(refs := r.(listeners := r.listeners + [l])) else s
    case DropListener(n) =>
      if MainRuns(s) && n < |r.listeners| then
        Touch(s, ListenerRefers(r.listeners, n)).(refs := r.(listeners := L.Erase(r.listeners, n)))
      else s
    case Free => if MainRuns(s) && !t.freed && t.removals > 0 then s.(th := t.(freed := true)) else s
  }

  function Interleave(s: State, moves: seq<Move>): State
    decreases |moves|
  {
    if moves == [] then s else Interleave(Next(s, moves[0]), moves[1..])
  }

  /** Registration has started the threads; the main thread is still in transport_registration_func. */
  function Spawned(host: bool): State
  {
    State(Threads(Starting, Working, 2, false, 0, false, 0, false, false, false),
          Link([], [], [], [], Waiting, 0),
          Refs(Endpoint(map[], 1, false, MAX_PAYLOAD), [], true, false), host, false)
  }
}
