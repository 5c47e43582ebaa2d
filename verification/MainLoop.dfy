/**
 The main thread as a whole: the event loop of module FdEvent whose callbacks are the steps of
 module Streams, each followed by the fdevent operations that keep a socket's fdevent in step with
 its record. Other callbacks (listeners, the transport's socket pair, the run queue) accept
 connections, handle packets and work on fdevents of their own, in any way; and the other side of
 the transport moves in between.
 */
module MainLoop {
  import opened Base
  import opened Descriptors
  import opened Streams
  import opened StreamInvariant
  import opened StreamRuns
  import opened StreamTheorems
  import opened Registry
  import opened SocketEvents
  import F = FdEvent

  // ----- a socket and its fdevent -----

  /** The fdevent inside socket `i`; the run queue's and those of other objects have other addresses. */
  function FdeOf(i: Id): F.Fde
  {
    2 * i + 2
  }

  predicate IsSocket(f: F.Fde)
  {
    f >= 2 && f % 2 == 0
  }

  function IdOf(f: F.Fde): (i: Id)
    requires IsSocket(f)
    ensures FdeOf(i) == f
  {
    f / 2 - 1
  }

  lemma IdOfFde(i: Id)
    ensures IsSocket(FdeOf(i)) && IdOf(FdeOf(i)) == i
  {
  }

  function MaskOf(e: End): F.Mask
  {
    F.Mask(e.readOn, e.queue != [], false, false)
  }

  /** An allocated socket's fdevent is installed and asks for what the socket wants; a freed one's is not installed. */
  predicate WatchedAt(s: F.State, m: Endpoint, i: Id)
  {
    if Allocated(m, i) then FdeOf(i) in s.fdes && s.fdes[FdeOf(i)].active && s.fdes[FdeOf(i)].mask == MaskOf(m.ends[i])
    else FdeOf(i) in s.fdes ==> !s.fdes[FdeOf(i)].active
  }

  ghost predicate Watched(s: F.State, m: Endpoint)
  {
    forall i: Id :: WatchedAt(s, m, i)
  }

  // ----- following a step -----

  /** At most one socket is new, and none comes back. */
  ghost predicate Small(m: Endpoint, m': Endpoint)
  {
    && m.nextId <= m'.nextId <= m.nextId + 1
    && (forall i :: i in m.ends ==> i < m.nextId) && (forall i :: i in m'.ends ==> i < m'.nextId)
    && forall i: Id :: !Allocated(m, i) && Allocated(m', i) ==> i == m.nextId
  }

  function OpsAt(m: Endpoint, m': Endpoint, i: Id): seq<F.Op>
  {
    if !Allocated(m, i) then []
    else if Allocated(m', i) then [F.DoSet(FdeOf(i), MaskOf(m'.ends[i]))]
    else [F.DoRemove(FdeOf(i))]
  }

  /** The sockets there were, from `i` on. */
  function Follow(m: Endpoint, m': Endpoint, i: Id): seq<F.Op>
    decreases m.nextId - i
  {
    if i >= m.nextId then [] else OpsAt(m, m', i) + Follow(m, m', i + 1)
  }

  /** The new socket, if there is one, on descriptor `fd`. */
  function NewOps(m: Endpoint, m': Endpoint, fd: int): seq<F.Op>
  {
    var i := m.nextId;
    if Allocated(m', i) then [F.DoInstall(FdeOf(i), fd), F.DoSet(FdeOf(i), MaskOf(m'.ends[i]))] else []
  }

  lemma {:induction false} CallbackAppend(s: F.State, a: seq<F.Op>, b: seq<F.Op>)
    ensures F.Callback(s, a + b) == F.Callback(F.Callback(s, a), b)
    decreases |a|
  {
    if a == [] {
      assert a + b == b;
    } else {
      assert (a + b)[1..] == a[1..] + b;
      CallbackAppend(F.Apply(s, a[0]), a[1..], b);
    }
  }

  lemma CallbackOne(s: F.State, op: F.Op)
    ensures F.Callback(s, [op]) == F.Apply(s, op)
  {
    assert F.Callback(F.Apply(s, op), []) == F.Apply(s, op);
  }

  /** The new socket and those below `k` are watched as in `m'`, the others still as in `m`. */
  ghost predicate Halfway(s: F.State, m: Endpoint, m': Endpoint, k: Id)
  {
    forall i: Id :: HalfwayAt(s, m, m', k, i)
  }

  predicate HalfwayAt(s: F.State, m: Endpoint, m': Endpoint, k: Id, i: Id)
  {
    WatchedAt(s, if i < k || i == m.nextId then m' else m, i)
  }

  lemma ApplyOther(s: F.State, op: F.Op, f: F.Fde)
    requires op.f != f
    ensures f in F.Apply(s, op).fdes <==> f in s.fdes
    ensures f in s.fdes ==> F.Apply(s, op).fdes[f] == s.fdes[f]
  {
  }

  lemma FollowOne(s: F.State, m: Endpoint, m': Endpoint, k: Id)
    requires Halfway(s, m, m', k) && Small(m, m') && k < m.nextId
    ensures Halfway(F.Callback(s, OpsAt(m, m', k)), m, m', k + 1)
  {
    var ops := OpsAt(m, m', k);
    var s' := F.Callback(s, ops);
    assert HalfwayAt(s, m, m', k, k);
    if ops != [] { CallbackOne(s, ops[0]); }
    var k' := k + 1;
    forall i: Id ensures HalfwayAt(s', m, m', k', i) {
      assert HalfwayAt(s, m, m', k, i);
      if i != k && ops != [] { ApplyOther(s, ops[0], FdeOf(i)); }
    }
  }

  lemma {:induction false} FollowAll(s: F.State, m: Endpoint, m': Endpoint, k: Id)
    requires Halfway(s, m, m', k) && Small(m, m') && k <= m.nextId
    ensures Watched(F.Callback(s, Follow(m, m', k)), m')
    decreases m.nextId - k
  {
    if k == m.nextId {
      forall i: Id ensures WatchedAt(s, m', i) {
        assert HalfwayAt(s, m, m', k, i);
      }
    } else {
      FollowOne(s, m, m', k);
      FollowAll(F.Callback(s, OpsAt(m, m', k)), m, m', k + 1);
      CallbackAppend(s, OpsAt(m, m', k), Follow(m, m', k + 1));
    }
  }

  lemma NewWatched(s: F.State, m: Endpoint, m': Endpoint, fd: int)
    requires Watched(s, m) && Small(m, m') && (Allocated(m', m.nextId) ==> fd >= 0 && fd !in s.nodes)
    ensures Halfway(F.Callback(s, NewOps(m, m', fd)), m, m', 0)
  {
    var ops, n := NewOps(m, m', fd), m.nextId;
    var s' := F.Callback(s, ops);
    assert WatchedAt(s, m, n);
    if ops != [] {
      var s1 := F.Apply(s, ops[0]);
      assert ops == [ops[0]] + [ops[1]];
      CallbackAppend(s, [ops[0]], [ops[1]]);
      CallbackOne(s, ops[0]);
      CallbackOne(s1, ops[1]);
      forall i: Id | i != n ensures WatchedAt(s', m, i) {
        assert WatchedAt(s, m, i);
        ApplyOther(s, ops[0], FdeOf(i));
        ApplyOther(s1, ops[1], FdeOf(i));
      }
    }
    forall i: Id ensures HalfwayAt(s', m, m', 0, i) { assert WatchedAt(s, m, i); }
  }

  lemma {:induction false} OthersKeep(s: F.State, ops: seq<F.Op>, m: Endpoint)
    requires Watched(s, m) && forall i :: 0 <= i < |ops| ==> !IsSocket(ops[i].f)
    ensures Watched(F.Callback(s, ops), m)
    decreases |ops|
  {
    if ops != [] {
      var s' := F.Apply(s, ops[0]);
      forall i: Id ensures WatchedAt(s', m, i) {
        assert WatchedAt(s, m, i);
        IdOfFde(i);
        ApplyOther(s, ops[0], FdeOf(i));
      }
      OthersKeep(s', ops[1..], m);
    }
  }

  // ----- a step of the protocol is small -----

  lemma {:induction false} CloseFromSmall(ep: Endpoint, id: Id)
    ensures var ep' := CloseFrom(ep, id).ep;
            && ep'.nextId == ep.nextId && ep'.ends.Keys == ep.ends.Keys
            && forall i: Id :: !Allocated(ep, i) ==> !Allocated(ep', i)
    decreases ep.nextId - id
  {
    if id < ep.nextId {
      if id in ep.ends && OnTransport(ep.ends[id]) {
        var ep1 := Put(ep, id, Close(id, ep.ends[id], false).end);
        CloseFromSmall(ep1, id + 1);
        forall i: Id | !Allocated(ep, i) ensures !Allocated(CloseFrom(ep, id).ep, i) { assert !Allocated(ep1, i); }
      } else {
        CloseFromSmall(ep, id + 1);
      }
    }
  }

  lemma HandleSmall(ep: Endpoint, p: Packet, accept: bool, script: seq<WriteResult>)
    requires EndsInv(ep)
    ensures Small(ep, Handle(ep, p, accept, script).ep)
  {
  }

  lemma StepXSmall(w: World, a: Action)
    requires EndsInv(w.x)
    ensures Small(w.x, StepX(w, a).x)
  {
    match a
    case Receive(accept, script) => if w.yx != [] { HandleSmall(w.x, w.yx[0], accept, script); }
    case GoOffline => CloseFromSmall(w.x, 1);
    case _ =>
  }

  // ----- one callback -----

  /**
   What the callback about to run meets and does. For a socket's callback: what its descriptor
   offers and what its request turns out to be. For another's: the step it takes, and operations
   on fdevents that are no socket's. `fd` is the descriptor of the socket it creates, if any;
   `remote` what the other side did in the meantime.
   */
  datatype Deed = Deed(
    remote: seq<Action>, writes: seq<WriteResult>, input: seq<ReadResult>, forceEof: bool, ask: Ask,
    step: Option<Action>, fd: int, ops: seq<F.Op>)

  const IDLE := Deed([], [], [], false, Dismissed, None, -1, [])

  function Meanwhile(w: World, remote: seq<Action>): World
    decreases |remote|
  {
    if remote == [] then w else Meanwhile(Step(w, Turn(false, remote[0])), remote[1..])
  }

  function EventIn(c: F.Call, d: Deed): Event
  {
    EventOf(c, d.writes, d.input, d.forceEof, d.ask)
  }

  /** The step the call takes; a descriptor the kernel hands out is not one that is watched. */
  function Taken(s: F.State, w: World, c: F.Call, d: Deed): World
  {
    if IsSocket(c.f) then StepX(w, Dispatch(IdOf(c.f), EventIn(c, d)))
    else if d.step.None? || d.step.value.Dispatch? then w
    else
      var w' := StepX(w, d.step.value);
      if Allocated(w'.x, w.x.nextId) && (d.fd < 0 || d.fd in s.nodes) then w else w'
  }

  function Strangers(ops: seq<F.Op>): seq<F.Op>
  {
    if ops == [] then [] else (if IsSocket(ops[0].f) then [] else [ops[0]]) + Strangers(ops[1..])
  }

  /** The fdevent operations of the call. */
  function Script(m: Endpoint, m': Endpoint, d: Deed): seq<F.Op>
  {
    NewOps(m, m', d.fd) + Follow(m, m', 0) + Strangers(d.ops)
  }

  lemma {:induction false} StrangersAre(ops: seq<F.Op>)
    ensures forall i :: 0 <= i < |Strangers(ops)| ==> !IsSocket(Strangers(ops)[i].f)
  {
    if ops != [] { StrangersAre(ops[1..]); }
  }

  lemma {:induction false} MeanwhileInv(w: World, remote: seq<Action>)
    requires Inv(w)
    ensures Inv(Meanwhile(w, remote)) && Meanwhile(w, remote).x == w.x
    decreases |remote|
  {
    if remote != [] {
      StepInv(w, Turn(false, remote[0]));
      StepLimit(Swap(w), remote[0]);
      MeanwhileInv(Step(w, Turn(false, remote[0])), remote[1..]);
    }
  }

  lemma StepXNoNew(w: World, id: Id, ev: Event)
    requires EndsInv(w.x)
    ensures !Allocated(StepX(w, Dispatch(id, ev)).x, w.x.nextId)
  {
  }

  lemma TakenInv(s: F.State, w: World, c: F.Call, d: Deed)
    requires Inv(w)
    ensures var w' := Taken(s, w, c, d);
            Inv(w') && Small(w.x, w'.x) && (Allocated(w'.x, w.x.nextId) ==> d.fd >= 0 && d.fd !in s.nodes)
  {
    if IsSocket(c.f) {
      var a := Dispatch(IdOf(c.f), EventIn(c, d));
      StepInv(w, Turn(true, a));
      StepXSmall(w, a);
      StepXNoNew(w, IdOf(c.f), EventIn(c, d));
    } else if d.step.Some? {
      StepInv(w, Turn(true, d.step.value));
      StepXSmall(w, d.step.value);
    }
  }

  /** A callback leaves every socket's fdevent in step with the socket. */
  lemma CallbackWatched(s: F.State, m: Endpoint, m': Endpoint, d: Deed)
    requires Watched(s, m) && Small(m, m') && (Allocated(m', m.nextId) ==> d.fd >= 0 && d.fd !in s.nodes)
    ensures Watched(F.Callback(s, Script(m, m', d)), m')
  {
    var a, b, c := NewOps(m, m', d.fd), Follow(m, m', 0), Strangers(d.ops);
    NewWatched(s, m, m', d.fd);
    var s1 := F.Callback(s, a);
    FollowAll(s1, m, m', 0);
    CallbackAppend(s, a, b);
    StrangersAre(d.ops);
    OthersKeep(F.Callback(s1, b), c, m');
    CallbackAppend(s, a + b, c);
  }

  // ----- the inner loop -----

  /** One call: what it left, the socket table it found, and its operations on fdevents. */
  datatype Turnover = Turnover(state: F.State, w: World, call: F.Call, met: Endpoint, script: seq<F.Op>)

  ghost function ServeFirst(s: F.State, w: World, d: Deed): (t: Turnover)
    requires F.Inv(s) && s.pending != []
    ensures F.Inv(t.state) && |t.state.pending| < |s.pending|
  {
    var f := s.pending[0];
    var c := F.Call(f, s.fdes[f].events, s.fdes[f]);
    var w0 := Meanwhile(w, d.remote);
    F.PopInv(s);
    var w1 := Taken(F.Pop(s), w0, c, d);
    var ops := Script(w0.x, w1.x, d);
    F.CallbackInv(F.Pop(s), ops);
    F.CallbackShrinks(F.Pop(s), ops);
    Turnover(F.Callback(F.Pop(s), ops), w1, c, w0.x, ops)
  }

  datatype Served = Served(state: F.State, w: World, calls: seq<F.Call>, met: seq<Endpoint>, deeds: seq<Deed>, scripts: seq<seq<F.Op>>)

  function Head(deeds: seq<Deed>): Deed
  {
    if deeds == [] then IDLE else deeds[0]
  }

  function Tail(deeds: seq<Deed>): seq<Deed>
  {
    if deeds == [] then [] else deeds[1..]
  }

  ghost function Serve(s: F.State, w: World, deeds: seq<Deed>): (r: Served)
    requires F.Inv(s)
    ensures F.Inv(r.state) && r.state.pending == [] && |r.met| == |r.calls| == |r.deeds|
    decreases |s.pending|
  {
    if s.pending == [] then Served(s, w, [], [], [], [])
    else
      var t := ServeFirst(s, w, Head(deeds));
      var r := Serve(t.state, t.w, Tail(deeds));
      Served(r.state, r.w, [t.call] + r.calls, [t.met] + r.met, [Head(deeds)] + r.deeds, [t.script] + r.scripts)
  }

  /** A call for a socket finds it allocated, and its fdevent asking for what the socket wants. */
  predicate InStep(c: F.Call, m: Endpoint)
  {
    IsSocket(c.f) ==> Allocated(m, IdOf(c.f)) && c.at.mask == MaskOf(m.ends[IdOf(c.f)])
  }

  lemma PopWatched(s: F.State, m: Endpoint)
    requires F.Inv(s) && s.pending != [] && Watched(s, m)
    ensures Watched(F.Pop(s), m)
    ensures var f := s.pending[0]; InStep(F.Call(f, s.fdes[f].events, s.fdes[f]), m)
  {
    var f := s.pending[0];
    assert F.FdeOk(s, f);
    forall i: Id ensures WatchedAt(F.Pop(s), m, i) { assert WatchedAt(s, m, i); }
    if IsSocket(f) { assert WatchedAt(s, m, IdOf(f)); }
  }

  predicate AllInStep(calls: seq<F.Call>, met: seq<Endpoint>)
    requires |calls| == |met|
  {
    forall k :: 0 <= k < |calls| ==> InStep(calls[k], met[k])
  }

  lemma InStepFirst(c: F.Call, m: Endpoint, calls: seq<F.Call>, met: seq<Endpoint>)
    requires InStep(c, m) && |calls| == |met| && AllInStep(calls, met)
    ensures AllInStep([c] + calls, [m] + met)
  {
  }

  lemma FirstWatched(s: F.State, w: World, d: Deed)
    requires F.Inv(s) && s.pending != [] && Watched(s, w.x) && Inv(w)
    ensures var t := ServeFirst(s, w, d); Watched(t.state, t.w.x) && Inv(t.w) && InStep(t.call, t.met)
  {
    var t, w0 := ServeFirst(s, w, d), Meanwhile(w, d.remote);
    MeanwhileInv(w, d.remote);
    PopWatched(s, w.x);
    TakenInv(F.Pop(s), w0, t.call, d);
    CallbackWatched(F.Pop(s), w0.x, t.w.x, d);
  }

  lemma {:induction false} ServeWatched(s: F.State, w: World, deeds: seq<Deed>)
    requires F.Inv(s) && Watched(s, w.x) && Inv(w)
    ensures var r := Serve(s, w, deeds);
            Watched(r.state, r.w.x) && Inv(r.w) && AllInStep(r.calls, r.met)
    decreases |s.pending|
  {
    if s.pending != [] {
      var t := ServeFirst(s, w, Head(deeds));
      FirstWatched(s, w, Head(deeds));
      ServeWatched(t.state, t.w, Tail(deeds));
      var r := Serve(t.state, t.w, Tail(deeds));
      InStepFirst(t.call, t.met, r.calls, r.met);
    }
  }

  /** To the event loop the callbacks are scripts like any other. */
  lemma {:induction false} ServeDispatches(s: F.State, w: World, deeds: seq<Deed>)
    requires F.Inv(s)
    ensures var r := Serve(s, w, deeds); F.DispatchAll(s, r.scripts) == F.Dispatched(r.state, r.calls)
    decreases |s.pending|
  {
    if s.pending != [] {
      var t, r := ServeFirst(s, w, Head(deeds)), Serve(s, w, deeds);
      ServeDispatches(t.state, t.w, Tail(deeds));
      assert r.scripts[0] == t.script && r.scripts[1..] == Serve(t.state, t.w, Tail(deeds)).scripts;
    }
  }

  // ----- the loop -----

  datatype Joint = Joint(state: F.State, w: World)

  datatype Round = Round(order: seq<int>, report: map<int, F.Revents>, deeds: seq<Deed>)

  ghost predicate Possible(s: F.State, r: Round)
  {
    F.RoundOk(s, F.Round(r.order, r.report, []))
  }

  ghost function OneRound(j: Joint, r: Round): Served
    requires F.Inv(j.state) && Possible(j.state, r)
  {
    Serve(F.MarkAll(j.state, r.order, r.report), j.w, r.deeds)
  }

  /** fdevent_loop; a round poll cannot report is no round. */
  ghost function Loop(j: Joint, rounds: seq<Round>): (j': Joint)
    requires F.Inv(j.state) && j.state.pending == []
    ensures F.Inv(j'.state) && j'.state.pending == []
    decreases |rounds|
  {
    if rounds == [] then j
    else if !Possible(j.state, rounds[0]) then Loop(j, rounds[1..])
    else var r := OneRound(j, rounds[0]); Loop(Joint(r.state, r.w), rounds[1..])
  }

  /** Only the run queue's fdevent, on descriptor `fd`, and no sockets. */
  function Begin(fd: int, limit: nat): Joint
  {
    Joint(F.State(map[F.RUN_QUEUE := F.FdEvent(fd, true, false, F.FDE_READ, F.NOTHING)],
                  map[fd := F.PollNode(F.RUN_QUEUE, true, false)], []),
          Start(limit))
  }

  lemma BeginInv(fd: int, limit: nat)
    ensures var j := Begin(fd, limit); F.Inv(j.state) && j.state.pending == [] && Watched(j.state, j.w.x) && Inv(j.w)
  {
    StartInv(limit);
  }

  lemma {:induction false} MarkAllWatched(s: F.State, order: seq<int>, report: map<int, F.Revents>, m: Endpoint)
    requires F.Inv(s) && F.Polled(s, order, report) && Watched(s, m)
    ensures Watched(F.MarkAll(s, order, report), m)
    decreases |order|
  {
    if order != [] {
      assert F.NodeOk(s, order[0]);
      F.MarkInv(s, order[0], report[order[0]]);
      F.PolledRest(s, order, report);
      var s' := F.Mark(s, order[0], report[order[0]]);
      forall i: Id ensures WatchedAt(s', m, i) { assert WatchedAt(s, m, i); }
      MarkAllWatched(s', order[1..], report, m);
    }
  }

  /** After any number of rounds every socket's fdevent is in step with the socket. */
  lemma {:induction false} LoopWatched(j: Joint, rounds: seq<Round>)
    requires F.Inv(j.state) && j.state.pending == [] && Watched(j.state, j.w.x) && Inv(j.w)
    ensures var j' := Loop(j, rounds); Watched(j'.state, j'.w.x) && Inv(j'.w)
    decreases |rounds|
  {
    if rounds != [] {
      if Possible(j.state, rounds[0]) {
        MarkAllWatched(j.state, rounds[0].order, rounds[0].report, j.w.x);
        ServeWatched(F.MarkAll(j.state, rounds[0].order, rounds[0].report), j.w, rounds[0].deeds);
        var r := OneRound(j, rounds[0]);
        LoopWatched(Joint(r.state, r.w), rounds[1..]);
      } else {
        LoopWatched(j, rounds[1..]);
      }
    }
  }

  /** What the loop watches for is what the socket's record says. */
  lemma InStepAsRecorded(c: F.Call, r: Registry, m: Endpoint)
    requires Rep(r, m, None) && IsSocket(c.f) && InStep(c, m)
    ensures Loc(IdOf(c.f)) in r.mem && AsRecorded(c.at, r.mem[Loc(IdOf(c.f))])
  {
    assert MirrorsAt(r.mem, m, IdOf(c.f));
  }

  /**
   In every run of the main thread, whatever poll reports, the kernel delivers, the other side
   sends and other callbacks do: each call of a socket's callback is an event the protocol allows
   on the socket table it finds, and a read without FDE_READ happens only when poll reported
   trouble on the socket's descriptor.
   */
  lemma EveryCallIsDeliverable(fd: int, limit: nat, rounds: seq<Round>, last: Round, k: nat)
    requires Possible(Loop(Begin(fd, limit), rounds).state, last)
    requires var r := OneRound(Loop(Begin(fd, limit), rounds), last); k < |r.calls| && IsSocket(r.calls[k].f)
    ensures var r := OneRound(Loop(Begin(fd, limit), rounds), last);
            var c, m, ev := r.calls[k], r.met[k], EventIn(r.calls[k], r.deeds[k]);
            && Deliverable(m, IdOf(c.f), ev)
            && c.at.fd in last.report
            && (NoHangUp(m, Dispatch(IdOf(c.f), ev)) || last.report[c.at.fd].trouble)
  {
    BeginInv(fd, limit);
    LoopWatched(Begin(fd, limit), rounds);
    var j := Loop(Begin(fd, limit), rounds);
    var marked := F.MarkAll(j.state, last.order, last.report);
    MarkAllWatched(j.state, last.order, last.report, j.w.x);
    ServeWatched(marked, j.w, last.deeds);
    ServeDispatches(marked, j.w, last.deeds);
    var r := OneRound(j, last);
    var c := r.calls[k];
    F.RoundCalls(j.state, F.Round(last.order, last.report, r.scripts));
    assert InStep(c, r.met[k]) && c in r.calls && F.CallOk(c);
  }

  // ----- the loop as a run of the protocol -----

  lemma {:induction false} RunAppend(w: World, a: seq<Turn>, b: seq<Turn>)
    ensures Run(w, a + b) == Run(Run(w, a), b)
    decreases |a|
  {
    if a == [] {
      assert a + b == b;
    } else {
      assert (a + b)[1..] == a[1..] + b;
      RunAppend(Step(w, a[0]), a[1..], b);
    }
  }

  lemma Then(w: World, a: seq<Turn>, b: seq<Turn>) returns (turns: seq<Turn>)
    ensures Run(w, turns) == Run(Run(w, a), b)
  {
    turns := a + b;
    RunAppend(w, a, b);
  }

  lemma {:induction false} MeanwhileRuns(w: World, remote: seq<Action>) returns (turns: seq<Turn>)
    ensures Run(w, turns) == Meanwhile(w, remote)
    decreases |remote|
  {
    turns := [];
    if remote != [] {
      var t := Turn(false, remote[0]);
      var rest := MeanwhileRuns(Step(w, t), remote[1..]);
      turns := [t] + rest;
      assert turns[1..] == rest;
    }
  }

  lemma TakenRuns(s: F.State, w: World, c: F.Call, d: Deed) returns (turns: seq<Turn>)
    ensures Run(w, turns) == Taken(s, w, c, d)
  {
    turns := [];
    if Taken(s, w, c, d) != w {
      var a := if IsSocket(c.f) then Dispatch(IdOf(c.f), EventIn(c, d)) else d.step.value;
      turns := [Turn(true, a)];
      assert Run(Step(w, turns[0]), []) == Step(w, turns[0]);
    }
  }

  lemma {:induction false} ServeRuns(s: F.State, w: World, deeds: seq<Deed>) returns (turns: seq<Turn>)
    requires F.Inv(s)
    ensures Run(w, turns) == Serve(s, w, deeds).w
    decreases |s.pending|
  {
    turns := [];
    if s.pending != [] {
      var d := Head(deeds);
      var t := ServeFirst(s, w, d);
      turns := MeanwhileRuns(w, d.remote);
      var rest := TakenRuns(F.Pop(s), Meanwhile(w, d.remote), t.call, d);
      turns := Then(w, turns, rest);
      rest := ServeRuns(t.state, t.w, Tail(deeds));
      turns := Then(w, turns, rest);
    }
  }

  lemma {:induction false} LoopRuns(j: Joint, rounds: seq<Round>) returns (turns: seq<Turn>)
    requires F.Inv(j.state) && j.state.pending == []
    ensures Run(j.w, turns) == Loop(j, rounds).w
    decreases |rounds|
  {
    turns := [];
    if rounds != [] {
      if Possible(j.state, rounds[0]) {
        var r := OneRound(j, rounds[0]);
        turns := ServeRuns(F.MarkAll(j.state, rounds[0].order, rounds[0].report), j.w, rounds[0].deeds);
        var rest := LoopRuns(Joint(r.state, r.w), rounds[1..]);
        turns := Then(j.w, turns, rest);
      } else {
        turns := LoopRuns(j, rounds[1..]);
      }
    }
  }

  /** Whatever the main thread does under the event loop is a run of the protocol, so all that holds of every run holds of it. */
  lemma LoopIsRun(fd: int, limit: nat, rounds: seq<Round>) returns (turns: seq<Turn>)
    ensures Loop(Begin(fd, limit), rounds).w == Run(Start(limit), turns)
  {
    BeginInv(fd, limit);
    turns := LoopRuns(Begin(fd, limit), rounds);
  }
}
