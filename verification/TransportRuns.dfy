/** What holds in every interleaving of a transport's threads. */
module TransportRuns {
  import opened Base
  import opened Descriptors
  import opened Streams
  import opened StreamInvariant
  import opened StreamPairs
  import opened StreamRuns
  import opened Transport
  import L = Listeners

  predicate SyncUp(m: Msg)
  {
    m.Sync? && m.arg0 != 0
  }

  predicate SyncDown(m: Msg)
  {
    m.Sync? && m.arg0 == 0
  }

  /** On the host every SYNC(1, token) the main thread echoes is followed at once by CNXN. */
  predicate Greets(sent: seq<Msg>)
  {
    forall i :: 0 <= i < |sent| && SyncUp(sent[i]) ==> i + 1 < |sent| && sent[i + 1].Cnxn?
  }

  predicate LinkInv(s: State)
  {
    var k := s.link;
    && (k.sent != [] ==> s.th.enlisted)
    && k.token == (if s.th.reader.Starting? then 0 else TOKEN)
    && (forall m :: m in k.outbox ==> m in k.sent)
    && (s.th.reader.Starting? ==> k.inbox == [] && forall m :: m in k.sent ==> !SyncUp(m))
    && (s.host ==> Greets(k.sent))
    && if s.th.writer.Working? then Pumps(k) else k.mode.Stopped? && k.wire <= Forwarded(Waiting, k.sent)
  }

  /** SYNC(0) is the last message of the reader, and whatever follows from its being handled. */
  predicate TearInv(s: State)
  {
    var t, k := s.th, s.link;
    && (!Left(t.reader) ==> !s.refs.closed && forall m :: m in k.inbox ==> !SyncDown(m))
    && (forall i :: 0 <= i < |k.inbox| && SyncDown(k.inbox[i]) ==> i == |k.inbox| - 1)
    && (s.refs.closed ==> k.inbox == [])
    && (Left(t.reader) && !t.ioFailed ==> s.refs.closed || (k.inbox != [] && SyncDown(k.inbox[|k.inbox| - 1])))
    && (forall m :: m in k.sent && SyncDown(m) ==> s.refs.closed)
    && (Left(t.writer) && !t.writeFailed && !t.ioFailed ==> s.refs.closed)
  }

  ghost predicate Inv(s: State)
  {
    ThreadInv(s.th) && LinkInv(s) && TearInv(s) && RefsInv(s.refs) && (s.late ==> s.th.freed)
  }

  // ----- the link -----

  /** The main thread writes `msgs`. */
  lemma SendLink(s: State, msgs: seq<Msg>)
    requires LinkInv(s) && MainRuns(s)
    requires forall m :: m in msgs && SyncUp(m) ==> !s.th.reader.Starting?
    requires s.host ==> Greets(msgs)
    ensures LinkInv(s.(link := Send(s.link, msgs)))
  {
    var k := s.link;
    ForwardedAppend(k.mode, k.outbox, msgs);
    ForwardedAppend(Waiting, k.sent, msgs);
    assert k.wire + (Forwarded(k.mode, k.outbox) + Forwarded(ModeAfter(k.mode, k.outbox), msgs))
        == k.wire + Forwarded(k.mode, k.outbox) + Forwarded(ModeAfter(k.mode, k.outbox), msgs);
    if s.host { GreetsAppend(k.sent, msgs); }
  }

  lemma GreetsAppend(a: seq<Msg>, b: seq<Msg>)
    requires Greets(a) && Greets(b)
    ensures Greets(a + b)
  {
    forall i | 0 <= i < |a + b| && SyncUp((a + b)[i]) ensures i + 1 < |a + b| && (a + b)[i + 1].Cnxn? {
      if i < |a| { assert SyncUp(a[i]); } else { assert SyncUp(b[i - |a|]); }
    }
  }

  /** The writer's own bookkeeping, on the parts of the link it looks at. */
  predicate Pumps(k: Link)
  {
    && !k.mode.Stopped?
    && k.wire + Forwarded(k.mode, k.outbox) == Forwarded(Waiting, k.sent)
    && ModeAfter(k.mode, k.outbox) == ModeAfter(Waiting, k.sent)
  }

  /** A message read by the writer moves from the outbox to the wire, or is dropped. */
  function Pumped(k: Link): Link
    requires k.outbox != []
  {
    var m := k.outbox[0];
    k.(outbox := k.outbox[1..], mode := NextMode(k.mode, m), wire := k.wire + if k.mode.Active? && !m.Sync? then [m] else [])
  }

  lemma PumpOne(k: Link)
    requires Pumps(k) && k.outbox != [] && !SyncDown(k.outbox[0])
    ensures Pumps(Pumped(k))
  {
    var m := k.outbox[0];
    var rest := Forwarded(NextMode(k.mode, m), k.outbox[1..]);
    var out := if k.mode.Active? && !m.Sync? then [m] else [];
    assert k.wire + (out + rest) == k.wire + out + rest;
  }

  lemma WriterShape(s: State, ok: bool)
    requires s.th.writer.Working? && s.link.outbox != [] && !s.link.mode.Stopped?
    requires SyncUp(s.link.outbox[0]) ==> s.link.token == TOKEN
    ensures var s', m := WriterMove(s, ok), s.link.outbox[0];
            && s'.refs == s.refs && s'.host == s.host
            && s'.th == s.th.(writer := s'.th.writer, writeFailed := s'.th.writeFailed)
            && if s'.th.writer.Working? then s'.th == s.th && !SyncDown(m) && s'.link == Pumped(s.link)
               else s'.th.writer.Leaving? && s'.link == s.link.(outbox := s.link.outbox[1..], mode := Stopped) &&
                    (SyncDown(m) || s'.th.writeFailed)
  {
    var k, m := s.link, s.link.outbox[0];
    if SyncDown(m) {
      assert WriterMove(s, ok) == s.(th := s.th.(writer := Leaving), link := k.(outbox := k.outbox[1..], mode := Stopped));
    } else if m.Sync? || !k.mode.Active? {
      assert k.wire + [] == k.wire;
    }
  }

  lemma WriterLink(s: State, ok: bool)
    requires ThreadInv(s.th) && LinkInv(s)
    ensures LinkInv(WriterMove(s, ok))
  {
    var k, s' := s.link, WriterMove(s, ok);
    if s.th.writer.Working? && k.outbox != [] {
      assert k.outbox[0] in k.sent;
      WriterShape(s, ok);
      if s'.th.writer.Working? { PumpOne(k); } else { assert k.wire <= Forwarded(Waiting, k.sent); }
    }
  }

  /** The first message that reaches the host's wire is CNXN. */
  lemma {:induction false} FirstIsCnxn(sent: seq<Msg>)
    requires Greets(sent) && Forwarded(Waiting, sent) != []
    ensures Forwarded(Waiting, sent)[0].Cnxn?
    decreases |sent|
  {
    if NextMode(Waiting, sent[0]).Active? {
      assert sent[1].Cnxn?;
      assert sent[1..][0] == sent[1];
    } else if NextMode(Waiting, sent[0]).Stopped? {
      StoppedForwardsNothing(sent[1..]);
    } else {
      assert Greets(sent[1..]) by {
        forall i | 0 <= i < |sent[1..]| && SyncUp(sent[1..][i]) ensures i + 1 < |sent[1..]| && sent[1..][i + 1].Cnxn? {
          assert SyncUp(sent[i + 1]);
        }
      }
      FirstIsCnxn(sent[1..]);
    }
  }

  lemma {:induction false} StoppedForwardsNothing(msgs: seq<Msg>)
    ensures Forwarded(Stopped, msgs) == []
  {
    if msgs != [] { StoppedForwardsNothing(msgs[1..]); }
  }

  // ----- what refers to the transport -----

  /** handle_offline leaves no live socket and no listener that refers to the transport. */
  lemma OfflineRefs(r: Refs)
    requires RefsInv(r)
    ensures RefsInv(Offline(r)) && Released(Offline(r).ep, Offline(r).listeners)
  {
    NoneLeft(r.ep, 1);
    CloseFromKeeps(r.ep, 1);
    L.WithoutTransportMeaning(r.listeners, SELF);
    var l := Offline(r).listeners;
    forall k ensures !ListenerRefers(l, k) {
      if 0 <= k < |l| { assert l[k] in l; }
    }
  }

  lemma {:induction false} CloseFromKeeps(ep: Endpoint, id: Id)
    ensures var ep' := CloseFrom(ep, id).ep;
            && ep'.nextId == ep.nextId && ep'.online == ep.online
            && forall a :: a in ep'.ends && ep'.ends[a].phase.Smart? ==> a in ep.ends && ep'.ends[a] == ep.ends[a]
    decreases ep.nextId - id
  {
    if id < ep.nextId {
      if id in ep.ends && OnTransport(ep.ends[id]) {
        CloseFromKeeps(Put(ep, id, Close(id, ep.ends[id], false).end), id + 1);
      } else {
        CloseFromKeeps(ep, id + 1);
      }
    }
  }

  /** Unless the transport is acquired, no event makes a socket refer to it that did not. */
  lemma EventStaysDead(id: Id, e: End, ev: Event, limit: nat)
    requires !OnTransport(e) && !e.phase.Closed? && !Reaches(ev.ask)
    requires (e.phase.Smart? ==> e.queue == []) && (ev.writable ==> e.queue != [])
    ensures var e' := OnEvent(id, e, ev, limit).end;
            && !OnTransport(e') && e'.origin == e.origin
            && (e'.phase.Smart? ==> e'.queue == []) && (e'.phase.Draining? ==> e.phase.Draining?)
  {
    var avail := ReadLimit(e, limit);
    var r := Descriptors.Pull(avail, ev.input);
    if e.phase.Smart? && ev.readable && r.data != [] { RouteShape(id, e, r.data, r.eof, ev, avail); }
  }

  lemma EventSmart(id: Id, e: End, ev: Event, limit: nat)
    requires (e.phase.Smart? ==> e.queue == []) && (ev.writable ==> e.queue != [])
    ensures var e' := OnEvent(id, e, ev, limit).end; e'.phase.Smart? ==> e'.queue == []
  {
    var avail := ReadLimit(e, limit);
    var r := Descriptors.Pull(avail, ev.input);
    if e.phase.Smart? && ev.readable && r.data != [] { RouteShape(id, e, r.data, r.eof, ev, avail); }
  }

  lemma EventRefs(r: Refs, id: Id, ev: Event)
    requires RefsInv(r) && Deliverable(r.ep, id, ev) && (Reaches(ev.ask) ==> !r.offline)
    ensures RefsInv(r.(ep := Put(r.ep, id, OnEvent(id, r.ep.ends[id], ev, r.ep.limit).end)))
  {
    EventSmart(id, r.ep.ends[id], ev, r.ep.limit);
    if r.offline {
      assert !SocketRefers(r.ep, id);
      EventStaysDead(id, r.ep.ends[id], ev, r.ep.limit);
      var r' := r.(ep := Put(r.ep, id, OnEvent(id, r.ep.ends[id], ev, r.ep.limit).end));
      forall a ensures !SocketRefers(r'.ep, a) { assert !SocketRefers(r.ep, a); }
    }
  }

  lemma HandleRefs(r: Refs, p: Packet, accept: bool, script: seq<WriteResult>)
    requires RefsInv(r)
    ensures RefsInv(r.(ep := Handle(r.ep, p, accept, script).ep))
  {
    if !r.offline { HandleKeepsIds(r.ep, p, accept, script); }
  }

  lemma HandleKeepsIds(ep: Endpoint, p: Packet, accept: bool, script: seq<WriteResult>)
    requires 1 <= ep.nextId && (forall id :: id in ep.ends ==> 1 <= id < ep.nextId)
    requires forall id :: id in ep.ends && ep.ends[id].phase.Smart? ==> ep.ends[id].queue == []
    ensures var ep' := Handle(ep, p, accept, script).ep;
            && ep'.online == ep.online && 1 <= ep'.nextId && (forall id :: id in ep'.ends ==> 1 <= id < ep'.nextId)
            && forall id :: id in ep'.ends && ep'.ends[id].phase.Smart? ==> ep'.ends[id].queue == []
  {
  }

  // ----- steps -----

  /** The reader puts `msgs` in the inbox. */
  lemma ReaderPuts(s: State, msgs: seq<Msg>, life: Life, token: nat)
    requires Inv(s) && !Left(s.th.reader) && !life.Gone? && !life.Starting? && token == TOKEN
    requires forall i :: 0 <= i < |msgs| - 1 ==> !SyncDown(msgs[i])
    requires if Left(life) then msgs != [] && SyncDown(msgs[|msgs| - 1]) else forall m :: m in msgs ==> !SyncDown(m)
    ensures Inv(s.(th := s.th.(reader := life), link := s.link.(inbox := s.link.inbox + msgs, token := token)))
  {
  }

  /** Kicking, dropping a reference and freeing concern the threads alone. */
  predicate SameCourse(t: Threads, t': Threads)
  {
    && t'.reader.Starting? == t.reader.Starting? && Left(t'.reader) == Left(t.reader)
    && t'.writer.Working? == t.writer.Working? && Left(t'.writer) == Left(t.writer)
    && t'.enlisted == t.enlisted && t'.writeFailed == t.writeFailed && t'.ioFailed == t.ioFailed && (t.freed ==> t'.freed)
  }

  lemma ThreadsOnly(s: State, t: Threads)
    requires Inv(s) && ThreadInv(t) && SameCourse(s.th, t)
    ensures Inv(s.(th := t))
  {
  }

  lemma LeaveThreads(t: Threads)
    requires ThreadInv(t)
    ensures Left(t.reader) ==> ThreadInv(ReaderLeaves(t)) && SameCourse(t, ReaderLeaves(t))
    ensures Left(t.writer) ==> ThreadInv(WriterLeaves(t)) && SameCourse(t, WriterLeaves(t))
  {
  }

  /** What the reader does before it leaves, as messages put in the inbox. */
  lemma ReaderShape(s: State, remote: Option<Msg>)
    requires !Left(s.th.reader) && s.link.token == (if s.th.reader.Starting? then 0 else TOKEN)
    ensures var s' := ReaderMove(s, remote);
            var msgs := if s.th.reader.Starting? then [Sync(1, 1)] else if s.th.reader.Ended? then [Sync(0, 0)]
                        else if remote.Some? && !remote.value.Sync? then [remote.value] else [];
            s' == s.(th := s.th.(reader := s'.th.reader), link := s.link.(inbox := s.link.inbox + msgs, token := TOKEN))
            && s'.th.reader == if s.th.reader.Ended? then Leaving else if s.th.reader.Working? && remote.None? then Ended else Working
  {
    assert s.link.inbox + [] == s.link.inbox;
  }

  lemma ReaderWorks(s: State, remote: Option<Msg>)
    requires Inv(s) && !Left(s.th.reader)
    ensures Inv(ReaderMove(s, remote))
  {
    ReaderShape(s, remote);
    var msgs := if s.th.reader.Starting? then [Sync(1, 1)] else if s.th.reader.Ended? then [Sync(0, 0)]
                else if remote.Some? && !remote.value.Sync? then [remote.value] else [];
    ReaderPuts(s, msgs, ReaderMove(s, remote).th.reader, TOKEN);
  }

  lemma ReaderInv(s: State, remote: Option<Msg>)
    requires Inv(s)
    ensures Inv(ReaderMove(s, remote))
  {
    if Left(s.th.reader) {
      LeaveThreads(s.th);
      var t := ReaderLeaves(s.th);
      ThreadsOnly(s, t);
      assert ReaderMove(s, remote) == s.(th := t);
    } else {
      ReaderWorks(s, remote);
    }
  }

  lemma WriterInv(s: State, ok: bool)
    requires Inv(s)
    ensures Inv(WriterMove(s, ok))
  {
    WriterLink(s, ok);
    var k := s.link;
    if s.th.writer.Working? && k.outbox != [] {
      assert k.outbox[0] in k.sent;
      WriterShape(s, ok);
    }
  }

  /** The main thread, having read the first message or none, writes `msgs` and changes who refers to the transport. */
  lemma MainInv(s: State, pop: bool, msgs: seq<Msg>, r: Refs, late: bool)
    requires Inv(s) && MainRuns(s) && RefsInv(r) && (pop ==> s.link.inbox != []) && (late ==> s.th.freed)
    requires if pop && SyncDown(s.link.inbox[0]) then r.closed else r.closed == s.refs.closed
    requires forall m :: m in msgs && SyncDown(m) ==> r.closed
    requires forall m :: m in msgs && SyncUp(m) ==> !s.th.reader.Starting?
    requires s.host ==> Greets(msgs)
    ensures Inv(s.(link := Send(if pop then s.link.(inbox := s.link.inbox[1..]) else s.link, msgs), refs := r, late := late))
  {
    var k := if pop then s.link.(inbox := s.link.inbox[1..]) else s.link;
    assert LinkInv(s.(link := k));
    SendLink(s.(link := k), msgs);
  }

  lemma AnswerRefs(host: bool, r: Refs, m: Msg, accept: bool, script: seq<WriteResult>)
    requires RefsInv(r) && (m.Cnxn? ==> !r.closed)
    ensures RefsInv(AnswerTo(host, r, m, accept, script).refs)
  {
    OfflineRefs(r);
    if m.Stream? { HandleRefs(r, m.packet, accept, script); }
  }

  lemma HandleMsgInv(s: State, accept: bool, script: seq<WriteResult>)
    requires Inv(s) && MainRuns(s) && s.link.inbox != []
    ensures Inv(HandleMsg(s, accept, script))
  {
    var m := s.link.inbox[0];
    var a := AnswerTo(s.host, s.refs, m, accept, script);
    AnswerRefs(s.host, s.refs, m, accept, script);
    MainInv(s, true, a.msgs, a.refs, s.late);
  }

  lemma StepInv(s: State, a: Move)
    requires Inv(s)
    ensures Inv(Next(s, a))
  {
    var s' := Next(s, a);
    match a
    case ReaderStep(remote) => ReaderInv(s, remote);
    case WriterStep(ok) => WriterInv(s, ok);
    case HandleNext(accept, script) => if s' != s { HandleMsgInv(s, accept, script); }
    case Free => if s' != s { ThreadsOnly(s, s'.th); }
    case KickFromOutside => ThreadsOnly(s, s'.th);
    case Enlist => EnlistInv(s);
    case ReaderIoFails => IoFailInv(s, a);
    case WriterIoFails => IoFailInv(s, a);
    case _ => if s' != s { ActStep(s, a); }
  }

  lemma EnlistInv(s: State)
    requires Inv(s)
    ensures Inv(Next(s, Enlist))
  {
  }

  lemma IoFailInv(s: State, a: Move)
    requires Inv(s) && (a.ReaderIoFails? || a.WriterIoFails?)
    ensures Inv(Next(s, a))
  {
    assert s.link.wire <= Forwarded(Waiting, s.link.sent);
  }

  /** The main thread serves clients, sockets and listeners. */
  lemma ActRefs(s: State, a: Move)
    requires RefsInv(s.refs) && Next(s, a) != s
    requires a.AcceptClient? || a.AcceptOn? || a.Dispatch? || a.AddListener? || a.DropListener?
    ensures RefsInv(Next(s, a).refs) && Next(s, a).refs.closed == s.refs.closed
  {
    var r, r' := s.refs, Next(s, a).refs;
    match a
    case AcceptClient =>
      forall id ensures r.offline ==> !SocketRefers(r'.ep, id) { assert r.offline ==> !SocketRefers(r.ep, id); }
    case AcceptOn(n, dest) =>
    case Dispatch(id, ev) => EventRefs(r, id, ev);
    case AddListener(l) =>
      forall k ensures r.offline ==> !ListenerRefers(r'.listeners, k) { assert r.offline ==> !ListenerRefers(r.listeners, k); }
    case DropListener(n) =>
      forall k ensures r.offline ==> !ListenerRefers(r'.listeners, k) {
        assert r.offline ==> !ListenerRefers(r.listeners, if k < n then k else k + 1);
      }
  }

  function ActMsgs(s: State, a: Move): (msgs: seq<Msg>)
    requires a.Dispatch? ==> a.id in s.refs.ep.ends
    ensures forall i :: 0 <= i < |msgs| ==> msgs[i].Stream?
  {
    match a
    case AcceptOn(_, dest) => [Stream(Open(s.refs.ep.nextId, dest))]
    case Dispatch(id, ev) => Wrap(OnEvent(id, s.refs.ep.ends[id], ev, s.refs.ep.limit).sent)
    case _ => []
  }

  lemma ActShape(s: State, a: Move)
    requires Next(s, a) != s
    requires a.AcceptClient? || a.AcceptOn? || a.Dispatch? || a.AddListener? || a.DropListener?
    ensures a.Dispatch? ==> a.id in s.refs.ep.ends
    ensures MainRuns(s)
    ensures var s' := Next(s, a);
            s' == s.(link := Send(s.link, ActMsgs(s, a)), refs := s'.refs, late := s'.late) && (s'.late ==> s.late || s.th.freed)
  {
    assert Send(s.link, []) == s.link;
  }

  lemma ActInv(s: State, s': State, msgs: seq<Msg>)
    requires Inv(s) && MainRuns(s) && RefsInv(s'.refs) && s'.refs.closed == s.refs.closed
    requires s' == s.(link := Send(s.link, msgs), refs := s'.refs, late := s'.late) && (s'.late ==> s.th.freed)
    requires forall i :: 0 <= i < |msgs| ==> msgs[i].Stream?
    ensures Inv(s')
  {
    MainInv(s, false, msgs, s'.refs, s'.late);
  }

  lemma ActStep(s: State, a: Move)
    requires Inv(s) && Next(s, a) != s
    requires a.AcceptClient? || a.AcceptOn? || a.Dispatch? || a.AddListener? || a.DropListener?
    ensures Inv(Next(s, a))
  {
    ActRefs(s, a);
    ActShape(s, a);
    ActInv(s, Next(s, a), ActMsgs(s, a));
  }

  lemma {:induction false} RunInv(s: State, moves: seq<Move>)
    requires Inv(s)
    ensures Inv(Interleave(s, moves))
    decreases |moves|
  {
    if moves != [] {
      StepInv(s, moves[0]);
      RunInv(Next(s, moves[0]), moves[1..]);
    }
  }
}
