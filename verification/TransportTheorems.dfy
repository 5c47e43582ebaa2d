/** The promises of the transport's threads, over every interleaving. */
module TransportTheorems {
  import opened Base
  import opened Descriptors
  import opened Streams
  import opened Transport
  import opened TransportRuns
  import L = Listeners

  lemma SpawnedInv(host: bool)
    ensures Inv(Spawned(host))
  {
    var s := Spawned(host);
    assert Forwarded(Waiting, []) == [];
    assert forall id :: !SocketRefers(s.refs.ep, id);
    assert forall k :: !ListenerRefers(s.refs.listeners, k);
  }

  /**
   The reference count is the number of threads that have not let go; the removal message is sent
   once, when both have; kick_func runs at most once, and has run by then; and no thread is left
   when the transport is freed.
   */
  lemma Lifecycle(host: bool, moves: seq<Move>)
    ensures var t := Interleave(Spawned(host), moves).th;
            && t.refCount == Holds(t.reader) + Holds(t.writer)
            && t.removals <= 1 && (t.removals == 1 <==> t.reader.Gone? && t.writer.Gone?)
            && t.kicks <= 1 && (t.removals == 1 && !t.ioFailed ==> t.kicks == 1)
            && (t.freed ==> t.reader.Gone? && t.writer.Gone?)
  {
    SpawnedInv(host);
    RunInv(Spawned(host), moves);
  }

  /** The messages other than SYNC. */
  function NonSync(msgs: seq<Msg>): seq<Msg>
    decreases |msgs|
  {
    if msgs == [] then [] else (if msgs[0].Sync? then [] else [msgs[0]]) + NonSync(msgs[1..])
  }

  lemma {:induction false} ActiveForwards(msgs: seq<Msg>)
    ensures Forwarded(Active, msgs) <= NonSync(msgs)
    decreases |msgs|
  {
    if msgs != [] {
      if SyncDown(msgs[0]) { StoppedForwardsNothing(msgs[1..]); } else { ActiveForwards(msgs[1..]); }
    }
  }

  /** The SYNC(1, token) that makes the writer active. */
  predicate Activates(m: Msg)
  {
    SyncUp(m) && m.arg1 == TOKEN
  }

  lemma {:induction false} ForwardedAfterSync(msgs: seq<Msg>) returns (i: nat)
    requires Forwarded(Waiting, msgs) != []
    ensures i < |msgs| && Activates(msgs[i]) && Forwarded(Waiting, msgs) <= NonSync(msgs[i + 1..])
    decreases |msgs|
  {
    if Activates(msgs[0]) {
      i := 0;
      ActiveForwards(msgs[1..]);
    } else {
      if SyncDown(msgs[0]) { StoppedForwardsNothing(msgs[1..]); }
      i := ForwardedAfterSync(msgs[1..]);
      assert msgs[1..][i + 1..] == msgs[i + 2..];
      i := i + 1;
    }
  }

  /**
   What reaches the remote end is, in order and without gaps, the messages other than SYNC that
   the main thread wrote after some SYNC(1, token) it echoed; and on the host the first of it is
   CNXN.
   */
  lemma WireIsWhatWasSent(host: bool, moves: seq<Move>)
    ensures var k := Interleave(Spawned(host), moves).link;
            && (k.wire != [] ==>
                  exists i :: 0 <= i < |k.sent| && Activates(k.sent[i]) && k.wire <= NonSync(k.sent[i + 1..]))
            && (host && k.wire != [] ==> k.wire[0].Cnxn?)
  {
    var s := Interleave(Spawned(host), moves);
    SpawnedInv(host);
    RunInv(Spawned(host), moves);
    HostKept(Spawned(host), moves);
    var out := Forwarded(Waiting, s.link.sent);
    assert s.link.wire <= out;
    if s.link.wire != [] {
      var i := ForwardedAfterSync(s.link.sent);
      assert s.link.wire <= NonSync(s.link.sent[i + 1..]);
      if host { FirstIsCnxn(s.link.sent); }
    }
  }

  lemma {:induction false} HostKept(s: State, moves: seq<Move>)
    ensures Interleave(s, moves).host == s.host
    decreases |moves|
  {
    if moves != [] { HostKept(Next(s, moves[0]), moves[1..]); }
  }

  // ----- teardown -----

  /** Only the reader fills the inbox, and only handling a message empties it or changes the connection's state. */
  predicate KeepsInbox(s: State, s': State)
  {
    && s'.refs.offline == s.refs.offline && s'.refs.closed == s.refs.closed && s'.link.inbox == s.link.inbox
    && (s'.th.reader == s.th.reader || s'.th.reader.Leaving?)
  }

  lemma DispatchKeeps(s: State, id: Id, ev: Event)
    ensures KeepsInbox(s, Next(s, Move.Dispatch(id, ev)))
  {
  }

  lemma AcceptKeeps(s: State, k: nat, dest: bytes)
    ensures KeepsInbox(s, Next(s, AcceptOn(k, dest)))
  {
  }

  lemma WriterKeeps(s: State, ok: bool)
    requires !s.th.writer.Starting? && !s.th.writer.Ended? && (s.th.writer.Unreffing? ==> s.th.refCount > 0)
    ensures KeepsInbox(s, WriterMove(s, ok))
  {
  }

  lemma OtherKeeps(s: State, a: Move)
    requires !a.ReaderStep? && !a.HandleNext?
    ensures KeepsInbox(s, Next(s, a))
  {
    match a
    case Dispatch(id, ev) => DispatchKeeps(s, id, ev);
    case AcceptOn(k, dest) => AcceptKeeps(s, k, dest);
    case WriterStep(ok) =>
      if !s.th.writer.Starting? && !s.th.writer.Ended? && (s.th.writer.Unreffing? ==> s.th.refCount > 0) {
        WriterKeeps(s, ok);
        assert Next(s, a) == WriterMove(s, ok);
      }
    case _ =>
  }

  lemma ClosedStays(s: State, a: Move)
    requires Inv(s) && s.refs.closed
    ensures Next(s, a).refs.closed
  {
    if !a.ReaderStep? && !a.HandleNext? { OtherKeeps(s, a); }
  }

  /**
   Once the main thread has handled SYNC(0), no socket in the live list and no listener refers to
   the transport again, before it is freed or after.
   */
  lemma {:induction false} ClosedForGood(s: State, moves: seq<Move>)
    requires Inv(s) && s.refs.closed
    ensures var r := Interleave(s, moves).refs; r.closed && Released(r.ep, r.listeners)
    decreases |moves|
  {
    if moves != [] {
      ClosedStays(s, moves[0]);
      StepInv(s, moves[0]);
      ClosedForGood(Next(s, moves[0]), moves[1..]);
    }
  }

  /** The writer thread leaves after the main thread handled SYNC(0), unless writing to the remote end failed. */
  lemma WriterLeavesLast(host: bool, moves: seq<Move>)
    ensures var s := Interleave(Spawned(host), moves);
            Left(s.th.writer) && !s.th.writeFailed && !s.th.ioFailed ==> s.refs.closed
  {
    SpawnedInv(host);
    RunInv(Spawned(host), moves);
  }

  /** From the moment the transport is freed, no live socket and no listener refers to it, in every run without a failed write. */
  lemma FreedReleased(host: bool, moves: seq<Move>)
    ensures var s := Interleave(Spawned(host), moves);
            s.th.freed && !s.th.writeFailed && !s.th.ioFailed ==> Released(s.refs.ep, s.refs.listeners)
  {
    SpawnedInv(host);
    RunInv(Spawned(host), moves);
  }

  /** In such a run only a client or forwarded socket that was left on the closing list can look at the freed transport. */
  lemma LateOnlyByDraining(host: bool, moves: seq<Move>, a: Move)
    ensures var s := Interleave(Spawned(host), moves);
            !s.late && Next(s, a).late && !s.th.writeFailed && !s.th.ioFailed ==> a.Dispatch? && DrainRefers(s.refs.ep, a.id)
  {
    var s := Interleave(Spawned(host), moves);
    FreedReleased(host, moves);
    if a.Dispatch? {
      assert s.th.freed && !s.th.writeFailed && !s.th.ioFailed ==> !SocketRefers(s.refs.ep, a.id);
    }
  }

  // ----- the exceptions -----

  function Rank(l: Life): nat
  {
    match l case Starting => 5 case Working => 4 case Ended => 3 case Leaving => 2 case Unreffing => 1 case Gone => 0
  }

  predicate SameFlags(t: Threads, t': Threads)
  {
    t'.enlisted == t.enlisted && t'.freed == t.freed && t'.writeFailed == t.writeFailed && t'.ioFailed == t.ioFailed
  }

  lemma ReaderLeaverMoves(s: State)
    requires ThreadInv(s.th) && Left(s.th.reader) && !s.th.reader.Gone?
    ensures var s' := Next(s, ReaderStep(None));
            && s' == s.(th := ReaderLeaves(s.th)) && SameFlags(s.th, s'.th) && s'.th.writer == s.th.writer
            && Rank(s'.th.reader) < Rank(s.th.reader)
  {
    assert s.th.refCount > 0;
    assert Next(s, ReaderStep(None)) == ReaderMove(s, None);
  }

  lemma ReaderWorkerMoves(s: State)
    requires !Left(s.th.reader) && s.link.token == (if s.th.reader.Starting? then 0 else TOKEN)
    ensures var s' := Next(s, ReaderStep(None));
            && s'.th == s.th.(reader := s'.th.reader) && s'.refs == s.refs && Rank(s'.th.reader) < Rank(s.th.reader)
  {
    assert Next(s, ReaderStep(None)) == ReaderMove(s, None);
    ReaderShape(s, None);
  }

  /** The reader can always come to its end, and nobody else notices. */
  lemma {:induction false} ReaderFinishes(s: State) returns (moves: seq<Move>)
    requires Inv(s)
    ensures var s' := Interleave(s, moves);
            && Inv(s') && s'.th.reader.Gone? && s'.refs == s.refs
            && s'.th.writer == s.th.writer && SameFlags(s.th, s'.th)
    decreases Rank(s.th.reader)
  {
    if s.th.reader.Gone? {
      moves := [];
    } else {
      if Left(s.th.reader) { ReaderLeaverMoves(s); } else { ReaderWorkerMoves(s); }
      StepInv(s, ReaderStep(None));
      var rest := ReaderFinishes(Next(s, ReaderStep(None)));
      moves := First(s, ReaderStep(None), rest);
    }
  }

  lemma WriterLeaverMoves(s: State)
    requires ThreadInv(s.th) && Left(s.th.writer) && !s.th.writer.Gone?
    ensures var s' := Next(s, WriterStep(false));
            && s' == s.(th := WriterLeaves(s.th)) && SameFlags(s.th, s'.th) && s'.th.reader == s.th.reader
            && Left(s'.th.writer) && Rank(s'.th.writer) < Rank(s.th.writer)
  {
    assert s.th.refCount > 0;
    assert Next(s, WriterStep(false)) == WriterMove(s, false);
  }

  lemma {:induction false} WriterFinishes(s: State) returns (moves: seq<Move>)
    requires Inv(s) && Left(s.th.writer)
    ensures var s' := Interleave(s, moves);
            && Inv(s') && s'.th.writer.Gone? && s'.refs == s.refs
            && s'.th.reader == s.th.reader && SameFlags(s.th, s'.th)
    decreases Rank(s.th.writer)
  {
    if s.th.writer.Gone? {
      moves := [];
    } else {
      WriterLeaverMoves(s);
      StepInv(s, WriterStep(false));
      var rest := WriterFinishes(Next(s, WriterStep(false)));
      moves := First(s, WriterStep(false), rest);
    }
  }

  lemma {:induction false} InterleaveAppend(s: State, a: seq<Move>, b: seq<Move>)
    ensures Interleave(s, a + b) == Interleave(Interleave(s, a), b)
    decreases |a|
  {
    if a == [] {
      assert a + b == b;
    } else {
      assert (a + b)[1..] == a[1..] + b;
      InterleaveAppend(Next(s, a[0]), a[1..], b);
    }
  }

  /** Once the writer has left, the removal can be handled before anything else is. */
  lemma FreedFirst(s: State) returns (moves: seq<Move>)
    requires Inv(s) && MainRuns(s) && Left(s.th.writer) && !s.th.freed
    ensures var s' := Interleave(s, moves);
            s'.th.freed && MainRuns(s') && s'.refs == s.refs && s'.th.writeFailed == s.th.writeFailed && s'.th.ioFailed == s.th.ioFailed
  {
    var a := ReaderFinishes(s);
    var s1 := Interleave(s, a);
    var b := WriterFinishes(s1);
    moves := Then(s, a, b);
    moves := Last(s, moves, Free);
  }

  ghost predicate SafeAfter(s: State, moves: seq<Move>)
  {
    var s' := Interleave(s, moves);
    s'.th.freed ==> Unreferenced(s'.refs.ep, s'.refs.listeners)
  }

  /** A CNXN is waiting for the main thread, or can still come from the remote end. */
  predicate MayConnect(s: State)
  {
    s.th.reader.Starting? || s.th.reader.Working? || exists m :: m in s.link.inbox && m.Cnxn?
  }

  /** Offline, unable to connect again, and no client or forwarded socket has packets left to write. */
  ghost predicate Settled(s: State)
  {
    s.refs.offline && !MayConnect(s) && forall id :: !DrainRefers(s.refs.ep, id)
  }

  lemma {:induction false} CloseFromDead(ep: Endpoint, id: Id)
    requires forall a :: !SocketRefers(ep, a)
    ensures CloseFrom(ep, id).ep == ep
    decreases ep.nextId - id
  {
    if id < ep.nextId {
      assert !SocketRefers(ep, id);
      CloseFromDead(ep, id + 1);
    }
  }

  lemma OfflineReader(s: State, remote: Option<Msg>)
    requires s.refs.offline && !MayConnect(s)
    ensures var s' := Next(s, ReaderStep(remote)); s'.refs.offline && !MayConnect(s')
  {
    var s' := Next(s, ReaderStep(remote));
    assert s'.link.inbox == s.link.inbox || s'.link.inbox == s.link.inbox + [Sync(0, 0)];
  }

  lemma OfflineHandle(s: State, accept: bool, script: seq<WriteResult>)
    requires s.refs.offline && !MayConnect(s)
    ensures var s' := Next(s, HandleNext(accept, script)); s'.refs.offline && !MayConnect(s')
  {
    if s.link.inbox != [] { assert s.link.inbox[0] in s.link.inbox; }
    var s' := Next(s, HandleNext(accept, script));
    assert s'.link.inbox == s.link.inbox || s'.link.inbox == s.link.inbox[1..];
  }

  lemma OfflineStep(s: State, a: Move)
    requires s.refs.offline && !MayConnect(s)
    ensures Next(s, a).refs.offline && !MayConnect(Next(s, a))
  {
    match a
    case ReaderStep(remote) => OfflineReader(s, remote);
    case HandleNext(accept, script) => OfflineHandle(s, accept, script);
    case _ => OtherKeeps(s, a);
  }

  /** Handling a message other than CNXN while offline changes no socket. */
  lemma SettledAnswer(host: bool, r: Refs, m: Msg, accept: bool, script: seq<WriteResult>)
    requires RefsInv(r) && r.offline && !m.Cnxn?
    ensures AnswerTo(host, r, m, accept, script).refs.ep == r.ep
  {
    CloseFromDead(r.ep, 1);
  }

  lemma SettledDispatch(s: State, id: Id, ev: Event)
    requires Inv(s) && Settled(s)
    ensures var s' := Next(s, Move.Dispatch(id, ev)); s'.late == s.late && forall a :: !DrainRefers(s'.refs.ep, a)
  {
    var s' := Next(s, Move.Dispatch(id, ev));
    if s' != s {
      assert !SocketRefers(s.refs.ep, id) && !DrainRefers(s.refs.ep, id);
      EventStaysDead(id, s.refs.ep.ends[id], ev, s.refs.ep.limit);
      forall a ensures !DrainRefers(s'.refs.ep, a) { assert !DrainRefers(s.refs.ep, a); }
    }
  }

  lemma SettledHandle(s: State, accept: bool, script: seq<WriteResult>)
    requires Inv(s) && Settled(s)
    ensures var s' := Next(s, HandleNext(accept, script)); s'.late == s.late && s'.refs.ep == s.refs.ep
  {
    if Next(s, HandleNext(accept, script)) != s {
      assert s.link.inbox[0] in s.link.inbox;
      SettledAnswer(s.host, s.refs, s.link.inbox[0], accept, script);
    }
  }

  /** The moves that concern neither a packet nor an event. */
  lemma OtherShape(s: State, a: Move)
    requires !a.Dispatch? && !a.HandleNext?
    requires a.AcceptOn? || a.DropListener? ==> !ListenerRefers(s.refs.listeners, a.k)
    ensures Next(s, a).late == s.late
    ensures Next(s, a).refs.ep == s.refs.ep || Next(s, a).refs.ep == Install(s.refs.ep, NewEnd(Client, Smart([], false), true))
  {
  }

  lemma SettledOther(s: State, a: Move)
    requires Inv(s) && Settled(s) && !a.Dispatch? && !a.HandleNext?
    ensures Next(s, a).late == s.late && forall id :: !DrainRefers(Next(s, a).refs.ep, id)
  {
    var ep, ep' := s.refs.ep, Next(s, a).refs.ep;
    if a.AcceptOn? || a.DropListener? { assert !ListenerRefers(s.refs.listeners, a.k); }
    OtherShape(s, a);
    forall id ensures !DrainRefers(ep', id) { assert !DrainRefers(ep, id); }
  }

  lemma SettledStep(s: State, a: Move)
    requires Inv(s) && Settled(s)
    ensures Settled(Next(s, a)) && Next(s, a).late == s.late
  {
    OfflineStep(s, a);
    match a
    case Dispatch(id, ev) => SettledDispatch(s, id, ev);
    case HandleNext(accept, script) => SettledHandle(s, accept, script);
    case _ => SettledOther(s, a);
  }

  /** A settled transport stays unreferenced, and is not looked at after it is freed. */
  lemma {:induction false} SettledForGood(s: State, moves: seq<Move>)
    requires Inv(s) && Settled(s)
    ensures SafeAfter(s, moves) && Interleave(s, moves).late == s.late
    decreases |moves|
  {
    if moves != [] {
      SettledStep(s, moves[0]);
      StepInv(s, moves[0]);
      SettledForGood(Next(s, moves[0]), moves[1..]);
      assert SafeAfter(Next(s, moves[0]), moves[1..]);
    }
  }

  /** A move the schedule starts with. */
  lemma First(s: State, a: Move, rest: seq<Move>) returns (moves: seq<Move>)
    ensures Interleave(s, moves) == Interleave(Next(s, a), rest)
  {
    moves := [a] + rest;
    assert moves[1..] == rest;
  }

  lemma Handling(s: State)
    requires Inv(s) && MainRuns(s) && !s.th.freed && s.link.inbox != []
    ensures var s' := Next(s, HandleNext(false, []));
            s'.th == s.th && s'.link.inbox == s.link.inbox[1..] && (s.link.inbox[0].Cnxn? ==> !s'.refs.offline)
  {
  }

  /** If a CNXN is waiting, the main thread can get to it before it gets to anything else. */
  lemma {:induction false} Connects(s: State, i: nat) returns (moves: seq<Move>)
    requires Inv(s) && MainRuns(s) && !s.th.freed && i < |s.link.inbox| && s.link.inbox[i].Cnxn?
    ensures var s' := Interleave(s, moves); Inv(s') && s'.th == s.th && !s'.refs.offline
    decreases i
  {
    var a := HandleNext(false, []);
    var s1 := Next(s, a);
    StepInv(s, a);
    Handling(s);
    var rest := [];
    if i > 0 { rest := Connects(s1, i - 1); }
    moves := First(s, a, rest);
  }

  lemma ReaderBrings(s: State, m: Msg)
    requires Inv(s) && !m.Sync? && (s.th.reader.Starting? || s.th.reader.Working?)
    ensures var s' := Next(s, ReaderStep(Some(m)));
            && s'.th == s.th.(reader := Working) && s'.refs == s.refs
            && s'.link.inbox == s.link.inbox + [if s.th.reader.Starting? then Sync(1, 1) else m]
  {
    ReaderShape(s, Some(m));
  }

  /** While the reader works it can bring a CNXN. */
  lemma {:induction false} BringsCnxn(s: State) returns (moves: seq<Move>)
    requires Inv(s) && MainRuns(s) && !s.th.freed && MayConnect(s)
    ensures var s' := Interleave(s, moves); Inv(s') && MainRuns(s') && s'.th.writer == s.th.writer && Acquirable(s')
    decreases Rank(s.th.reader)
  {
    if m :| m in s.link.inbox && m.Cnxn? {
      var i :| 0 <= i < |s.link.inbox| && s.link.inbox[i] == m;
      moves := Connects(s, i);
    } else {
      var a := ReaderStep(Some(Cnxn(MAX_PAYLOAD)));
      var s1 := Next(s, a);
      StepInv(s, a);
      ReaderBrings(s, Cnxn(MAX_PAYLOAD));
      var rest: seq<Move>;
      if s.th.reader.Starting? {
        rest := BringsCnxn(s1);
      } else {
        rest := Connects(s1, |s.link.inbox|);
      }
      moves := First(s, a, rest);
    }
  }

  /** An online transport whose writer has left can be freed under a listener, which then accepts. */
  lemma FreedUnderListener(s: State) returns (moves: seq<Move>, more: seq<Move>)
    requires Inv(s) && MainRuns(s) && Left(s.th.writer) && Acquirable(s)
    ensures !SafeAfter(s, moves) && Interleave(s, more).late
  {
    var s1 := Next(s, FORWARD);
    StepInv(s, FORWARD);
    var rest := FreedFirst(s1);
    moves := First(s, FORWARD, rest);
    assert ListenerRefers(s1.refs.listeners, |s.refs.listeners|);
    more := Last(s, moves, AcceptOn(|s.refs.listeners|, []));
  }

  /** The peer of a socket on the closing list hangs up: a read is faked. */
  const HANG_UP := Event(false, true, [], [], false, Dismissed)

  lemma LooksLate(s: State, id: Id)
    requires MainRuns(s) && s.th.freed && DrainRefers(s.refs.ep, id)
    ensures Next(s, Move.Dispatch(id, HANG_UP)).late && !Unreferenced(s.refs.ep, s.refs.listeners)
  {
  }

  /** A socket on the closing list outlives the transport, and a hang-up makes it look there. */
  lemma FreedUnderDraining(s: State, id: Id) returns (moves: seq<Move>, more: seq<Move>)
    requires Inv(s) && MainRuns(s) && Left(s.th.writer) && !s.th.freed && DrainRefers(s.refs.ep, id)
    ensures !SafeAfter(s, moves) && Interleave(s, more).late
  {
    moves := FreedFirst(s);
    LooksLate(Interleave(s, moves), id);
    more := Last(s, moves, Move.Dispatch(id, HANG_UP));
  }

  lemma Unsettled(s: State) returns (moves: seq<Move>, more: seq<Move>)
    requires Inv(s) && MainRuns(s) && Left(s.th.writer) && !s.th.freed && !Settled(s)
    ensures !SafeAfter(s, moves) && Interleave(s, more).late
  {
    if !s.refs.offline || MayConnect(s) {
      var a: seq<Move> := [];
      if s.refs.offline { a := BringsCnxn(s); }
      var s1 := Interleave(s, a);
      var b, c := FreedUnderListener(s1);
      moves := Then(s, a, b);
      more := Then(s, a, c);
    } else {
      var id :| DrainRefers(s.refs.ep, id);
      moves, more := FreedUnderDraining(s, id);
    }
  }

  /**
   Removal messages, packets and hang-ups reach the main thread through different descriptors.
   Once the writer has left, no schedule frees the transport while something refers to it if and
   only if it is settled; and then, and only then, does no schedule look at it after it is freed.
   */
  lemma FreedSafelyExactlyWhen(host: bool, moves: seq<Move>)
    requires var s := Interleave(Spawned(host), moves); Left(s.th.writer) && !s.th.ioFailed && !s.th.freed
    ensures var s := Interleave(Spawned(host), moves); (forall more :: SafeAfter(s, more)) <==> Settled(s)
    ensures var s := Interleave(Spawned(host), moves); (forall more :: !Interleave(s, more).late) <==> Settled(s)
  {
    var s := Interleave(Spawned(host), moves);
    SpawnedInv(host);
    RunInv(Spawned(host), moves);
    if Settled(s) {
      forall more ensures SafeAfter(s, more) && !Interleave(s, more).late { SettledForGood(s, more); }
    } else {
      var a, b := Unsettled(s);
      assert !SafeAfter(s, a) && Interleave(s, b).late;
    }
  }

  lemma Then(s: State, a: seq<Move>, b: seq<Move>) returns (moves: seq<Move>)
    ensures Interleave(s, moves) == Interleave(Interleave(s, a), b)
  {
    moves := a + b;
    InterleaveAppend(s, a, b);
  }

  /** A move the schedule ends with. */
  lemma Last(s: State, moves: seq<Move>, a: Move) returns (longer: seq<Move>)
    ensures Interleave(s, longer) == Next(Interleave(s, moves), a)
  {
    longer := moves + [a];
    InterleaveAppend(s, moves, [a]);
    assert Interleave(Next(Interleave(s, moves), a), []) == Next(Interleave(s, moves), a);
  }

  /** A host that has just gone online, with its CNXN still to be written. */
  predicate JustConnected(s: State)
  {
    && s.host && MainRuns(s) && s.th.reader.Working? && s.th.writer.Working? && !s.th.freed && !s.th.writeFailed && !s.th.ioFailed
    && s.link.mode.Active? && s.link.inbox == [] && s.link.outbox == [Cnxn(MAX_PAYLOAD)]
    && s.refs == Refs(Endpoint(map[], 1, true, 4096), [], false, false)
  }

  lemma HostConnects() returns (moves: seq<Move>)
    ensures JustConnected(Interleave(Spawned(true), moves))
  {
    var s := Spawned(true);
    moves := Last(s, [], Enlist);
    moves := Last(s, moves, ReaderStep(None));
    moves := Last(s, moves, HandleNext(false, []));
    assert Interleave(s, moves).link.outbox == [Sync(1, 1), Cnxn(MAX_PAYLOAD)];
    moves := Last(s, moves, WriterStep(true));
    assert Interleave(s, moves).link.mode.Active? && Interleave(s, moves).link.outbox == [Cnxn(MAX_PAYLOAD)];
    moves := Last(s, moves, ReaderStep(Some(Cnxn(4096))));
    assert Interleave(s, moves).link.inbox == [Cnxn(4096)];
    moves := Last(s, moves, HandleNext(false, []));
    assert Interleave(s, moves).link.outbox == [Cnxn(MAX_PAYLOAD)];
  }

  const FORWARD := AddListener(L.Listener(0, "tcp:1", "tcp:2", Some(SELF)))

  lemma WriteFails(s: State)
    requires JustConnected(s)
    ensures var s' := Next(Next(s, FORWARD), WriterStep(false));
            MainRuns(s') && !s'.th.freed && Left(s'.th.writer) && ListenerRefers(s'.refs.listeners, 0)
  {
  }

  /** Such a schedule exists: the remote end connects, then the first packet written to it fails. */
  lemma FreedUnderListenerRun() returns (moves: seq<Move>)
    ensures var s := Interleave(Spawned(true), moves); s.th.freed && ListenerRefers(s.refs.listeners, 0)
  {
    moves := HostConnects();
    WriteFails(Interleave(Spawned(true), moves));
    moves := Last(Spawned(true), moves, FORWARD);
    moves := Last(Spawned(true), moves, WriterStep(false));
    SpawnedInv(true);
    RunInv(Spawned(true), moves);
    var rest := FreedFirst(Interleave(Spawned(true), moves));
    moves := Then(Spawned(true), moves, rest);
  }

  /** A forwarded connection that the other end has accepted, and whose first packet does not fit the descriptor. */
  predicate OneQueued(s: State)
  {
    && MainRuns(s) && s.th.reader.Working? && s.th.writer.Working? && !s.th.freed && !s.th.writeFailed && !s.th.ioFailed
    && s.link.mode.Active? && s.link.inbox == [] && s.link.outbox == [Cnxn(MAX_PAYLOAD), Stream(Open(1, []))]
    && s.refs.ep.nextId == 2 && 1 in s.refs.ep.ends
    && var e := s.refs.ep.ends[1]; e.phase.Connected? && e.origin.Forward? && e.queue != []
  }

  /** A packet comes in and is handled. */
  lemma Delivers(s: State, p: Packet) returns (moves: seq<Move>)
    requires MainRuns(s) && s.th.reader.Working? && !s.th.freed && s.link.inbox == []
    ensures var h := Handle(s.refs.ep, p, false, []);
            Interleave(s, moves) == s.(link := Send(s.link, Wrap(h.sent)), refs := s.refs.(ep := h.ep))
  {
    moves := Last(s, [], ReaderStep(Some(Stream(p))));
    assert Interleave(s, moves).link.inbox == [Stream(p)];
    moves := Last(s, moves, HandleNext(false, []));
  }

  /** A connection to the forwarded port. */
  lemma Accepts(s: State) returns (moves: seq<Move>)
    requires JustConnected(s)
    ensures var s' := Interleave(s, moves);
            && s' == s.(link := Send(s.link, [Stream(Open(1, []))]), refs := s'.refs)
            && s'.refs.ep == Install(s.refs.ep, NewEnd(Forward, Opening, false)) && !s'.refs.closed
  {
    moves := Last(s, [], FORWARD);
    moves := Last(s, moves, AcceptOn(0, []));
  }

  /** A client that does not read: the first READY connects it, the first packet stays queued. */
  lemma Stuck(ep: Endpoint)
    requires ep.online && 1 in ep.ends && ep.ends[1] == NewEnd(Forward, Opening, false)
    ensures var h1 := Handle(ep, Okay(5, 1), false, []);
            var h2 := Handle(h1.ep, Wrte(5, 1, [7]), false, []);
            && h1.sent == [] && h2.sent == [] && h2.ep.nextId == ep.nextId && 1 in h2.ep.ends
            && var e := h2.ep.ends[1]; e.phase.Connected? && e.origin.Forward? && e.queue != []
  {
    assert Handle(ep, Okay(5, 1), false, []).ep.ends[1].phase == Connected(5);
    assert Push([7], []) == Pushed(0, Blocked, []);
  }

  lemma QueuesOne(s: State) returns (moves: seq<Move>)
    requires JustConnected(s)
    ensures OneQueued(Interleave(s, moves))
  {
    moves := Accepts(s);
    var s1 := Interleave(s, moves);
    Stuck(s1.refs.ep);
    var rest := Delivers(s1, Okay(5, 1));
    var s2 := Interleave(s1, rest);
    moves := Then(s, moves, rest);
    rest := Delivers(s2, Wrte(5, 1, [7]));
    moves := Then(s, moves, rest);
    assert Send(s1.link, []) == s1.link;
  }

  lemma CloseOnly(ep: Endpoint)
    requires ep.nextId == 2 && 1 in ep.ends && OnTransport(ep.ends[1])
    ensures CloseFrom(ep, 1) == Update(ep, 1, Close(1, ep.ends[1], false))
  {
    var s := Update(ep, 1, Close(1, ep.ends[1], false));
    assert CloseFrom(s.ep, 2) == EndpointStep(s.ep, []);
    assert s.sent + [] == s.sent;
  }

  /** The remote end goes away: SYNC(0) is handled and echoed, and the writer leaves on reading it. */
  predicate TornDown(s: State)
  {
    && MainRuns(s) && !s.th.freed && s.refs.closed && DrainRefers(s.refs.ep, 1) && Left(s.th.writer)
    && !s.th.writeFailed && !s.th.ioFailed
  }

  /** The writer passes on what it reads, and leaves on SYNC(0). */
  lemma {:induction false} WritesAll(s: State) returns (moves: seq<Move>)
    requires s.th.writer.Working? && s.link.mode.Active? && s.link.outbox != []
    requires SyncDown(s.link.outbox[|s.link.outbox| - 1])
    requires forall i :: 0 <= i < |s.link.outbox| - 1 ==> !s.link.outbox[i].Sync?
    ensures var s' := Interleave(s, moves); Left(s'.th.writer) && s'.refs == s.refs && SameFlags(s.th, s'.th)
    decreases |s.link.outbox|
  {
    var s1 := Next(s, WriterStep(true));
    var rest: seq<Move> := [];
    if |s.link.outbox| > 1 { rest := WritesAll(s1); }
    moves := First(s, WriterStep(true), rest);
  }

  lemma ReaderEnds(s: State) returns (moves: seq<Move>)
    requires s.th.reader.Working? && s.link.inbox == []
    ensures Interleave(s, moves) == s.(th := s.th.(reader := Leaving), link := s.link.(inbox := [Sync(0, 0)]))
  {
    moves := Last(s, [], ReaderStep(None));
    moves := Last(s, moves, ReaderStep(None));
  }

  lemma HandlesSyncDown(s: State)
    requires MainRuns(s) && !s.th.freed && s.link.inbox == [Sync(0, 0)]
    requires s.refs.ep.nextId == 2 && 1 in s.refs.ep.ends
    requires var e := s.refs.ep.ends[1]; e.phase.Connected? && e.origin.Forward? && e.queue != []
    ensures var s' := Next(s, HandleNext(false, []));
            && s'.th == s.th && s'.refs.closed && DrainRefers(s'.refs.ep, 1) && s'.link.mode == s.link.mode
            && exists p :: s'.link.outbox == s.link.outbox + [Stream(p), Sync(0, 0)]
  {
    CloseOnly(s.refs.ep);
    var p := Clse(1, s.refs.ep.ends[1].phase.peer);
    assert Next(s, HandleNext(false, [])).link.outbox == s.link.outbox + [Stream(p), Sync(0, 0)];
  }

  lemma GoesDown(s: State) returns (moves: seq<Move>)
    requires OneQueued(s)
    ensures TornDown(Interleave(s, moves))
  {
    moves := ReaderEnds(s);
    var s1 := Interleave(s, moves);
    HandlesSyncDown(s1);
    moves := Last(s, moves, HandleNext(false, []));
    var rest := WritesAll(Interleave(s, moves));
    moves := Then(s, moves, rest);
  }

  /**
   The other exception needs no failure at all: a forwarded socket has a packet queued when the
   remote end goes away, the transport is torn down in good order and freed, and then the
   socket's client hangs up.
   */
  lemma FreedUnderDrainingRun() returns (moves: seq<Move>)
    ensures var s := Interleave(Spawned(true), moves);
            && s.th.freed && s.refs.closed && !s.th.writeFailed && !s.th.ioFailed && DrainRefers(s.refs.ep, 1)
            && Next(s, Move.Dispatch(1, HANG_UP)).late
  {
    moves := HostConnects();
    var rest := QueuesOne(Interleave(Spawned(true), moves));
    moves := Then(Spawned(true), moves, rest);
    rest := GoesDown(Interleave(Spawned(true), moves));
    moves := Then(Spawned(true), moves, rest);
    SpawnedInv(true);
    RunInv(Spawned(true), moves);
    rest := FreedFirst(Interleave(Spawned(true), moves));
    moves := Then(Spawned(true), moves, rest);
    LooksLate(Interleave(Spawned(true), moves), 1);
  }
}
