/**
 core/adb/fdevent.cpp: fdevents, the poll nodes that mirror them, and the list of fdevents
 whose callbacks are due. Callbacks are arbitrary: each is a script of operations on the same
 tables, so what is proved holds whatever other callbacks remove, install or re-mask.
 */
module FdEvent {
  import opened Base

  type Fde = nat

  /** The bits of FDE_EVENTMASK that have a meaning. */
  datatype Mask = Mask(read: bool, write: bool, error: bool, dontClose: bool)
  {
    function And(m: Mask): Mask
    {
      Mask(read && m.read, write && m.write, error && m.error, dontClose && m.dontClose)
    }

    function Or(m: Mask): Mask
    {
      Mask(read || m.read, write || m.write, error || m.error, dontClose || m.dontClose)
    }

    function Minus(m: Mask): Mask
    {
      Mask(read && !m.read, write && !m.write, error && !m.error, dontClose && !m.dontClose)
    }

    predicate Within(m: Mask)
    {
      And(m) == this
    }
  }

  const NOTHING := Mask(false, false, false, false)
  const FDE_READ := NOTHING.(read := true)

  /** The fdevent of the run queue, installed before the loop and known to no callback. */
  const RUN_QUEUE: Fde := 0

  /** `mask` is the low byte of fde.state; `active` and `pending` are FDE_ACTIVE and FDE_PENDING. */
  datatype FdEvent = FdEvent(fd: int, active: bool, pending: bool, mask: Mask, events: Mask)

  datatype PollNode = PollNode(fde: Fde, pollIn: bool, pollOut: bool)

  datatype State = State(fdes: map<Fde, FdEvent>, nodes: map<int, PollNode>, pending: seq<Fde>)

  // ----- operations -----

  function Install(s: State, f: Fde, fd: int): State
  {
    s.(fdes := s.fdes[f := FdEvent(fd, true, false, NOTHING, NOTHING)], nodes := s.nodes[fd := PollNode(f, false, false)])
  }

  /** An fdevent that is not active is left alone. */
  function Remove(s: State, f: Fde): State
    requires f in s.fdes
  {
    var e := s.fdes[f];
    if !e.active then s
    else
      State(s.fdes[f := FdEvent(if e.mask.dontClose then e.fd else -1, false, false, NOTHING, NOTHING)],
            s.nodes - {e.fd},
            if e.pending then Without(s.pending, f) else s.pending)
  }

  /** Pending events that are no longer wanted are dropped, and the callback with them if none is left. */
  function Set(s: State, f: Fde, mask: Mask): State
    requires f in s.fdes
  {
    var e := s.fdes[f];
    if e.mask == mask then s
    else
      var events := if e.pending then e.events.And(mask) else e.events;
      var keep := e.pending && events != NOTHING;
      State(s.fdes[f := e.(mask := mask, events := events, pending := keep)],
            s.nodes[e.fd := PollNode(f, mask.read, mask.write)],
            if e.pending && !keep then Without(s.pending, f) else s.pending)
  }

  /** What poll says about one descriptor; `trouble` is POLLERR, POLLHUP, POLLNVAL or POLLRDHUP. */
  datatype Revents = Revents(pollIn: bool, pollOut: bool, trouble: bool)

  /** A hang-up or an error fakes a read. */
  function EventsOf(r: Revents): Mask
  {
    Mask(r.pollIn || r.trouble, r.pollOut, r.trouble, false)
  }

  /** poll reports readiness only where it was asked for, trouble anywhere. */
  predicate Possible(n: PollNode, r: Revents)
  {
    (r.pollIn ==> n.pollIn) && (r.pollOut ==> n.pollOut)
  }

  /** One descriptor's turn in the loop of fdevent_process. */
  function Mark(s: State, fd: int, r: Revents): State
    requires fd in s.nodes && s.nodes[fd].fde in s.fdes
  {
    var f := s.nodes[fd].fde;
    if EventsOf(r) == NOTHING then s
    else s.(fdes := s.fdes[f := s.fdes[f].(events := s.fdes[f].events.Or(EventsOf(r)), pending := true)],
            pending := s.pending + [f])
  }

  /** What a callback may do. */
  datatype Op = DoInstall(f: Fde, fd: int) | DoRemove(f: Fde) | DoSet(f: Fde, mask: Mask)

  /** Callers install only idle fdevents on descriptors that are not watched, and re-mask only active ones. */
  predicate Legal(s: State, op: Op)
  {
    match op
    case DoInstall(f, fd) => fd >= 0 && fd !in s.nodes && (f in s.fdes ==> !s.fdes[f].active)
    case DoRemove(f) => f in s.fdes && f != RUN_QUEUE
    case DoSet(f, mask) => f in s.fdes && (s.fdes[f].active || s.fdes[f].mask == mask)
  }

  /** An illegal operation never happens. */
  function Apply(s: State, op: Op): State
  {
    if !Legal(s, op) then s
    else
      match op
      case DoInstall(f, fd) => Install(s, f, fd)
      case DoRemove(f) => Remove(s, f)
      case DoSet(f, mask) => Set(s, f, mask)
  }

  /** A callback: its operations in order. */
  function Callback(s: State, ops: seq<Op>): State
    decreases |ops|
  {
    if ops == [] then s else Callback(Apply(s, ops[0]), ops[1..])
  }

  // ----- the loop -----

  /** One call of a callback: which fdevent, with which events, and the fdevent as it was then. */
  datatype Call = Call(f: Fde, events: Mask, at: FdEvent)

  datatype Dispatched = Dispatched(state: State, calls: seq<Call>)

  /** Taking the first fdevent off the list: its events are cleared before its callback runs. */
  function Pop(s: State): State
    requires s.pending != [] && s.pending[0] in s.fdes
  {
    var f := s.pending[0];
    s.(fdes := s.fdes[f := s.fdes[f].(events := NOTHING, pending := false)], pending := s.pending[1..])
  }

  // ----- the invariant -----

  predicate NodeOk(s: State, fd: int)
    requires fd in s.nodes
  {
    var n := s.nodes[fd];
    && n.fde in s.fdes && s.fdes[n.fde].active && s.fdes[n.fde].fd == fd
    && n.pollIn == s.fdes[n.fde].mask.read && n.pollOut == s.fdes[n.fde].mask.write
  }

  /** Pending events were asked for, except the read that trouble fakes. */
  predicate Wanted(events: Mask, mask: Mask)
  {
    && (events.read && !events.error ==> mask.read)
    && (events.write ==> mask.write)
  }

  predicate FdeOk(s: State, f: Fde)
    requires f in s.fdes
  {
    var e := s.fdes[f];
    && (e.pending <==> f in s.pending) && (e.pending <==> e.events != NOTHING)
    && (e.pending ==> e.active)
    && (e.active ==> e.fd in s.nodes && s.nodes[e.fd].fde == f)
    && Wanted(e.events, e.mask)
  }

  ghost predicate Inv(s: State)
  {
    && (forall fd :: fd in s.nodes ==> NodeOk(s, fd))
    && (forall f :: f in s.fdes ==> FdeOk(s, f))
    && (forall f :: f in s.pending ==> f in s.fdes)
    && Distinct(s.pending)
    && RUN_QUEUE in s.fdes && s.fdes[RUN_QUEUE].active
  }

  lemma InstallInv(s: State, f: Fde, fd: int)
    requires Inv(s) && Legal(s, DoInstall(f, fd))
    ensures Inv(Install(s, f, fd))
  {
    var s' := Install(s, f, fd);
    forall g | g in s'.fdes ensures FdeOk(s', g) { if g != f { assert FdeOk(s, g); } else if f in s.fdes { assert FdeOk(s, f); } }
    forall d | d in s'.nodes ensures NodeOk(s', d) { if d != fd { assert NodeOk(s, d); } }
  }

  lemma RemoveInv(s: State, f: Fde)
    requires Inv(s) && f in s.fdes && f != RUN_QUEUE
    ensures Inv(Remove(s, f))
    ensures s.fdes[f].active ==> var e := Remove(s, f).fdes[f]; !e.active && (s.fdes[f].mask.dontClose || e.fd == -1)
  {
    var s' := Remove(s, f);
    assert FdeOk(s, f);
    WithoutDistinct(s.pending, f);
    forall g | g in s'.fdes ensures FdeOk(s', g) { assert FdeOk(s, g); }
    forall d | d in s'.nodes ensures NodeOk(s', d) { assert NodeOk(s, d); }
  }

  lemma SetInv(s: State, f: Fde, mask: Mask)
    requires Inv(s) && f in s.fdes && (s.fdes[f].active || s.fdes[f].mask == mask)
    ensures Inv(Set(s, f, mask))
  {
    var s', e := Set(s, f, mask), s.fdes[f];
    if e.mask != mask {
      assert FdeOk(s, f) && NodeOk(s, e.fd);
      WithoutDistinct(s.pending, f);
      assert FdeOk(s', f) && NodeOk(s', e.fd);
      forall g | g in s'.fdes && g != f ensures FdeOk(s', g) { assert FdeOk(s, g); }
      forall d | d in s'.nodes && d != e.fd ensures NodeOk(s', d) { assert NodeOk(s, d); }
    }
  }

  lemma ApplyInv(s: State, op: Op)
    requires Inv(s)
    ensures Inv(Apply(s, op))
  {
    if Legal(s, op) {
      match op
      case DoInstall(f, fd) => InstallInv(s, f, fd);
      case DoRemove(f) => RemoveInv(s, f);
      case DoSet(f, mask) => SetInv(s, f, mask);
    }
  }

  lemma {:induction false} CallbackInv(s: State, ops: seq<Op>)
    requires Inv(s)
    ensures Inv(Callback(s, ops))
    decreases |ops|
  {
    if ops != [] {
      ApplyInv(s, ops[0]);
      CallbackInv(Apply(s, ops[0]), ops[1..]);
    }
  }

  lemma PopInv(s: State)
    requires Inv(s) && s.pending != []
    ensures Inv(Pop(s))
  {
    var s', f := Pop(s), s.pending[0];
    assert FdeOk(s, f);
    forall g | g in s'.fdes ensures FdeOk(s', g) { assert FdeOk(s, g); }
    forall d | d in s'.nodes ensures NodeOk(s', d) { assert NodeOk(s, d); }
  }

  lemma MarkInv(s: State, fd: int, r: Revents)
    requires Inv(s) && fd in s.nodes && Possible(s.nodes[fd], r)
    requires s.nodes[fd].fde in s.fdes && !s.fdes[s.nodes[fd].fde].pending
    ensures Inv(Mark(s, fd, r))
  {
    var s', f := Mark(s, fd, r), s.nodes[fd].fde;
    assert NodeOk(s, fd) && FdeOk(s, f);
    forall g | g in s'.fdes ensures FdeOk(s', g) { assert FdeOk(s, g); }
    forall d | d in s'.nodes ensures NodeOk(s', d) { assert NodeOk(s, d); }
  }

  // ----- one iteration of fdevent_loop -----

  /** Callbacks never add to the list, so the inner loop of fdevent_loop ends. */
  lemma {:induction false} CallbackShrinks(s: State, ops: seq<Op>)
    ensures |Callback(s, ops).pending| <= |s.pending|
    ensures forall f :: f in Callback(s, ops).pending ==> f in s.pending
    decreases |ops|
  {
    if ops != [] {
      WithoutShorter(s.pending, ops[0].f);
      CallbackShrinks(Apply(s, ops[0]), ops[1..]);
    }
  }

  lemma WithoutShorter<T(!new)>(list: seq<T>, x: T)
    ensures |Without(list, x)| <= |list|
  {
  }

  /** The loop of fdevent_process, over the watched descriptors in the order of the table. */
  ghost function MarkAll(s: State, order: seq<int>, report: map<int, Revents>): (s': State)
    requires Inv(s) && Polled(s, order, report)
    ensures Inv(s') && s'.nodes == s.nodes
    decreases |order|
  {
    if order == [] then s
    else
      assert NodeOk(s, order[0]);
      MarkInv(s, order[0], report[order[0]]);
      PolledRest(s, order, report);
      MarkAll(Mark(s, order[0], report[order[0]]), order[1..], report)
  }

  /** The descriptors still to be looked at: watched, each once, idle, and with a possible report. */
  ghost predicate Polled(s: State, order: seq<int>, report: map<int, Revents>)
  {
    && Distinct(order)
    && forall fd :: fd in order ==>
         fd in s.nodes && fd in report && Possible(s.nodes[fd], report[fd]) &&
         s.nodes[fd].fde in s.fdes && !s.fdes[s.nodes[fd].fde].pending
  }

  lemma PolledRest(s: State, order: seq<int>, report: map<int, Revents>)
    requires Inv(s) && Polled(s, order, report) && order != []
    ensures Polled(Mark(s, order[0], report[order[0]]), order[1..], report)
  {
    var fd := order[0];
    forall d | d in order[1..] ensures d in order && d != fd && s.nodes[d].fde != s.nodes[fd].fde {
      assert NodeOk(s, d) && NodeOk(s, fd);
    }
  }

  /** The inner loop of fdevent_loop; `scripts` are what the successive callbacks do. */
  ghost function DispatchAll(s: State, scripts: seq<seq<Op>>): (d: Dispatched)
    requires Inv(s)
    ensures Inv(d.state) && d.state.pending == []
    decreases |s.pending|
  {
    if s.pending == [] then Dispatched(s, [])
    else
      var f := s.pending[0];
      var ops := if scripts == [] then [] else scripts[0];
      PopInv(s);
      CallbackInv(Pop(s), ops);
      CallbackShrinks(Pop(s), ops);
      var d := DispatchAll(Callback(Pop(s), ops), if scripts == [] then [] else scripts[1..]);
      Dispatched(d.state, [Call(f, s.fdes[f].events, s.fdes[f])] + d.calls)
  }

  /** No callback runs for a removed fdevent, without events, or for an event nobody asked for. */
  predicate CallOk(c: Call)
  {
    c.at.active && c.at.pending && c.events != NOTHING && Wanted(c.events, c.at.mask)
  }

  lemma {:induction false} CallsOk(s: State, scripts: seq<seq<Op>>)
    requires Inv(s)
    ensures forall c :: c in DispatchAll(s, scripts).calls ==> CallOk(c) && c.f in s.pending
    ensures forall i, j :: 0 <= i < j < |DispatchAll(s, scripts).calls| ==>
              DispatchAll(s, scripts).calls[i].f != DispatchAll(s, scripts).calls[j].f
    decreases |s.pending|
  {
    if s.pending != [] {
      var f := s.pending[0];
      var ops := if scripts == [] then [] else scripts[0];
      var rest := if scripts == [] then [] else scripts[1..];
      PopInv(s);
      CallbackInv(Pop(s), ops);
      CallbackShrinks(Pop(s), ops);
      CallsOk(Callback(Pop(s), ops), rest);
      assert FdeOk(s, f) && f !in s.pending[1..];
      assert DispatchAll(s, scripts).calls[1..] == DispatchAll(Callback(Pop(s), ops), rest).calls;
    }
  }

  // ----- what exactly is dispatched -----

  predicate Narrows(before: FdEvent, after: FdEvent)
  {
    after.events.Within(before.events) && after.fd == before.fd
  }

  lemma ApplyNarrows(s: State, op: Op, f: Fde)
    requires Inv(s) && f in Apply(s, op).pending
    ensures f in s.fdes && f in Apply(s, op).fdes && Narrows(s.fdes[f], Apply(s, op).fdes[f])
  {
    assert FdeOk(s, f);
  }

  /** While an fdevent stays due, callbacks of others can only narrow its events. */
  lemma {:induction false} CallbackNarrows(s: State, ops: seq<Op>, f: Fde)
    requires Inv(s) && f in Callback(s, ops).pending
    ensures f in s.fdes && f in Callback(s, ops).fdes && Narrows(s.fdes[f], Callback(s, ops).fdes[f])
    decreases |ops|
  {
    if ops != [] {
      var s' := Apply(s, ops[0]);
      ApplyInv(s, ops[0]);
      CallbackNarrows(s', ops[1..], f);
      CallbackShrinks(s', ops[1..]);
      ApplyNarrows(s, ops[0], f);
    }
  }

  lemma {:induction false} DispatchNarrows(s: State, scripts: seq<seq<Op>>, c: Call)
    requires Inv(s) && c in DispatchAll(s, scripts).calls
    ensures c.f in s.fdes && Narrows(s.fdes[c.f], c.at) && c.events == c.at.events
    decreases |s.pending|
  {
    CallsOk(s, scripts);
    var f := s.pending[0];
    var ops := if scripts == [] then [] else scripts[0];
    PopInv(s);
    CallbackInv(Pop(s), ops);
    CallbackShrinks(Pop(s), ops);
    var s' := Callback(Pop(s), ops);
    var rest := if scripts == [] then [] else scripts[1..];
    if c in DispatchAll(s', rest).calls {
      DispatchNarrows(s', rest, c);
      CallsOk(s', rest);
      CallbackNarrows(Pop(s), ops, c.f);
      assert c.f in s.pending[1..];
      assert c.f != f;
    }
  }

  predicate Untouched(f: Fde, ops: seq<Op>)
  {
    forall i :: 0 <= i < |ops| ==> ops[i].f != f
  }

  lemma {:induction false} CallbackKeeps(s: State, ops: seq<Op>, f: Fde)
    requires Inv(s) && f in s.fdes && Untouched(f, ops)
    ensures f in Callback(s, ops).fdes && Callback(s, ops).fdes[f] == s.fdes[f]
    ensures f in s.pending ==> f in Callback(s, ops).pending
    decreases |ops|
  {
    if ops != [] {
      assert ops[0].f != f;
      ApplyInv(s, ops[0]);
      CallbackKeeps(Apply(s, ops[0]), ops[1..], f);
    }
  }

  /** A due fdevent that no callback touches is called, with exactly its events. */
  lemma {:induction false} DispatchComplete(s: State, scripts: seq<seq<Op>>, f: Fde)
    requires Inv(s) && f in s.pending
    requires forall i :: 0 <= i < |scripts| ==> Untouched(f, scripts[i])
    ensures f in s.fdes && Call(f, s.fdes[f].events, s.fdes[f]) in DispatchAll(s, scripts).calls
    decreases |s.pending|
  {
    var ops := if scripts == [] then [] else scripts[0];
    var rest := if scripts == [] then [] else scripts[1..];
    PopInv(s);
    CallbackInv(Pop(s), ops);
    CallbackShrinks(Pop(s), ops);
    if f != s.pending[0] {
      CallbackKeeps(Pop(s), ops, f);
      DispatchComplete(Callback(Pop(s), ops), rest, f);
    }
  }

  /** After fdevent_process the events of every fdevent are what poll said about its descriptor, and those due are those with any. */
  lemma {:induction false} MarkAllMarks(s: State, order: seq<int>, report: map<int, Revents>)
    requires Inv(s) && Polled(s, order, report)
    ensures var s' := MarkAll(s, order, report);
            && s'.fdes.Keys == s.fdes.Keys
            && (forall f :: f in s.fdes ==> s'.fdes[f].fd == s.fdes[f].fd)
            && (forall fd :: fd in order ==> s'.fdes[s.nodes[fd].fde].events == EventsOf(report[fd]))
            && (forall f :: f in s.fdes && (s.fdes[f].fd !in order || !s.fdes[f].active) ==> s'.fdes[f] == s.fdes[f])
    decreases |order|
  {
    if order != [] {
      var fd := order[0];
      var f, m := s.nodes[fd].fde, Mark(s, fd, report[fd]);
      assert NodeOk(s, fd) && FdeOk(s, f);
      MarkInv(s, fd, report[fd]);
      PolledRest(s, order, report);
      MarkAllMarks(m, order[1..], report);
      forall d | d in s.nodes ensures NodeOk(s, d) {}
    }
  }

  datatype Round = Round(order: seq<int>, report: map<int, Revents>, scripts: seq<seq<Op>>)

  /** poll was given every watched descriptor, in some order. */
  ghost predicate RoundOk(s: State, r: Round)
  {
    Polled(s, r.order, r.report) && forall fd :: fd in s.nodes ==> fd in r.order
  }

  ghost function OneRound(s: State, r: Round): (d: Dispatched)
    requires Inv(s) && RoundOk(s, r)
    ensures Inv(d.state) && d.state.pending == []
  {
    DispatchAll(MarkAll(s, r.order, r.report), r.scripts)
  }

  predicate Caused(events: Mask, r: Revents)
  {
    && (events.read ==> r.pollIn || r.trouble) && (events.write ==> r.pollOut)
    && (events.error ==> r.trouble) && !events.dontClose
  }

  /**
   One iteration of fdevent_loop, whatever the callbacks do: each call is for an fdevent that is
   installed then, at most one per fdevent, with FDE_READ only if poll reported readable data or
   trouble on its descriptor, FDE_WRITE only if it reported it writable, FDE_ERROR only on trouble.
   */
  lemma RoundCalls(s: State, r: Round)
    requires Inv(s) && s.pending == [] && RoundOk(s, r)
    ensures var calls := OneRound(s, r).calls;
            && (forall c :: c in calls ==> CallOk(c) && c.at.fd in r.report && Caused(c.events, r.report[c.at.fd]))
            && (forall i, j :: 0 <= i < j < |calls| ==> calls[i].f != calls[j].f)
  {
    var m := MarkAll(s, r.order, r.report);
    MarkAllMarks(s, r.order, r.report);
    CallsOk(m, r.scripts);
    forall c | c in OneRound(s, r).calls ensures c.at.fd in r.report && Caused(c.events, r.report[c.at.fd]) {
      DispatchNarrows(m, r.scripts, c);
      assert FdeOk(m, c.f) && FdeOk(s, c.f);
    }
  }

  /**
   A descriptor about which poll reported anything, and whose fdevent no callback touches, is
   called for: to read exactly when there is data or trouble, to write exactly when it is writable,
   with FDE_ERROR exactly on trouble.
   */
  lemma RoundComplete(s: State, r: Round, fd: int)
    requires Inv(s) && s.pending == [] && RoundOk(s, r)
    requires fd in s.nodes && (r.report[fd].pollIn || r.report[fd].pollOut || r.report[fd].trouble)
    requires forall i :: 0 <= i < |r.scripts| ==> Untouched(s.nodes[fd].fde, r.scripts[i])
    ensures exists c :: c in OneRound(s, r).calls && c.f == s.nodes[fd].fde && c.at.fd == fd &&
                        (c.events.read <==> r.report[fd].pollIn || r.report[fd].trouble) &&
                        (c.events.write <==> r.report[fd].pollOut) && (c.events.error <==> r.report[fd].trouble)
  {
    var m, f := MarkAll(s, r.order, r.report), s.nodes[fd].fde;
    MarkAllMarks(s, r.order, r.report);
    assert NodeOk(s, fd) && FdeOk(m, f);
    DispatchComplete(m, r.scripts, f);
  }

  /** fdevent_loop over any number of iterations. */
  ghost function Loop(s: State, rounds: seq<Round>): (s': State)
    requires Inv(s) && s.pending == []
    ensures Inv(s') && s'.pending == [] && s'.nodes != map[]
    decreases |rounds|
  {
    if rounds == [] then
      assert FdeOk(s, RUN_QUEUE);
      s
    else Loop(if RoundOk(s, rounds[0]) then OneRound(s, rounds[0]).state else s, rounds[1..])
  }
}
