/**
 The tables of core/adb/fdevent.cpp as its functions update them. Every CHECK of the source is
 an assertion here.
 */
module FdEventLoop {
  import opened Base
  import opened FdEvent

  /** g_pending_list.remove: a scan that keeps what differs. */
  method RemoveFromList(list: seq<Fde>, f: Fde) returns (r: seq<Fde>)
    ensures r == Without(list, f)
  {
    r := [];
    for i := |list| downto 0
      invariant r == Without(list[i..], f)
    {
      assert list[i..][1..] == list[i + 1..];
      if list[i] != f {
        r := [list[i]] + r;
      }
    }
    assert list[0..] == list;
  }

  class EventLoop {
    var fdes: map<Fde, FdEvent>
    var nodes: map<int, PollNode>
    var pending: seq<Fde>

    ghost function Value(): State
      reads this
    {
      State(fdes, nodes, pending)
    }

    /** After fdevent_run_setup. */
    constructor (fd: int)
      requires fd >= 0
      ensures Inv(Value()) && pending == [] && fdes.Keys == {RUN_QUEUE}
    {
      fdes := map[RUN_QUEUE := FdEvent(fd, true, false, FDE_READ, NOTHING)];
      nodes := map[fd := PollNode(RUN_QUEUE, true, false)];
      pending := [];
    }

    method FdInstall(f: Fde, fd: int)
      requires Inv(Value()) && Legal(Value(), DoInstall(f, fd))
      modifies this
      ensures Value() == Install(old(Value()), f, fd) && Inv(Value())
    {
      InstallInv(Value(), f, fd);
      fdes := fdes[f := FdEvent(fd, true, false, NOTHING, NOTHING)];
      assert fd !in nodes;
      nodes := nodes[fd := PollNode(f, false, false)];
    }

    method FdRemove(f: Fde)
      requires Inv(Value()) && Legal(Value(), DoRemove(f))
      modifies this
      ensures Value() == Remove(old(Value()), f) && Inv(Value())
    {
      RemoveInv(Value(), f);
      var e := fdes[f];
      if e.active {
        nodes := nodes - {e.fd};
        if e.pending {
          pending := RemoveFromList(pending, f);
        }
        if !e.mask.dontClose {
          e := e.(fd := -1);
        }
        fdes := fdes[f := FdEvent(e.fd, false, false, NOTHING, NOTHING)];
      }
    }

    method FdUpdate(f: Fde, mask: Mask)
      requires f in fdes && fdes[f].fd in nodes && nodes[fdes[f].fd].fde == f
      modifies this`fdes, this`nodes
      ensures fdes == old(fdes)[f := old(fdes[f]).(mask := mask)]
      ensures nodes == old(nodes)[fdes[f].fd := PollNode(f, mask.read, mask.write)]
    {
      var fd := fdes[f].fd;
      nodes := nodes[fd := nodes[fd].(pollIn := mask.read)];
      nodes := nodes[fd := nodes[fd].(pollOut := mask.write)];
      fdes := fdes[f := fdes[f].(mask := mask)];
    }

    /** Pending events that are no longer wanted are dropped. */
    method DropUnwanted(f: Fde, mask: Mask)
      requires f in fdes
      modifies this`fdes, this`pending
      ensures var e := old(fdes[f]); var events := if e.pending then e.events.And(mask) else e.events;
              && fdes == old(fdes)[f := e.(events := events, pending := e.pending && events != NOTHING)]
              && pending == if e.pending && events == NOTHING then Without(old(pending), f) else old(pending)
    {
      var e := fdes[f];
      if e.pending {
        e := e.(events := e.events.And(mask));
        if e.events == NOTHING {
          pending := RemoveFromList(pending, f);
          e := e.(pending := false);
        }
      }
      fdes := fdes[f := e];
    }

    method FdSet(f: Fde, mask: Mask)
      requires Inv(Value()) && Legal(Value(), DoSet(f, mask))
      modifies this
      ensures Value() == Set(old(Value()), f, mask) && Inv(Value())
    {
      SetInv(Value(), f, mask);
      assert FdeOk(Value(), f);
      if fdes[f].mask == mask { return; }
      assert fdes[f].active;
      FdUpdate(f, mask);
      DropUnwanted(f, mask);
    }

    /** `fdevent_add`. */
    method FdAdd(f: Fde, events: Mask)
      requires Inv(Value()) && f in fdes && fdes[f].active
      modifies this
      ensures Inv(Value()) && f in fdes && fdes[f].mask == old(fdes[f].mask).Or(events)
      ensures forall g :: g in old(fdes) && g != f ==> g in fdes && fdes[g] == old(fdes[g])
    {
      FdSet(f, fdes[f].mask.Or(events));
    }

    /** `fdevent_del`. */
    method FdDel(f: Fde, events: Mask)
      requires Inv(Value()) && f in fdes && fdes[f].active
      modifies this
      ensures Inv(Value()) && f in fdes && fdes[f].mask == old(fdes[f].mask).Minus(events)
      ensures fdes[f].events.Within(fdes[f].mask) || fdes[f] == old(fdes[f])
      ensures forall g :: g in old(fdes) && g != f ==> g in fdes && fdes[g] == old(fdes[g])
    {
      assert FdeOk(Value(), f);
      FdSet(f, fdes[f].mask.Minus(events));
    }

    /** One descriptor of the loop in fdevent_process. */
    method MarkOne(fd: int, r: Revents)
      requires fd in nodes && NodeOk(Value(), fd)
      modifies this`fdes, this`pending
      ensures Value() == Mark(old(Value()), fd, r)
    {
      var events := NOTHING;
      if r.pollIn { events := events.(read := true); }
      if r.pollOut { events := events.(write := true); }
      if r.trouble { events := events.(read := true, error := true); }
      if events != NOTHING {
        var f := nodes[fd].fde;
        assert fdes[f].fd == fd;
        fdes := fdes[f := fdes[f].(events := fdes[f].events.Or(events), pending := true)];
        pending := pending + [f];
      }
    }

    /** `fdevent_process` on what poll returned, when nothing is pending. */
    method Process(order: seq<int>, report: map<int, Revents>)
      requires Inv(Value()) && Polled(Value(), order, report)
      modifies this
      ensures Value() == MarkAll(old(Value()), order, report)
      ensures forall fd :: fd in order ==>
                && nodes[fd].fde in fdes
                && var events := fdes[nodes[fd].fde].events;
                && (events.read <==> report[fd].pollIn || report[fd].trouble)
                && (events.write <==> report[fd].pollOut) && (events.error <==> report[fd].trouble)
    {
      ghost var s := Value();
      MarkAllMarks(s, order, report);
      for i := 0 to |order|
        invariant Inv(Value()) && Polled(Value(), order[i..], report)
        invariant MarkAll(s, order, report) == MarkAll(Value(), order[i..], report)
      {
        var fd := order[i];
        assert order[i..][0] == fd && order[i..][1..] == order[i + 1..];
        PolledRest(Value(), order[i..], report);
        MarkInv(Value(), fd, report[fd]);
        MarkOne(fd, report[fd]);
      }
    }

    /** A callback's operations. */
    method RunCallback(ops: seq<Op>)
      requires Inv(Value())
      modifies this
      ensures Inv(Value()) && Value() == Callback(old(Value()), ops)
    {
      ghost var s := Value();
      for i := 0 to |ops|
        invariant Inv(Value()) && Callback(s, ops) == Callback(Value(), ops[i..])
      {
        assert ops[i..][0] == ops[i] && ops[i..][1..] == ops[i + 1..];
        match ops[i]
        case DoInstall(f, fd) =>
          if fd >= 0 && fd !in nodes && (f in fdes ==> !fdes[f].active) { FdInstall(f, fd); }
        case DoRemove(f) =>
          if f in fdes && f != RUN_QUEUE { FdRemove(f); }
        case DoSet(f, mask) =>
          if f in fdes && (fdes[f].active || fdes[f].mask == mask) { FdSet(f, mask); }
      }
    }

    /** The inner loop of fdevent_loop with fdevent_call_fdfunc; returns the calls it made. */
    method DispatchPending(scripts: seq<seq<Op>>) returns (calls: seq<Call>)
      requires Inv(Value())
      modifies this
      ensures Dispatched(Value(), calls) == DispatchAll(old(Value()), scripts)
    {
      ghost var s := Value();
      var rest := scripts;
      calls := [];
      while pending != []
        invariant Inv(Value())
        invariant DispatchAll(s, scripts) == var d := DispatchAll(Value(), rest); Dispatched(d.state, calls + d.calls)
        decreases |pending|
      {
        PopInv(Value());
        var f := pending[0];
        assert FdeOk(Value(), f);
        var call := Call(f, fdes[f].events, fdes[f]);
        ghost var before, d := Value(), DispatchAll(Value(), rest);
        pending := pending[1..];
        assert fdes[f].pending;
        fdes := fdes[f := fdes[f].(events := NOTHING, pending := false)];
        var ops := if rest == [] then [] else rest[0];
        CallbackShrinks(Value(), ops);
        assert Value() == Pop(before);
        RunCallback(ops);
        rest := if rest == [] then [] else rest[1..];
        assert calls + d.calls == calls + [call] + DispatchAll(Value(), rest).calls;
        calls := calls + [call];
      }
    }
  }
}
