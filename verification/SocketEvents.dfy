/**
 The event loop of module FdEvent over the sockets of module Registry: what it calls a socket's
 callback with is what module Streams takes for possible.
 */
module SocketEvents {
  import opened Base
  import opened Descriptors
  import opened Streams
  import opened Registry
  import opened StreamTheorems
  import F = FdEvent

  /** At the call the fdevent asks for what its socket's record says. */
  predicate AsRecorded(at: F.FdEvent, s: Sock)
  {
    at.mask.read == s.readOn && at.mask.write == s.writeOn
  }

  /** What the callback is called with, and what it then meets. */
  function EventOf(c: F.Call, writes: seq<WriteResult>, input: seq<ReadResult>, forceEof: bool, ask: Ask): Event
  {
    Event(c.events.write, c.events.read, writes, input, forceEof, ask)
  }

  /**
   In every round of the loop, whatever other callbacks did before: a call for a socket is an
   event the protocol allows; and unless poll reported trouble on its descriptor, a read reaches
   it only while FDE_READ is on.
   */
  lemma CallsAreDeliverable(
    s: F.State, round: F.Round, c: F.Call, r: Registry, m: Endpoint, i: Id,
    writes: seq<WriteResult>, input: seq<ReadResult>, forceEof: bool, ask: Ask)
    requires F.Inv(s) && s.pending == [] && F.RoundOk(s, round) && c in F.OneRound(s, round).calls
    requires Rep(r, m, None) && Loc(i) in r.mem && AsRecorded(c.at, r.mem[Loc(i)])
    ensures Deliverable(m, i, EventOf(c, writes, input, forceEof, ask))
    ensures c.at.fd in round.report
    ensures !round.report[c.at.fd].trouble ==> NoHangUp(m, Dispatch(i, EventOf(c, writes, input, forceEof, ask)))
  {
    F.RoundCalls(s, round);
    PointerFacts(r, m);
    assert MirrorsAt(r.mem, m, i);
  }
}
