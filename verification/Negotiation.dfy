/**
 The CNXN exchange of module PacketCodec is what the main thread of module Transport does with
 SYNC(1) and CNXN, on either side and whatever the build of the other.
 */
module Negotiation {
  import opened Base
  import opened Descriptors
  import opened Streams
  import opened Transport
  import opened TransportRuns
  import P = PacketCodec

  /** The maxdata fields of the CNXNs among `msgs`. */
  function Announced(msgs: seq<Msg>): seq<nat>
    decreases |msgs|
  {
    if msgs == [] then [] else (if msgs[0].Cnxn? then [msgs[0].maxdata] else []) + Announced(msgs[1..])
  }

  lemma {:induction false} AnnouncedAppend(a: seq<Msg>, b: seq<Msg>)
    ensures Announced(a + b) == Announced(a) + Announced(b)
    decreases |a|
  {
    if a == [] {
      assert a + b == b;
    } else {
      assert (a + b)[1..] == a[1..] + b;
      AnnouncedAppend(a[1..], b);
    }
  }

  lemma {:induction false} StreamAnnouncesNothing(msgs: seq<Msg>)
    requires forall i :: 0 <= i < |msgs| ==> msgs[i].Stream?
    ensures Announced(msgs) == []
    decreases |msgs|
  {
    if msgs != [] { StreamAnnouncesNothing(msgs[1..]); }
  }

  lemma AnnouncedOne(m: Msg)
    ensures Announced([m]) == if m.Cnxn? then [m.maxdata] else []
  {
    assert [m][1..] == [];
  }

  /** `r` is the host's end of the exchange, or the device's. */
  predicate HostEnd(h: P.Handshake, r: Refs)
  {
    h.hostLimit == r.ep.limit && h.hostUp == !r.offline
  }

  predicate DeviceEnd(h: P.Handshake, r: Refs)
  {
    h.deviceLimit == r.ep.limit && h.deviceUp == !r.offline
  }

  /** A SYNC(1) makes the host announce its limit, and a device nothing. */
  lemma SyncAnnounces(h: P.Handshake, r: Refs, token: nat, deviceMax: nat, accept: bool, script: seq<WriteResult>)
    ensures var a := AnswerTo(true, r, Sync(1, token), accept, script);
            a.refs == r && (HostEnd(h, r) ==> h.toDevice + Announced(a.msgs) == P.Shaken(h, MAX_PAYLOAD, deviceMax, P.Greet).toDevice)
    ensures var a := AnswerTo(false, r, Sync(1, token), accept, script); a.refs == r && Announced(a.msgs) == []
  {
    AnnouncedOne(Sync(1, token));
    AnnouncedOne(Cnxn(r.ep.limit));
    AnnouncedAppend([Sync(1, token)], [Cnxn(r.ep.limit)]);
    AnnouncedAppend([Sync(1, token)], []);
  }

  lemma CnxnMessages(host: bool, r: Refs, maxdata: nat, accept: bool, script: seq<WriteResult>)
    ensures var a := AnswerTo(host, r, Cnxn(maxdata), accept, script); var limit := Min(maxdata, MAX_PAYLOAD);
            && a.refs.ep.limit == limit && !a.refs.offline
            && Announced(a.msgs) == if host then [] else [limit]
  {
    var closed := if r.offline then [] else Wrap(CloseFrom(r.ep, 1).sent);
    var limit := Min(maxdata, MAX_PAYLOAD);
    StreamAnnouncesNothing(closed);
    AnnouncedOne(Cnxn(limit));
    AnnouncedAppend(closed, if host then [] else [Cnxn(limit)]);
  }

  /** A CNXN at the host: it takes the smaller limit, goes online and announces nothing. */
  lemma HostHearsAsShaken(h: P.Handshake, r: Refs, deviceMax: nat, accept: bool, script: seq<WriteResult>)
    requires HostEnd(h, r) && h.toHost != []
    ensures var a := AnswerTo(true, r, Cnxn(h.toHost[0]), accept, script);
            HostEnd(P.Shaken(h, MAX_PAYLOAD, deviceMax, P.HostHears), a.refs) && Announced(a.msgs) == []
  {
    CnxnMessages(true, r, h.toHost[0], accept, script);
  }

  /** A CNXN at the device: it takes the smaller limit, goes online and announces it. */
  lemma DeviceHearsAsShaken(h: P.Handshake, r: Refs, hostMax: nat, accept: bool, script: seq<WriteResult>)
    requires DeviceEnd(h, r) && h.toDevice != []
    ensures var a := AnswerTo(false, r, Cnxn(h.toDevice[0]), accept, script);
            var h' := P.Shaken(h, hostMax, MAX_PAYLOAD, P.DeviceHears);
            DeviceEnd(h', a.refs) && h'.toHost == h.toHost + Announced(a.msgs)
  {
    CnxnMessages(false, r, h.toDevice[0], accept, script);
  }

  /** A CNXN starts afresh: no socket in the live list and no listener of an earlier connection is left. */
  lemma CnxnStartsAfresh(host: bool, r: Refs, maxdata: nat, accept: bool, script: seq<WriteResult>)
    requires RefsInv(r)
    ensures var a := AnswerTo(host, r, Cnxn(maxdata), accept, script).refs; Released(a.ep, a.listeners)
  {
    OfflineRefs(r);
    var r1 := if r.offline then r else Offline(r);
    var a := AnswerTo(host, r, Cnxn(maxdata), accept, script).refs;
    forall id ensures !SocketRefers(a.ep, id) { assert !SocketRefers(r1.ep, id); }
  }
}
