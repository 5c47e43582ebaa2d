/**
 Packets as bytes: send_packet and check_header of core/adb/transport.cpp, remote_read and
 remote_write of core/adb/transport_local.cpp, the checksum and the CNXN exchange of
 core/adb/adb.cpp.
 */
module PacketCodec {
  import opened Base
  import opened Descriptors
  import opened AdbIo
  import opened Streams
  import opened StreamTheorems
  import StreamOpens
  import SmartSocket

  const A_OPEN: uint32 := 0x4e45504f
  const A_OKAY: uint32 := 0x59414b4f
  const A_CLSE: uint32 := 0x45534c43
  const A_WRTE: uint32 := 0x45545257

  /** The bytes on the wire spell the name of the command. */
  lemma CommandsSpell()
    ensures FromLE32([79, 80, 69, 78]) == A_OPEN && FromLE32([79, 75, 65, 89]) == A_OKAY
    ensures FromLE32([67, 76, 83, 69]) == A_CLSE && FromLE32([87, 82, 84, 69]) == A_WRTE
  {
  }

  const HEADER := 24

  /** An amessage; every word is 32 bits wide. */
  datatype Message = Message(
    command: uint32, arg0: uint32, arg1: uint32, dataLength: uint32, dataCheck: uint32, magic: uint32)

  datatype Apacket = Apacket(msg: Message, data: bytes)

  // ----- the checksum -----

  function Sum(data: bytes): nat
  {
    if data == [] then 0 else Sum(data[..|data| - 1]) + data[|data| - 1] as int
  }

  function Checksum(data: bytes): uint32
  {
    Sum(data) % TWO_32
  }

  /** `calculate_apacket_checksum`: a 32-bit accumulator that wraps around. */
  method CalculateChecksum(data: bytes) returns (sum: uint32)
    ensures sum == Checksum(data)
  {
    sum := 0;
    for i := 0 to |data|
      invariant sum == Sum(data[..i]) % TWO_32
    {
      assert data[..i + 1][..i] == data[..i];
      sum := (sum + data[i] as int) % TWO_32;
    }
    assert data[..|data|] == data;
  }

  /** One byte changed is always noticed. */
  lemma {:induction false} ChecksumSeesOneByte(a: bytes, k: nat, b: byte)
    requires k < |a| && b != a[k]
    ensures Checksum(a[k := b]) != Checksum(a)
  {
    SumUpdate(a, k, b);
    var q, q' := Sum(a) / TWO_32, Sum(a[k := b]) / TWO_32;
    assert Checksum(a[k := b]) - Checksum(a) == b as int - a[k] as int - TWO_32 * (q' - q);
  }

  lemma {:induction false} SumUpdate(a: bytes, k: nat, b: byte)
    requires k < |a|
    ensures Sum(a[k := b]) == Sum(a) + b as int - a[k] as int
  {
    var n := |a| - 1;
    if k == n {
      assert a[k := b][..n] == a[..n];
    } else {
      assert a[k := b][..n] == a[..n][k := b];
      SumUpdate(a[..n], k, b);
    }
  }

  // ----- sealing and checking -----

  function Flip(b: bv32): bv32
  {
    b ^ 0xffff_ffff
  }

  lemma FlipBits(b: bv32)
    ensures Flip(b) & b == 0 && Flip(b) | b == 0xffff_ffff
  {
  }

  function Magic(command: uint32): uint32
  {
    Flip(command as bv32) as uint32
  }

  /** Every bit of the magic differs from that of the command. */
  lemma MagicIsComplement(command: uint32)
    ensures (Magic(command) as bv32) & (command as bv32) == 0 && (Magic(command) as bv32) | (command as bv32) == 0xffff_ffff
  {
    FlipBits(command as bv32);
    SameBits(Flip(command as bv32));
  }

  /** `send_packet` fills in the magic and the checksum. */
  predicate Sealed(p: Apacket)
  {
    p.msg.dataLength == |p.data| && p.msg.dataCheck == Checksum(p.data) && p.msg.magic == Magic(p.msg.command)
  }

  function Seal(command: uint32, arg0: uint32, arg1: uint32, data: bytes): (p: Apacket)
    requires |data| < TWO_32
    ensures Sealed(p)
  {
    Apacket(Message(command, arg0, arg1, |data|, Checksum(data), Magic(command)), data)
  }

  // ----- bytes -----

  function EncodeHeader(m: Message): (s: bytes)
    ensures |s| == HEADER
  {
    LE32(m.command) + LE32(m.arg0) + LE32(m.arg1) + LE32(m.dataLength) + LE32(m.dataCheck) + LE32(m.magic)
  }

  function DecodeHeader(s: bytes): Message
    requires |s| == HEADER
  {
    Message(FromLE32(s[0..4]), FromLE32(s[4..8]), FromLE32(s[8..12]), FromLE32(s[12..16]), FromLE32(s[16..20]), FromLE32(s[20..24]))
  }

  lemma HeaderRoundTrip(m: Message)
    ensures DecodeHeader(EncodeHeader(m)) == m
  {
    var s := EncodeHeader(m);
    var front, back := LE32(m.command) + LE32(m.arg0) + LE32(m.arg1), LE32(m.dataLength) + LE32(m.dataCheck) + LE32(m.magic);
    assert s == front + back;
    assert s[0..4] == front[0..4] == LE32(m.command) && s[4..8] == front[4..8] == LE32(m.arg0) && s[8..12] == front[8..12] == LE32(m.arg1);
    assert s[12..16] == back[0..4] == LE32(m.dataLength) && s[16..20] == back[4..8] == LE32(m.dataCheck);
    assert s[20..24] == back[8..12] == LE32(m.magic);
    LE32RoundTrip(m.command);
    LE32RoundTrip(m.arg0);
    LE32RoundTrip(m.arg1);
    LE32RoundTrip(m.dataLength);
    LE32RoundTrip(m.dataCheck);
    LE32RoundTrip(m.magic);
  }

  lemma HeaderOnto(s: bytes)
    requires |s| == HEADER
    ensures EncodeHeader(DecodeHeader(s)) == s
  {
    FromLE32Onto(s[0..4]);
    FromLE32Onto(s[4..8]);
    FromLE32Onto(s[8..12]);
    FromLE32Onto(s[12..16]);
    FromLE32Onto(s[16..20]);
    FromLE32Onto(s[20..24]);
    assert s == s[0..4] + s[4..8] + s[8..12] + s[12..16] + s[16..20] + s[20..24];
  }

  /** What `remote_write` puts on the wire. */
  function Encode(p: Apacket): bytes
  {
    EncodeHeader(p.msg) + p.data
  }

  /** The words of an amessage lie on the wire in this order, the payload after them. */
  lemma EncodeLayout(p: Apacket)
    ensures var s := Encode(p);
            && |s| == HEADER + |p.data| && s[HEADER..] == p.data
            && FromLE32(s[0..4]) == p.msg.command && FromLE32(s[4..8]) == p.msg.arg0 && FromLE32(s[8..12]) == p.msg.arg1
            && FromLE32(s[12..16]) == p.msg.dataLength && FromLE32(s[16..20]) == p.msg.dataCheck && FromLE32(s[20..24]) == p.msg.magic
  {
    var s, h := Encode(p), EncodeHeader(p.msg);
    HeaderRoundTrip(p.msg);
    assert s[..HEADER] == h;
    assert s[0..4] == h[0..4] && s[4..8] == h[4..8] && s[8..12] == h[8..12];
    assert s[12..16] == h[12..16] && s[16..20] == h[16..20] && s[20..24] == h[20..24];
  }

  datatype Decoded = Failure | Success(packet: Apacket, rest: bytes)

  /** `remote_read`, with check_header and check_data, for a transport with payload limit `max`. */
  function Decode(s: bytes, max: nat): Decoded
  {
    if |s| < HEADER then Failure
    else
      var m := DecodeHeader(s[..HEADER]);
      if m.magic != Magic(m.command) || m.dataLength > max || |s| < HEADER + m.dataLength then Failure
      else
        var data := s[HEADER..HEADER + m.dataLength];
        if Checksum(data) != m.dataCheck then Failure else Success(Apacket(m, data), s[HEADER + m.dataLength..])
  }

  /** Reading undoes writing, whatever follows in the stream. */
  lemma DecodeEncode(p: Apacket, rest: bytes, max: nat)
    requires Sealed(p) && |p.data| <= max
    ensures Decode(Encode(p) + rest, max) == Success(p, rest)
  {
    var s, n := Encode(p) + rest, |p.data|;
    HeaderRoundTrip(p.msg);
    assert s[..HEADER] == EncodeHeader(p.msg) && s[HEADER..HEADER + n] == p.data && s[HEADER + n..] == rest;
  }

  /** And only what was written that way is accepted. */
  lemma EncodeDecode(s: bytes, max: nat)
    requires Decode(s, max).Success?
    ensures var d := Decode(s, max); Sealed(d.packet) && |d.packet.data| <= max && s == Encode(d.packet) + d.rest
  {
    HeaderOnto(s[..HEADER]);
    var n := DecodeHeader(s[..HEADER]).dataLength;
    assert s == s[..HEADER] + s[HEADER..HEADER + n] + s[HEADER + n..];
  }

  function EncodeAll(packets: seq<Apacket>): bytes
  {
    if packets == [] then [] else Encode(packets[0]) + EncodeAll(packets[1..])
  }

  /** The packets read until the stream ends or one is refused. */
  function DecodeAll(s: bytes, max: nat): seq<Apacket>
    decreases |s|
  {
    match Decode(s, max)
    case Failure => []
    case Success(p, rest) => if |rest| < |s| then [p] + DecodeAll(rest, max) else []
  }

  /** A transport is a FIFO of packets: a stream of them is read back as written. */
  lemma {:induction false} StreamRoundTrip(packets: seq<Apacket>, max: nat)
    requires forall i :: 0 <= i < |packets| ==> Sealed(packets[i]) && |packets[i].data| <= max
    ensures DecodeAll(EncodeAll(packets), max) == packets
  {
    if packets != [] {
      DecodeEncode(packets[0], EncodeAll(packets[1..]), max);
      StreamRoundTrip(packets[1..], max);
    }
  }

  // ----- the two functions -----

  method RemoteWrite(p: Apacket, sink: Sink) returns (ok: bool)
    modifies sink
    ensures ok ==> sink.written == old(sink.written) + Encode(p)
    ensures Broken !in old(sink.script) ==> ok
  {
    ok := sink.WriteFdExactly(EncodeHeader(p.msg) + p.data);
  }

  /** Decodes what is in the stream, however it is cut. */
  method RemoteRead(source: Source, max: nat) returns (r: Option<Apacket>)
    modifies source
    ensures match Decode(old(source.rest), max)
            case Failure => r.None?
            case Success(p, rest) => r == Some(p) && source.rest == rest
  {
    var ok, head := source.ReadFdExactly(HEADER);
    if !ok { return None; }
    var m := DecodeHeader(head);
    if m.magic != Magic(m.command) || m.dataLength > max { return None; }
    var data;
    ok, data := source.ReadFdExactly(m.dataLength);
    if !ok { return None; }
    assert data == old(source.rest)[HEADER..HEADER + m.dataLength];
    var sum := CalculateChecksum(data);
    if sum != m.dataCheck { return None; }
    return Some(Apacket(m, data));
  }

  // ----- negotiation -----

  /** Both ends of a transport before and during the CNXN exchange; `toDevice` and `toHost` are the maxdata fields in flight. */
  datatype Handshake = Handshake(
    hostLimit: nat, deviceLimit: nat, hostUp: bool, deviceUp: bool, toDevice: seq<nat>, toHost: seq<nat>)

  /** The host greets whenever it handles SYNC(1); either end handles the next CNXN. */
  datatype Shake = Greet | DeviceHears | HostHears

  /** send_connect, and handle_new_connection with update_version; each build has its own MAX_PAYLOAD. */
  function Shaken(h: Handshake, hostMax: nat, deviceMax: nat, a: Shake): Handshake
  {
    match a
    case Greet => h.(toDevice := h.toDevice + [h.hostLimit])
    case DeviceHears =>
      if h.toDevice == [] then h
      else
        var limit := Min(h.toDevice[0], deviceMax);
        h.(deviceLimit := limit, deviceUp := true, toDevice := h.toDevice[1..], toHost := h.toHost + [limit])
    case HostHears =>
      if h.toHost == [] then h
      else h.(hostLimit := Min(h.toHost[0], hostMax), hostUp := true, toHost := h.toHost[1..])
  }

  function ShakeAll(h: Handshake, hostMax: nat, deviceMax: nat, steps: seq<Shake>): Handshake
    decreases |steps|
  {
    if steps == [] then h else ShakeAll(Shaken(h, hostMax, deviceMax, steps[0]), hostMax, deviceMax, steps[1..])
  }

  predicate ShakeInv(h: Handshake, hostMax: nat, deviceMax: nat)
  {
    var m := Min(hostMax, deviceMax);
    && (forall i :: 0 <= i < |h.toDevice| ==> h.toDevice[i] == hostMax || h.toDevice[i] == m)
    && (forall i :: 0 <= i < |h.toHost| ==> h.toHost[i] == m)
    && (if h.hostUp then h.hostLimit == m else h.hostLimit == hostMax)
    && (h.deviceUp ==> h.deviceLimit == m) && (h.hostUp || h.toHost != [] ==> h.deviceUp)
  }

  lemma {:induction false} ShakeKeeps(h: Handshake, hostMax: nat, deviceMax: nat, steps: seq<Shake>)
    requires ShakeInv(h, hostMax, deviceMax)
    ensures ShakeInv(ShakeAll(h, hostMax, deviceMax, steps), hostMax, deviceMax)
    decreases |steps|
  {
    if steps != [] { ShakeKeeps(Shaken(h, hostMax, deviceMax, steps[0]), hostMax, deviceMax, steps[1..]); }
  }

  /** When the host is online so is the device, and both hold the smaller of the two limits. */
  lemma SameLimit(hostMax: nat, deviceMax: nat, steps: seq<Shake>)
    ensures var h := ShakeAll(Handshake(hostMax, deviceMax, false, false, [], []), hostMax, deviceMax, steps);
            h.hostUp ==> h.deviceUp && h.hostLimit == h.deviceLimit == Min(hostMax, deviceMax)
  {
    ShakeKeeps(Handshake(hostMax, deviceMax, false, false, [], []), hostMax, deviceMax, steps);
  }

  /** The apacket of a stream packet. */
  function ToApacket(p: Packet): (a: Apacket)
    requires p.Open? ==> |p.dest| + 1 < TWO_32
    requires p.Wrte? ==> |p.data| < TWO_32
    requires p.src < TWO_32 && (!p.Open? ==> p.dst < TWO_32)
    ensures Sealed(a)
  {
    match p
    case Open(src, dest) => Seal(A_OPEN, src, 0, dest + [0])
    case Okay(src, dst) => Seal(A_OKAY, src, dst, [])
    case Wrte(src, dst, data) => Seal(A_WRTE, src, dst, data)
    case Clse(src, dst) => Seal(A_CLSE, src, dst, [])
  }

  /** What handle_packet takes an apacket for: OPEN(local-id, 0, name), READY and CLOSE(local-id, remote-id), WRITE with its data. */
  function OfMessage(command: uint32, arg0: uint32, arg1: uint32, data: bytes): Option<Packet>
  {
    if command == A_OPEN then
      if arg1 != 0 then None else Some(Open(arg0, SmartSocket.CString(if data == [] then [] else data[..|data| - 1])))
    else if command == A_OKAY then Some(Okay(arg0, arg1))
    else if command == A_CLSE then Some(Clse(arg0, arg1))
    else if command == A_WRTE then Some(Wrte(arg0, arg1, data))
    else None
  }

  function OfApacket(a: Apacket): Option<Packet>
  {
    OfMessage(a.msg.command, a.msg.arg0, a.msg.arg1, a.data)
  }

  lemma FieldsRead(p: Packet, command: uint32, arg1: uint32, data: bytes)
    requires p.src < TWO_32 && |data| < TWO_32 && (!p.Open? ==> p.dst < TWO_32)
    requires match p
             case Open(_, dest) => command == A_OPEN && arg1 == 0 && data == dest + [0]
             case Okay(_, dst) => command == A_OKAY && arg1 == dst && data == []
             case Wrte(_, dst, d) => command == A_WRTE && arg1 == dst && data == d
             case Clse(_, dst) => command == A_CLSE && arg1 == dst && data == []
    ensures OfApacket(ToApacket(p)) == OfMessage(command, p.src, arg1, data)
  {
    SealedFields(command, p.src, arg1, data);
  }

  lemma SealedFields(command: uint32, arg0: uint32, arg1: uint32, data: bytes)
    requires |data| < TWO_32
    ensures var a := Seal(command, arg0, arg1, data);
            a.msg.command == command && a.msg.arg0 == arg0 && a.msg.arg1 == arg1 && a.data == data
  {
  }

  lemma OfOpen(src: uint32, dest: bytes)
    requires 0 !in dest
    ensures OfMessage(A_OPEN, src, 0, dest + [0]) == Some(Open(src, dest))
  {
    assert (dest + [0])[..|dest|] == dest;
  }

  /** The other end takes a packet for what it is. */
  lemma ReadAsSent(p: Packet)
    requires p.Open? ==> |p.dest| + 1 < TWO_32 && 0 !in p.dest
    requires p.Wrte? ==> |p.data| < TWO_32
    requires p.src < TWO_32 && (!p.Open? ==> p.dst < TWO_32)
    ensures OfApacket(ToApacket(p)) == Some(p)
  {
    match p
    case Open(src, dest) =>
      OfOpen(src, dest);
      FieldsRead(p, A_OPEN, 0, dest + [0]);
    case Okay(src, dst) => FieldsRead(p, A_OKAY, dst, []);
    case Wrte(src, dst, data) => FieldsRead(p, A_WRTE, dst, data);
    case Clse(src, dst) => FieldsRead(p, A_CLSE, dst, []);
  }

  /** Every packet in flight in any run is accepted by the other end, which has the same limit, and taken for what it is. */
  lemma PacketsArrive(hostMax: nat, deviceMax: nat, turns: seq<Turn>, p: Packet, rest: bytes)
    requires 0 < Min(hostMax, deviceMax) <= MAX_PAYLOAD
    requires var w := Run(Start(Min(hostMax, deviceMax)), turns); p in w.xy || p in w.yx
    requires p.src < TWO_32 && (if p.Open? then 0 !in p.dest else p.dst < TWO_32)
    ensures (p.Open? ==> |p.dest| + 1 < TWO_32) && (p.Wrte? ==> |p.data| < TWO_32)
    ensures var a := ToApacket(p);
            Decode(Encode(a) + rest, Min(hostMax, deviceMax)) == Success(a, rest) && OfApacket(a) == Some(p)
  {
    var limit := Min(hostMax, deviceMax);
    if p.Wrte? { WritesFit(limit, turns, p); }
    if p.Open? { StreamOpens.OpensFit(limit, turns, p); }
    DecodeEncode(ToApacket(p), rest, limit);
    ReadAsSent(p);
  }

  /** Every WRITE in flight in any run is accepted by the other end, which has the same limit. */
  lemma WritesAccepted(hostMax: nat, deviceMax: nat, turns: seq<Turn>, p: Packet, rest: bytes)
    requires Min(hostMax, deviceMax) <= MAX_PAYLOAD
    requires var w := Run(Start(Min(hostMax, deviceMax)), turns); p in w.xy || p in w.yx
    requires p.Wrte? && p.src < TWO_32 && p.dst < TWO_32
    ensures |p.data| < TWO_32
    ensures Decode(Encode(ToApacket(p)) + rest, Min(hostMax, deviceMax)) == Success(ToApacket(p), rest)
  {
    WritesFit(Min(hostMax, deviceMax), turns, p);
    DecodeEncode(ToApacket(p), rest, Min(hostMax, deviceMax));
  }
}
