/**
 The shell protocol of core/adb/shell_service_protocol.cpp: packets with a one-byte id and a
 32-bit length, read into a buffer that may be smaller than a packet.
 */
module Shell {
  import opened Base
  import opened Descriptors
  import opened AdbIo

  const ID_STDIN: byte := 0
  const ID_CLOSE_STDIN: byte := 4
  const ID_INVALID: byte := 255

  const HEADER := 5

  datatype Packet = Packet(id: byte, data: bytes)

  predicate Fits(p: Packet)
  {
    |p.data| < TWO_32
  }

  function Encode(p: Packet): bytes
    requires Fits(p)
  {
    [p.id] + LE32(|p.data|) + p.data
  }

  /** On the wire: the id, four bytes of length, the lowest first, then the data. */
  lemma EncodeLayout(p: Packet)
    requires Fits(p)
    ensures var s := Encode(p);
            && |s| == HEADER + |p.data| && s[0] == p.id && s[HEADER..] == p.data
            && s[1] as int + 0x100 * (s[2] as int + 0x100 * (s[3] as int + 0x100 * s[4] as int)) == |p.data|
  {
    var s := Encode(p);
    LE32RoundTrip(|p.data|);
    assert s[1..HEADER] == LE32(|p.data|);
    assert s[1] == LE32(|p.data|)[0] && s[2] == LE32(|p.data|)[1] && s[3] == LE32(|p.data|)[2] && s[4] == LE32(|p.data|)[3];
  }

  function EncodeAll(packets: seq<Packet>): bytes
    requires forall i :: 0 <= i < |packets| ==> Fits(packets[i])
  {
    if packets == [] then [] else Encode(packets[0]) + EncodeAll(packets[1..])
  }

  // ----- reading -----

  datatype Read = End | Chunk(id: byte, data: bytes, left: nat, rest: bytes)

  /** One call of `ShellProtocol::Read`: a header if the last packet is finished, then as much data as fits. */
  function ReadChunk(id: byte, left: nat, s: bytes, capacity: nat): Read
  {
    if left == 0 && |s| < HEADER then End
    else
      var id1 := if left == 0 then s[0] else id;
      var len: nat := if left == 0 then FromLE32(s[1..HEADER]) else left;
      var s1 := if left == 0 then s[HEADER..] else s;
      var n := Min(len, capacity);
      if |s1| < n then End else Chunk(id1, s1[..n], len - n, s1[n..])
  }

  /** Everything a reader with this capacity gets out of the stream. */
  function ReadAll(id: byte, left: nat, s: bytes, capacity: nat): seq<Packet>
    requires capacity > 0
    decreases |s|
  {
    match ReadChunk(id, left, s, capacity)
    case End => []
    case Chunk(id1, data, left1, rest) => [Packet(id1, data)] + ReadAll(id1, left1, rest, capacity)
  }

  /** Data cut to the capacity; no data is one empty piece. */
  function Cut(data: bytes, capacity: nat): seq<bytes>
    requires capacity > 0
  {
    if |data| <= capacity then [data] else [data[..capacity]] + Cut(data[capacity..], capacity)
  }

  function Tagged(id: byte, pieces: seq<bytes>): (r: seq<Packet>)
    ensures |r| == |pieces|
  {
    seq(|pieces|, i requires 0 <= i < |pieces| => Packet(id, pieces[i]))
  }

  function Pieces(packets: seq<Packet>, capacity: nat): seq<Packet>
    requires capacity > 0
  {
    if packets == [] then [] else Tagged(packets[0].id, Cut(packets[0].data, capacity)) + Pieces(packets[1..], capacity)
  }

  /** The pieces of a packet put together are its payload. */
  lemma {:induction false} CutRestores(data: bytes, capacity: nat)
    requires capacity > 0
    ensures Flat(Cut(data, capacity)) == data
  {
    if |data| <= capacity {
      assert Flat([data]) == data + Flat([]) == data;
    } else {
      CutRestores(data[capacity..], capacity);
      assert Flat(Cut(data, capacity)) == data[..capacity] + data[capacity..];
    }
  }

  lemma ReadInside(id: byte, data: bytes, after: bytes, capacity: nat)
    requires data != [] && capacity > 0
    ensures var n := Min(|data|, capacity);
            ReadAll(id, |data|, data + after, capacity)
            == [Packet(id, data[..n])] + ReadAll(id, |data| - n, data[n..] + after, capacity)
  {
    var n := Min(|data|, capacity);
    assert ReadChunk(id, |data|, data + after, capacity) == Chunk(id, data[..n], |data| - n, data[n..] + after);
  }

  lemma TaggedCons(id: byte, piece: bytes, pieces: seq<bytes>)
    ensures Tagged(id, [piece] + pieces) == [Packet(id, piece)] + Tagged(id, pieces)
  {
  }

  /** After its first piece, the rest of a packet is delivered piece by piece. */
  lemma {:induction false} ReadRest(id: byte, data: bytes, after: bytes, capacity: nat)
    requires capacity > 0
    ensures var n := Min(|data|, capacity);
            [Packet(id, data[..n])] + ReadAll(id, |data| - n, data[n..] + after, capacity)
            == Tagged(id, Cut(data, capacity)) + ReadAll(id, 0, after, capacity)
    decreases |data|
  {
    var n := Min(|data|, capacity);
    var rest := data[n..];
    if |data| <= capacity {
      assert rest + after == after && data[..n] == data;
      TaggedCons(id, data, []);
      assert [data] + [] == [data] && Tagged(id, []) == [];
    } else {
      var first, tail := [Packet(id, data[..n])], ReadAll(id, 0, after, capacity);
      calc {
        first + ReadAll(id, |rest|, rest + after, capacity);
      ==  { ReadInside(id, rest, after, capacity); ReadRest(id, rest, after, capacity); }
        first + (Tagged(id, Cut(rest, capacity)) + tail);
      ==
        first + Tagged(id, Cut(rest, capacity)) + tail;
      ==  { TaggedCons(id, data[..n], Cut(rest, capacity)); }
        Tagged(id, Cut(data, capacity)) + tail;
      }
    }
  }

  lemma ReadHeader(prev: byte, p: Packet, after: bytes, capacity: nat)
    requires Fits(p) && capacity > 0
    ensures var n := Min(|p.data|, capacity);
            ReadAll(prev, 0, Encode(p) + after, capacity) == [Packet(p.id, p.data[..n])] + ReadAll(p.id, |p.data| - n, p.data[n..] + after, capacity)
  {
    var s, n := Encode(p) + after, Min(|p.data|, capacity);
    LE32RoundTrip(|p.data|);
    assert s[1..HEADER] == LE32(|p.data|) && s[HEADER..] == p.data + after;
    assert ReadChunk(prev, 0, s, capacity) == Chunk(p.id, p.data[..n], |p.data| - n, p.data[n..] + after);
  }

  lemma ReadPacket(prev: byte, p: Packet, after: bytes, capacity: nat)
    requires Fits(p) && capacity > 0
    ensures ReadAll(prev, 0, Encode(p) + after, capacity) == Tagged(p.id, Cut(p.data, capacity)) + ReadAll(p.id, 0, after, capacity)
  {
    ReadHeader(prev, p, after, capacity);
    ReadRest(p.id, p.data, after, capacity);
  }

  /** For any packets and any capacity, the reads of each packet are its pieces, in order, under its id. */
  lemma {:induction false} ReadsArePieces(prev: byte, packets: seq<Packet>, capacity: nat)
    requires capacity > 0 && forall i :: 0 <= i < |packets| ==> Fits(packets[i])
    ensures ReadAll(prev, 0, EncodeAll(packets), capacity) == Pieces(packets, capacity)
    decreases |packets|
  {
    if packets != [] {
      ReadPacket(prev, packets[0], EncodeAll(packets[1..]), capacity);
      ReadsArePieces(packets[0].id, packets[1..], capacity);
    }
  }

  // ----- the standard input among them -----

  /** The stdin payload of a sequence of packets, or of pieces. */
  function StdinOf(packets: seq<Packet>): bytes
  {
    if packets == [] then [] else (if packets[0].id == ID_STDIN then packets[0].data else []) + StdinOf(packets[1..])
  }

  lemma {:induction false} StdinAppend(a: seq<Packet>, b: seq<Packet>)
    ensures StdinOf(a + b) == StdinOf(a) + StdinOf(b)
  {
    if a == [] {
      assert a + b == b;
    } else {
      assert (a + b)[1..] == a[1..] + b;
      StdinAppend(a[1..], b);
    }
  }

  lemma {:induction false} StdinTagged(id: byte, pieces: seq<bytes>)
    ensures StdinOf(Tagged(id, pieces)) == if id == ID_STDIN then Flat(pieces) else []
  {
    if pieces != [] {
      assert Tagged(id, pieces)[1..] == Tagged(id, pieces[1..]);
      StdinTagged(id, pieces[1..]);
    }
  }

  /** Cutting does not change the stdin payload. */
  lemma {:induction false} StdinPieces(packets: seq<Packet>, capacity: nat)
    requires capacity > 0
    ensures StdinOf(Pieces(packets, capacity)) == StdinOf(packets)
  {
    if packets != [] {
      var pieces := Cut(packets[0].data, capacity);
      StdinAppend(Tagged(packets[0].id, pieces), Pieces(packets[1..], capacity));
      StdinTagged(packets[0].id, pieces);
      CutRestores(packets[0].data, capacity);
      StdinPieces(packets[1..], capacity);
    }
  }

  // ----- the class -----

  /** `data` is the part of buffer_ that was read last. */
  class ShellProtocol {
    const source: Source
    const capacity: nat
    var id: byte
    var data: bytes
    var bytesLeft: nat

    constructor (source: Source, capacity: nat)
      ensures this.source == source && this.capacity == capacity && id == ID_INVALID && bytesLeft == 0 && data == []
    {
      this.source, this.capacity := source, capacity;
      id, data, bytesLeft := ID_INVALID, [], 0;
    }

    method Read() returns (ok: bool)
      modifies this, source
      ensures match ReadChunk(old(id), old(bytesLeft), old(source.rest), capacity)
              case End => !ok
              case Chunk(id1, data1, left1, rest) =>
                ok && id == id1 && data == data1 && bytesLeft == left1 && source.rest == rest
    {
      var head;
      if bytesLeft == 0 {
        ok, head := source.ReadFdExactly(HEADER);
        if !ok { return; }
        id := head[0];
        bytesLeft := FromLE32(head[1..HEADER]);
        assert head[1..HEADER] == old(source.rest)[1..HEADER];
        data := [];
      }
      var n := Min(bytesLeft, capacity);
      var d := [];
      if n != 0 {
        ok, d := source.ReadFdExactly(n);
        if !ok { return; }
      }
      bytesLeft, data := bytesLeft - n, d;
      ok := true;
    }

    /** `ShellProtocol::Write`. */
    static method Write(p: Packet, sink: Sink) returns (ok: bool)
      requires Fits(p)
      modifies sink
      ensures ok ==> sink.written == old(sink.written) + Encode(p)
      ensures Broken !in old(sink.script) ==> ok
    {
      ok := sink.WriteFdExactly([p.id] + LE32(|p.data|) + p.data);
    }
  }
}
