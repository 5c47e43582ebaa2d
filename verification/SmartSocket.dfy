/**
 The smart-socket stage of core/adb/sockets.cpp: a client first sends one request, a
 four-digit hexadecimal length followed by that many bytes (core/adb/adb_io.cpp,
 SendProtocolString), cut into packets in any way.
 */
module SmartSocket {
  import opened Base

  const BAD_HEX: uint32 := 0xffff_ffff

  function HexValue(c: byte): (v: Option<nat>)
    ensures v.Some? ==> v.value < 16
  {
    if 48 <= c <= 57 then Some(c - 48)
    else if 97 <= c <= 102 then Some(c - 87)
    else if 65 <= c <= 70 then Some(c - 55)
    else None
  }

  /** "0123456789abcdef" and "0123456789ABCDEF". */
  const LOWER: bytes := [48, 49, 50, 51, 52, 53, 54, 55, 56, 57, 97, 98, 99, 100, 101, 102]
  const UPPER: bytes := [48, 49, 50, 51, 52, 53, 54, 55, 56, 57, 65, 66, 67, 68, 69, 70]

  /** The digits, of either case, */
  lemma DigitsRead(v: nat)
    requires v < 16
    ensures HexValue(LOWER[v]) == Some(v) && HexValue(UPPER[v]) == Some(v)
  {
  }

  /** and nothing else. */
  lemma OnlyDigitsRead(c: byte)
    requires HexValue(c).Some?
    ensures LOWER[HexValue(c).value] == c || UPPER[HexValue(c).value] == c
  {
  }

  /** `unhex` from a running value; the shift drops what leaves 32 bits. */
  function UnhexFrom(s: bytes, n: uint32): uint32
  {
    if s == [] then n
    else
      match HexValue(s[0])
      case None => BAD_HEX
      case Some(c) => UnhexFrom(s[1..], n * 16 % TWO_32 + c)
  }

  method Unhex(s: bytes) returns (n: uint32)
    ensures n == UnhexFrom(s, 0)
  {
    n := 0;
    var i := 0;
    while i < |s|
      invariant 0 <= i <= |s|
      invariant UnhexFrom(s, 0) == UnhexFrom(s[i..], n)
    {
      var c := HexValue(s[i]);
      assert s[i..][1..] == s[i+1..];
      if c.None? { return BAD_HEX; }
      n := n * 16 % TWO_32 + c.value;
      i := i + 1;
    }
    assert s[i..] == [];
  }

  /** One character that is no digit spoils the number. */
  lemma {:induction false} UnhexSpoiled(s: bytes, n: uint32, i: nat)
    requires i < |s| && HexValue(s[i]).None?
    ensures UnhexFrom(s, n) == 0xffff_ffff
  {
    if i > 0 && HexValue(s[0]).Some? { UnhexSpoiled(s[1..], n * 16 % TWO_32 + HexValue(s[0]).value, i - 1); }
  }

  // ----- printf("%x") -----

  function HexDigit(v: nat): (c: byte)
    requires v < 16
    ensures HexValue(c) == Some(v) && c == LOWER[v]
  {
    if v < 10 then 48 + v else 87 + v
  }

  /** Exactly `w` hexadecimal digits of `n`, most significant first. */
  function HexDigits(n: nat, w: nat): (s: bytes)
    ensures |s| == w
  {
    if w == 0 then [] else HexDigits(n / 16, w - 1) + [HexDigit(n % 16)]
  }

  function HexWidth(n: nat): (w: nat)
    ensures w >= 1
  {
    if n < 16 then 1 else 1 + HexWidth(n / 16)
  }

  /** `%04x`: at least four digits, more when the value needs them. */
  function Hex4(n: nat): bytes
  {
    HexDigits(n, if HexWidth(n) < 4 then 4 else HexWidth(n))
  }

  function Pow16(w: nat): (p: nat)
    ensures p >= 1
  {
    if w == 0 then 1 else 16 * Pow16(w - 1)
  }

  lemma {:induction false} HexWidthBound(n: nat, w: nat)
    requires w >= 1
    ensures HexWidth(n) <= w <==> n < Pow16(w)
    ensures Pow16(4) == 0x1_0000 && Pow16(5) == 0x10_0000
  {
    assert Pow16(1) == 16;
    assert Pow16(2) == 256;
    assert Pow16(3) == 4096;
    if n >= 16 {
      if w == 1 {
      } else {
        HexWidthBound(n / 16, w - 1);
      }
    }
  }

  lemma {:induction false} UnhexAppend(s: bytes, c: byte, n: uint32)
    requires forall d :: d in s ==> HexValue(d).Some?
    requires HexValue(c).Some?
    ensures UnhexFrom(s + [c], n) == UnhexFrom(s, n) * 16 % TWO_32 + HexValue(c).value
  {
    if s == [] {
      assert (s + [c])[1..] == [];
    } else {
      assert (s + [c])[1..] == s[1..] + [c];
      UnhexAppend(s[1..], c, n * 16 % TWO_32 + HexValue(s[0]).value);
    }
  }

  /** Reading back `w` digits recovers the value whenever it fits in them and in 32 bits. */
  lemma {:induction false} UnhexInvertsHexDigits(n: nat, w: nat)
    requires n < Pow16(w)
    requires n < TWO_32
    ensures UnhexFrom(HexDigits(n, w), 0) == n
    ensures forall d :: d in HexDigits(n, w) ==> HexValue(d).Some?
  {
    if w == 0 {
    } else {
      UnhexInvertsHexDigits(n / 16, w - 1);
      UnhexAppend(HexDigits(n / 16, w - 1), HexDigit(n % 16), 0);
    }
  }

  // ----- the request decoder -----

  /** A byte string up to its first NUL, as C reads it. */
  function CString(s: bytes): (t: bytes)
    ensures t <= s
    ensures 0 !in s ==> t == s
  {
    if s == [] || s[0] == 0 then [] else [s[0]] + CString(s[1..])
  }

  lemma {:induction false} CStringHasNoNul(s: bytes)
    ensures 0 !in CString(s)
  {
    if s != [] { CStringHasNoNul(s[1..]); }
  }

  datatype Verdict = Wait(buffer: bytes) | Request(service: bytes) | Reject

  /** `smart_socket_enqueue` up to the decoded request: what one more packet does. */
  function Feed(buffer: bytes, data: bytes, limit: nat): Verdict
  {
    if buffer != [] && |buffer| + |data| > limit then Reject
    else
      var b := buffer + data;
      if |b| < 4 then Wait(b)
      else
        var len := UnhexFrom(b[..4], 0);
        if len < 1 || len > MAX_PAYLOAD then Reject
        else if len + 4 > |b| then Wait(b)
        else Request(CString(b[4..4 + len]))
  }

  /** A length that is not four hex digits is rejected as soon as it is in. */
  lemma BadLengthRejected(buffer: bytes, data: bytes, limit: nat, i: nat)
    requires |buffer + data| >= 4 && i < 4 && HexValue((buffer + data)[i]).None?
    ensures Feed(buffer, data, limit) == Reject
  {
    UnhexSpoiled((buffer + data)[..4], 0, i);
  }

  /** Feeding packets one after another, stopping at the first verdict that is not `Wait`. */
  function FeedAll(buffer: bytes, packets: seq<bytes>, limit: nat): (r: (Verdict, nat))
    ensures r.1 <= |packets|
    decreases |packets|
  {
    if packets == [] then (Wait(buffer), 0)
    else
      var v := Feed(buffer, packets[0], limit);
      if v.Wait? then
        var r := FeedAll(v.buffer, packets[1..], limit);
        (r.0, r.1 + 1)
      else (v, 1)
  }

  /** What `SendProtocolString` writes. */
  function Encode(s: bytes): bytes
  {
    Hex4(|s|) + s
  }

  /** A string whose length is 1 to 0xffff: the length field is exactly four digits. */
  lemma EncodeHeader(s: bytes)
    requires |s| <= 0xffff
    ensures |Encode(s)| == |s| + 4
    ensures UnhexFrom(Encode(s)[..4], 0) == |s|
    ensures Encode(s)[4..] == s
  {
    HexWidthBound(|s|, 4);
    UnhexInvertsHexDigits(|s|, 4);
    assert Encode(s)[..4] == HexDigits(|s|, 4);
  }

  /** A request as it travels: four digits, then as many bytes as they say. */
  predicate Framed(whole: bytes)
  {
    5 <= |whole| <= 0x1_0003 && UnhexFrom(whole[..4], 0) == |whole| - 4
  }

  lemma EncodeFramed(s: bytes)
    requires 1 <= |s| <= 0xffff
    ensures Framed(Encode(s)) && |Encode(s)| == |s| + 4 && Encode(s)[4..] == s
  {
    EncodeHeader(s);
  }

  /**
   One packet of a request in flight: the decoder waits while the request is incomplete and
   answers with the request itself on the packet that carries its last byte.
   */
  lemma FeedPart(whole: bytes, buffer: bytes, data: bytes, limit: nat)
    requires Framed(whole) && |whole| <= limit && buffer + data < whole
    ensures Feed(buffer, data, limit) == Wait(buffer + data)
  {
    var b := buffer + data;
    if |b| >= 4 { assert b[..4] == whole[..4]; }
  }

  lemma FeedWhole(buffer: bytes, data: bytes, limit: nat, b: bytes)
    requires b == buffer + data && 5 <= |b| <= limit && UnhexFrom(b[..4], 0) == |b| - 4 <= 0xffff
    ensures Feed(buffer, data, limit) == Request(CString(b[4..]))
  {
    assert b[4..4 + (|b| - 4)] == b[4..];
  }

  lemma FeedLast(whole: bytes, buffer: bytes, data: bytes, limit: nat)
    requires Framed(whole) && |whole| <= limit && buffer + data == whole
    ensures Feed(buffer, data, limit) == Request(CString(whole[4..]))
  {
    FeedWhole(buffer, data, limit, whole);
  }

  lemma {:induction false} FeedFrom(whole: bytes, buffer: bytes, packets: seq<bytes>, limit: nat)
    requires Framed(whole) && |whole| <= limit
    requires buffer + Flat(packets) == whole && buffer < whole && NoneEmpty(packets)
    ensures FeedAll(buffer, packets, limit) == (Request(CString(whole[4..])), |packets|)
    decreases |packets|
  {
    var p := packets[0];
    var rest := packets[1..];
    assert buffer + p + Flat(rest) == whole;
    if rest == [] {
      assert buffer + p == whole;
      FeedLast(whole, buffer, p, limit);
    } else {
      assert Flat(rest) != [];
      FeedPart(whole, buffer, p, limit);
      FeedFrom(whole, buffer + p, packets[1..], limit);
    }
  }

  /**
   However the request is cut into packets, the smart socket decodes exactly the string that
   was sent, up to a NUL if it has one, exactly once, on the packet carrying its last byte.
   */
  lemma RequestDecodedOnce(s: bytes, packets: seq<bytes>, limit: nat)
    requires 1 <= |s| <= 0xffff && |s| + 4 <= limit
    requires Flat(packets) == Encode(s)
    requires NoneEmpty(packets)
    ensures FeedAll([], packets, limit) == (Request(CString(s)), |packets|)
  {
    EncodeFramed(s);
    FeedFrom(Encode(s), [], packets, limit);
  }

  /** What the decoder answers never exceeds the length its first four bytes announce. */
  lemma {:induction false} FeedAllBounded(buffer: bytes, packets: seq<bytes>, limit: nat, whole: bytes)
    requires buffer + Flat(packets) == whole
    requires |whole| >= 4
    ensures FeedAll(buffer, packets, limit).0.Request? ==>
            1 <= UnhexFrom(whole[..4], 0) && |FeedAll(buffer, packets, limit).0.service| <= UnhexFrom(whole[..4], 0)
    decreases |packets|
  {
    if packets != [] {
      var p := packets[0];
      assert buffer + p + Flat(packets[1..]) == whole;
      var v := Feed(buffer, p, limit);
      if v.Wait? {
        FeedAllBounded(buffer + p, packets[1..], limit, whole);
      } else if v.Request? {
        assert (buffer + p)[..4] == whole[..4];
      }
    }
  }

  /** A length above 0xffff prints as five digits, and the first four announce a sixteenth of it. */
  lemma LongHeader(s: bytes)
    requires 0xffff < |s| <= MAX_PAYLOAD - 4
    ensures |Encode(s)| >= 4 && UnhexFrom(Encode(s)[..4], 0) < |s|
  {
    HexWidthBound(|s|, 4);
    HexWidthBound(|s|, 5);
    assert Encode(s)[..4] == HexDigits(|s| / 16, 4);
    UnhexInvertsHexDigits(|s| / 16, 4);
  }

  /** No packet is longer than one read may be. */
  predicate Within(packets: seq<bytes>, limit: nat)
  {
    forall i :: 0 <= i < |packets| ==> |packets[i]| <= limit
  }

  /** One packet of a request that does not fit: the decoder waits until the limit is passed. */
  lemma FeedOversized(whole: bytes, buffer: bytes, data: bytes, limit: nat)
    requires Framed(whole) && limit < |whole|
    requires |data| <= limit && buffer + data <= whole
    ensures Feed(buffer, data, limit) == if |buffer| + |data| > limit then Reject else Wait(buffer + data)
  {
    var b := buffer + data;
    if 4 <= |b| <= limit { assert b[..4] == whole[..4]; }
  }

  lemma {:induction false} OversizedFrom(whole: bytes, buffer: bytes, packets: seq<bytes>, limit: nat)
    requires Framed(whole) && limit < |whole|
    requires |buffer| <= limit && buffer + Flat(packets) == whole && Within(packets, limit)
    ensures FeedAll(buffer, packets, limit).0 == Reject
    decreases |packets|
  {
    if packets != [] {
      var p := packets[0];
      assert buffer + p + Flat(packets[1..]) == whole;
      FeedOversized(whole, buffer, p, limit);
      if |buffer| + |p| <= limit { OversizedFrom(whole, buffer + p, packets[1..], limit); }
    }
  }

  /**
   The exact domain of the framing. `limit` is what get_max_payload gives the smart socket, which
   is also the most one read returns: MAX_PAYLOAD, or less once host:transport has bound it to a
   transport. `SendProtocolString` accepts up to MAX_PAYLOAD - 4 bytes, but a length above 0xffff
   prints as five digits, an empty string announces length 0, a request that takes more than
   `limit` bytes overflows, and a NUL ends the string, so the request is recovered exactly when it
   has 1 to 0xffff bytes, fits the limit with its header, and is free of NULs.
   */
  lemma RequestDecodedExactlyWhen(s: bytes, packets: seq<bytes>, limit: nat)
    requires |s| <= MAX_PAYLOAD - 4
    requires Flat(packets) == Encode(s)
    requires NoneEmpty(packets) && Within(packets, limit)
    ensures FeedAll([], packets, limit).0 == Request(s) <==> 1 <= |s| <= 0xffff && |s| + 4 <= limit && 0 !in s
    ensures 1 <= |s| <= 0xffff && |s| + 4 > limit ==> FeedAll([], packets, limit).0 == Reject
  {
    if 1 <= |s| <= 0xffff {
      EncodeFramed(s);
      CStringHasNoNul(s);
      if |s| + 4 <= limit { RequestDecodedOnce(s, packets, limit); } else { OversizedFrom(Encode(s), [], packets, limit); }
    } else {
      if s == [] {
        EncodeHeader(s);
      } else {
        LongHeader(s);
      }
      FeedAllBounded([], packets, limit, Encode(s));
    }
  }

  /** The payload maximum of protocol version 1, which old devices announce. */
  const MAX_PAYLOAD_V1 := 4096

  /** A request the sender accepts is lost on a smart socket bound to an old device: 5000 bytes, read as 4096 and 908. */
  lemma OldDeviceRejects(s: bytes)
    requires |s| == 5000 && 0 !in s
    ensures |Encode(s)| == 5004
    ensures FeedAll([], [Encode(s)[..4096], Encode(s)[4096..]], MAX_PAYLOAD_V1).0 == Reject
    ensures FeedAll([], [Encode(s)[..4096], Encode(s)[4096..]], MAX_PAYLOAD).0 == Request(s)
  {
    EncodeHeader(s);
    var p, q := Encode(s)[..4096], Encode(s)[4096..];
    assert [p, q][1..] == [q];
    assert Flat([q]) == q + Flat([]) == q;
    assert Flat([p, q]) == p + q == Encode(s);
    RequestDecodedExactlyWhen(s, [p, q], MAX_PAYLOAD_V1);
    RequestDecodedExactlyWhen(s, [p, q], MAX_PAYLOAD);
  }
}
