/**
 The streaming UTF-8 splitter of core/adb/sysdeps_win32.cpp: console output is cut into writes
 anywhere, and an incomplete sequence at the end of one is held back for the next. Validity is
 that of section 4 of RFC 3629.
 */
module Utf8 {
  import opened Base

  type Text = bytes

  // ----- bits -----

  function LenBits(ch: bv8): bv32
  {
    ((0xe500_0000 as bv32) >> (((ch as bv32) >> 3) & 0x1e)) & 3
  }

  /** `utf8_codepoint_len`. */
  function CodepointLen(ch: byte): (n: nat)
    ensures 1 <= n <= 4
  {
    var x := LenBits(ch as bv8);
    assert x == 0 || x == 1 || x == 2 || x == 3;
    x as int + 1
  }

  lemma LenBitsTable(b: bv8)
    ensures 0xc0 <= b < 0xe0 ==> LenBits(b) == 1
    ensures 0xe0 <= b < 0xf0 ==> LenBits(b) == 2
    ensures 0xf0 <= b ==> LenBits(b) == 3
    ensures (0xc0 <= b as int <==> 0xc0 <= b) && (0xe0 <= b as int <==> 0xe0 <= b) && (0xf0 <= b as int <==> 0xf0 <= b)
  {
  }

  lemma CodepointLenTable(ch: byte)
    ensures 0xc0 <= ch < 0xe0 ==> CodepointLen(ch) == 2
    ensures 0xe0 <= ch < 0xf0 ==> CodepointLen(ch) == 3
    ensures 0xf0 <= ch ==> CodepointLen(ch) == 4
  {
    LenBitsTable(ch as bv8);
  }

  /** The high bit is not set. */
  predicate Ascii(ch: byte)
  {
    ch < 0x80
  }

  /** The two highest bits are set. */
  predicate Lead(ch: byte)
  {
    ch >= 0xc0
  }

  predicate Trailing(ch: byte)
  {
    !Ascii(ch) && !Lead(ch)
  }

  // ----- RFC 3629 -----

  predicate Tail(ch: byte)
  {
    0x80 <= ch <= 0xbf
  }

  /** The length of the UTF8-char at the start of `s`, 0 if there is none. */
  function CharAt(s: Text): (n: nat)
    ensures n <= 4 && n <= |s|
  {
    if |s| >= 1 && s[0] <= 0x7f then 1
    else if |s| >= 2 && 0xc2 <= s[0] <= 0xdf && Tail(s[1]) then 2
    else if |s| >= 3 && Tail(s[2]) &&
            ((s[0] == 0xe0 && 0xa0 <= s[1] <= 0xbf) || (0xe1 <= s[0] <= 0xec && Tail(s[1])) ||
             (s[0] == 0xed && 0x80 <= s[1] <= 0x9f) || (0xee <= s[0] <= 0xef && Tail(s[1]))) then 3
    else if |s| >= 4 && Tail(s[2]) && Tail(s[3]) &&
            ((s[0] == 0xf0 && 0x90 <= s[1] <= 0xbf) || (0xf1 <= s[0] <= 0xf3 && Tail(s[1])) ||
             (s[0] == 0xf4 && 0x80 <= s[1] <= 0x8f)) then 4
    else 0
  }

  predicate Valid(s: Text)
  {
    s == [] || (CharAt(s) > 0 && Valid(s[CharAt(s)..]))
  }

  // ----- the splitter -----

  /** The position of the last byte of `s[..end]` that is not a trailing byte, -1 if there is none. */
  function LastLead(s: Text, end: nat): (i: int)
    requires end <= |s|
    ensures -1 <= i < end && (i >= 0 ==> !Trailing(s[i]))
    ensures forall j :: i < j < end ==> Trailing(s[j])
  {
    if end == 0 then -1 else if !Trailing(s[end - 1]) then end - 1 else LastLead(s, end - 1)
  }

  /** How many bytes of `s` are written out; the rest is held back. */
  function Split(s: Text): (k: nat)
    ensures k <= |s| <= k + 3
  {
    var i := LastLead(s, |s|);
    if i >= 0 && Lead(s[i]) && |s| - i < CodepointLen(s[i]) then i else |s|
  }

  /** `ParseCompleteUTF8`: the backward walk. */
  method ParseCompleteUTF8(s: Text) returns (size: nat, remaining: Text)
    ensures size == Split(s) && remaining == s[size..]
  {
    var after := |s|;
    while after != 0
      invariant 0 <= after <= |s| && LastLead(s, |s|) == LastLead(s, after)
    {
      var current := after - 1;
      var ch := s[current];
      if ch < 0x80 {
        break;
      } else if ch >= 0xc0 {
        var available := |s| - current;
        if available < CodepointLen(ch) {
          return current, s[current..];
        } else {
          break;
        }
      }
      after := after - 1;
    }
    return |s|, [];
  }

  /** `_console_write_utf8` up to the conversion: what is written, and the buffer it leaves. */
  class Console {
    var buffer: Text

    constructor ()
      ensures buffer == []
    {
      buffer := [];
    }

    method Write(buf: Text) returns (utf8: Text)
      modifies this
      ensures var all := old(buffer) + buf; utf8 == all[..Split(all)] && buffer == all[Split(all)..]
    {
      var combined := buf;
      if buffer != [] {
        combined := buffer + buf;
      } else {
        assert buffer + buf == buf;
      }
      var size, remaining := ParseCompleteUTF8(combined);
      buffer := remaining;
      utf8 := combined[..size];
    }
  }

  datatype Output = Output(written: seq<Text>, buffer: Text)

  /** A stream of writes. */
  function WriteAll(buffer: Text, chunks: seq<Text>): Output
    decreases |chunks|
  {
    if chunks == [] then Output([], buffer)
    else
      var all := buffer + chunks[0];
      var rest := WriteAll(all[Split(all)..], chunks[1..]);
      Output([all[..Split(all)]] + rest.written, rest.buffer)
  }

  function Joined(chunks: seq<Text>): Text
  {
    if chunks == [] then [] else chunks[0] + Joined(chunks[1..])
  }

  lemma Assoc(a: Text, b: Text, c: Text)
    ensures a + b + c == a + (b + c)
  {
  }

  /** No byte is lost, repeated or moved, and at most three are held back, whatever the bytes and the cuts. */
  lemma {:induction false} NothingLost(buffer: Text, chunks: seq<Text>)
    requires |buffer| <= 3
    ensures var o := WriteAll(buffer, chunks); Joined(o.written) + o.buffer == buffer + Joined(chunks) && |o.buffer| <= 3
    decreases |chunks|
  {
    if chunks != [] {
      var all := buffer + chunks[0];
      var first, held, later := all[..Split(all)], all[Split(all)..], Joined(chunks[1..]);
      var rest := WriteAll(held, chunks[1..]);
      var o := WriteAll(buffer, chunks);
      assert o.written[0] == first && o.written[1..] == rest.written;
      calc {
        Joined(o.written) + o.buffer;
      ==  { Assoc(first, Joined(rest.written), rest.buffer); }
        first + (Joined(rest.written) + rest.buffer);
      ==  { NothingLost(held, chunks[1..]); }
        first + (held + later);
      ==  { Assoc(first, held, later); }
        first + held + later;
      ==  { assert first + held == all; }
        all + later;
      ==  { Assoc(buffer, chunks[0], later); }
        buffer + Joined(chunks);
      }
      NothingLost(held, chunks[1..]);
    }
  }

  // ----- valid input -----

  /** A UTF8-char is a lead byte that tells its length, then trailing bytes. */
  lemma CharShape(s: Text)
    requires CharAt(s) > 0
    ensures var n := CharAt(s);
            && !Trailing(s[0]) && (n == 1 <==> Ascii(s[0])) && (n > 1 ==> CodepointLen(s[0]) == n)
            && forall j :: 1 <= j < n ==> Trailing(s[j])
  {
    CodepointLenTable(s[0]);
  }

  /** Only the bytes of the char matter. */
  lemma CharPrefix(s: Text, t: Text)
    requires CharAt(s + t) <= |s|
    ensures CharAt(s) == CharAt(s + t)
  {
  }

  lemma LastLeadAppend(c: Text, s: Text, end: nat)
    requires end <= |s| && LastLead(s, end) >= 0
    ensures LastLead(c + s, |c| + end) == |c| + LastLead(s, end)
  {
    if end > 0 && Trailing(s[end - 1]) { LastLeadAppend(c, s, end - 1); }
  }

  /** Dropping the first complete char does not move the split. */
  lemma SplitAfterChar(c: Text, s: Text)
    requires CharAt(c) == |c| > 0 && s != [] && !Trailing(s[0])
    ensures Split(c + s) == |c| + Split(s)
  {
    assert LastLead(s, |s|) >= 0;
    LastLeadAppend(c, s, |s|);
    assert (c + s)[|c| + LastLead(s, |s|)] == s[LastLead(s, |s|)];
  }

  /** One char, complete or not, is written or held back whole. */
  lemma SplitOneChar(s: Text, t: Text)
    requires s != [] && CharAt(s + t) >= |s|
    ensures Split(s) == if CharAt(s + t) == |s| then |s| else 0
  {
    CharShape(s + t);
    assert forall j :: 0 <= j < |s| ==> (s + t)[j] == s[j];
    assert LastLead(s, |s|) == 0;
  }

  /** Valid text goes on with valid text after its first char. */
  lemma ValidTail(s: Text, t: Text)
    requires Valid(s + t) && s != [] && CharAt(s + t) < |s|
    ensures var n := CharAt(s + t); CharAt(s[..n]) == n > 0 && Valid(s[n..] + t) && !Trailing(s[n])
  {
    var n := CharAt(s + t);
    var rest := s[n..];
    assert (s + t)[n..] == rest + t;
    assert s[..n] + (rest + t) == s + t;
    CharPrefix(s[..n], rest + t);
    CharShape(rest + t);
    assert (rest + t)[0] == rest[0];
  }

  lemma SplitFirstChar(s: Text, n: nat)
    requires n < |s| && CharAt(s[..n]) == n > 0 && !Trailing(s[n])
    ensures Split(s) == n + Split(s[n..])
  {
    SplitAfterChar(s[..n], s[n..]);
    assert s[..n] + s[n..] == s;
  }

  lemma SplitWithinChar(s: Text, t: Text)
    requires s != [] && CharAt(s + t) >= |s|
    ensures Valid(s[..Split(s)])
  {
    SplitOneChar(s, t);
    if CharAt(s + t) == |s| {
      CharPrefix(s, t);
      ValidCons(s, []);
      assert s[..|s|] == s + [];
    } else {
      assert s[..0] == [];
    }
  }

  lemma ValidJoin(s: Text, n: nat, k: nat)
    requires n + k <= |s| && CharAt(s[..n]) == n > 0 && Valid(s[n..n + k])
    ensures Valid(s[..n + k])
  {
    ValidCons(s[..n], s[n..n + k]);
    assert s[..n + k] == s[..n] + s[n..n + k];
  }

  /** A prefix of valid text is split after its last complete char. */
  lemma {:induction false} SplitValid(s: Text, t: Text)
    requires Valid(s + t)
    ensures Valid(s[..Split(s)])
    decreases |s|, 1
  {
    if s != [] {
      if CharAt(s + t) >= |s| { SplitWithinChar(s, t); } else { SplitBeyondChar(s, t); }
    }
  }

  lemma {:induction false} SplitBeyondChar(s: Text, t: Text)
    requires Valid(s + t) && s != [] && CharAt(s + t) < |s|
    ensures Valid(s[..Split(s)])
    decreases |s|, 0
  {
    var n := CharAt(s + t);
    ValidTail(s, t);
    SplitFirstChar(s, n);
    SplitValid(s[n..], t);
    var k := Split(s[n..]);
    Middle(s, n, k);
    ValidJoin(s, n, k);
  }

  lemma ValidCons(c: Text, s: Text)
    requires CharAt(c) == |c| > 0 && Valid(s)
    ensures Valid(c + s)
  {
    assert CharAt(c + s) == CharAt(c);
    assert (c + s)[|c|..] == s;
  }

  /** Valid text minus valid text is valid text. */
  lemma {:induction false} ValidRest(a: Text, x: Text)
    requires Valid(a) && Valid(a + x)
    ensures Valid(x)
    decreases |a|
  {
    if a == [] {
      assert a + x == x;
    } else {
      var n := CharAt(a);
      assert CharAt(a + x) == n;
      assert (a + x)[n..] == a[n..] + x;
      ValidRest(a[n..], x);
    }
  }

  /** What is written is valid, and what is held back still begins valid text. */
  lemma SplitStaysValid(all: Text, later: Text)
    requires Valid(all + later)
    ensures Valid(all[..Split(all)]) && Valid(all[Split(all)..] + later)
  {
    var k := Split(all);
    SplitValid(all, later);
    assert all + later == all[..k] + (all[k..] + later);
    ValidRest(all[..k], all[k..] + later);
  }

  predicate AllValid(pieces: seq<Text>)
  {
    pieces == [] || (Valid(pieces[0]) && AllValid(pieces[1..]))
  }

  lemma AllValidFirst(piece: Text, rest: seq<Text>)
    requires Valid(piece) && AllValid(rest)
    ensures AllValid([piece] + rest)
  {
    assert ([piece] + rest)[1..] == rest;
  }

  lemma JoinedFirst(buffer: Text, chunks: seq<Text>, future: Text)
    requires chunks != []
    ensures buffer + Joined(chunks) + future == buffer + chunks[0] + (Joined(chunks[1..]) + future)
  {
  }

  /** If the whole input is the beginning of valid UTF-8, every piece that is written is itself valid UTF-8. */
  lemma {:induction false} EveryPieceValid(buffer: Text, chunks: seq<Text>, future: Text)
    requires Valid(buffer + Joined(chunks) + future)
    ensures AllValid(WriteAll(buffer, chunks).written)
    decreases |chunks|
  {
    if chunks != [] {
      var all, later := buffer + chunks[0], Joined(chunks[1..]) + future;
      var held := all[Split(all)..];
      JoinedFirst(buffer, chunks, future);
      SplitStaysValid(all, later);
      assert held + later == held + Joined(chunks[1..]) + future;
      EveryPieceValid(held, chunks[1..], future);
      AllValidFirst(all[..Split(all)], WriteAll(held, chunks[1..]).written);
    }
  }
}
