/**
 The file sync protocol: what core/adb/file_sync_client.cpp writes to push and pull a file and
 what core/adb/file_sync_service.cpp makes of it.
 */
module FileSync {
  import opened Base
  import opened SmartSocket

  const ID_LSTAT_V1: uint32 := 0x54415453
  const ID_STAT_V2: uint32 := 0x32415453
  const ID_LSTAT_V2: uint32 := 0x3254534c
  const ID_LIST: uint32 := 0x5453494c
  const ID_SEND: uint32 := 0x444e4553
  const ID_RECV: uint32 := 0x56434552
  const ID_QUIT: uint32 := 0x54495551
  const ID_FAIL: uint32 := 0x4c494146
  const ID_DATA: uint32 := 0x41544144
  const ID_DONE: uint32 := 0x454e4f44

  const SYNC_DATA_MAX := 0x1_0000
  const PATH_MAX := 1024
  const HEAD := 8

  const COMMA: byte := 44

  // ----- numbers in text -----

  function Decimal(n: nat): (s: bytes)
    ensures |s| >= 1 && forall i :: 0 <= i < |s| ==> 48 <= s[i] <= 57
  {
    if n < 10 then [48 + n] else Decimal(n / 10) + [48 + n % 10]
  }

  function DigitValue(c: byte): nat
  {
    if 48 <= c <= 57 then c - 48
    else if 97 <= c <= 102 then c - 87
    else if 65 <= c <= 70 then c - 55
    else 99
  }

  /** The digits of `base` at the start of `s`, after a value so far. */
  function ParseIn(base: nat, s: bytes, value: nat): nat
  {
    if s == [] || DigitValue(s[0]) >= base then value else ParseIn(base, s[1..], value * base + DigitValue(s[0]))
  }

  /** `strtoul` with base 0: a leading 0 means octal, 0x hexadecimal. */
  function Strtoul(s: bytes): nat
  {
    if s != [] && s[0] == 48 then
      if |s| >= 3 && (s[1] == 120 || s[1] == 88) && DigitValue(s[2]) < 16 then ParseIn(16, s[2..], 0)
      else ParseIn(8, s, 0)
    else ParseIn(10, s, 0)
  }

  lemma {:induction false} ParseAppend(a: bytes, b: bytes, value: nat)
    requires forall i :: 0 <= i < |a| ==> 48 <= a[i] <= 57
    ensures ParseIn(10, a + b, value) == ParseIn(10, b, ParseIn(10, a, value))
    decreases |a|
  {
    if a == [] {
      assert a + b == b;
    } else {
      assert (a + b)[1..] == a[1..] + b;
      ParseAppend(a[1..], b, value * 10 + DigitValue(a[0]));
    }
  }

  lemma {:induction false} ParseDecimal(n: nat)
    ensures ParseIn(10, Decimal(n), 0) == n
    ensures n > 0 ==> Decimal(n)[0] != 48
  {
    if n < 10 {
      assert ParseIn(10, [], n) == n;
      assert Decimal(n)[1..] == [];
    } else {
      ParseDecimal(n / 10);
      ParseAppend(Decimal(n / 10), [48 + n % 10], 0);
      assert [48 + n % 10][1..] == [];
      assert ParseIn(10, [], n) == n;
    }
  }

  /** What the client prints with %d, the server reads back. */
  lemma StrtoulDecimal(n: nat)
    ensures Strtoul(Decimal(n)) == n
  {
    ParseDecimal(n);
    if n == 0 {
      assert Decimal(0)[1..] == [];
      assert ParseIn(8, [48], 0) == ParseIn(8, [], 0);
    }
  }

  /** A leading 0 means octal, 0x hexadecimal: "0644", "0x1a4" and "420" are the same mode. */
  lemma StrtoulBases()
    ensures Strtoul([48, 54, 52, 52]) == Strtoul([48, 120, 49, 97, 52]) == Strtoul([52, 50, 48]) == 0x1a4
  {
    assert ParseIn(8, [48, 54, 52, 52], 0) == ParseIn(8, [54, 52, 52], 0) == ParseIn(8, [52, 52], 6) == ParseIn(8, [52], 52) == ParseIn(8, [], 420);
    assert [48, 120, 49, 97, 52][2..] == [49, 97, 52];
    assert ParseIn(16, [49, 97, 52], 0) == ParseIn(16, [97, 52], 1) == ParseIn(16, [52], 26) == ParseIn(16, [], 420);
    assert ParseIn(10, [52, 50, 48], 0) == ParseIn(10, [50, 48], 4) == ParseIn(10, [48], 42) == ParseIn(10, [], 420);
  }

  // ----- what the client writes -----

  /** The bytes on the wire spell the name of the id. */
  lemma IdsSpell()
    ensures FromLE32([83, 69, 78, 68]) == ID_SEND && FromLE32([82, 69, 67, 86]) == ID_RECV && FromLE32([68, 65, 84, 65]) == ID_DATA
    ensures FromLE32([68, 79, 78, 69]) == ID_DONE && FromLE32([70, 65, 73, 76]) == ID_FAIL && FromLE32([81, 85, 73, 84]) == ID_QUIT
    ensures FromLE32([76, 73, 83, 84]) == ID_LIST && FromLE32([83, 84, 65, 84]) == ID_LSTAT_V1
    ensures FromLE32([83, 84, 65, 50]) == ID_STAT_V2 && FromLE32([76, 83, 84, 50]) == ID_LSTAT_V2
  {
  }

  function Head(id: uint32, size: uint32): (s: bytes)
    ensures |s| == HEAD
  {
    LE32(id) + LE32(size)
  }

  /** sync_send's "%s,%d". */
  function Spec(path: bytes, mode: nat): bytes
  {
    path + [COMMA] + Decimal(mode)
  }

  predicate Sendable(path: bytes, mode: nat)
  {
    0 !in path && mode < 0x8000_0000 && |Spec(path, mode)| <= PATH_MAX
  }

  function RequestForm(id: uint32, text: bytes): bytes
    requires |text| <= PATH_MAX
  {
    Head(id, |text|) + text
  }

  predicate Chunks(chunks: seq<bytes>)
  {
    forall i :: 0 <= i < |chunks| ==> |chunks[i]| <= SYNC_DATA_MAX
  }

  /** One ID_DATA message for each chunk. */
  function DataAll(chunks: seq<bytes>): bytes
    requires Chunks(chunks)
  {
    if chunks == [] then [] else Head(ID_DATA, |chunks[0]|) + chunks[0] + DataAll(chunks[1..])
  }

  lemma DataFirst(c: bytes, chunks: seq<bytes>)
    requires |c| <= SYNC_DATA_MAX && Chunks(chunks)
    ensures Chunks([c] + chunks) && DataAll([c] + chunks) == Head(ID_DATA, |c|) + c + DataAll(chunks)
  {
    assert ([c] + chunks)[1..] == chunks;
  }

  /** `SendLargeFile`. */
  function LargeForm(path: bytes, mode: nat, mtime: uint32, chunks: seq<bytes>): bytes
    requires |Spec(path, mode)| <= PATH_MAX && Chunks(chunks)
  {
    RequestForm(ID_SEND, Spec(path, mode)) + DataAll(chunks) + Head(ID_DONE, mtime)
  }

  /** `SendSmallFile`: the same in one buffer, with one ID_DATA message even for an empty file. */
  function SmallForm(path: bytes, mode: nat, mtime: uint32, data: bytes): bytes
    requires |Spec(path, mode)| <= PATH_MAX && |data| <= SYNC_DATA_MAX
  {
    Head(ID_SEND, |Spec(path, mode)|) + Spec(path, mode) + Head(ID_DATA, |data|) + data + Head(ID_DONE, mtime)
  }

  lemma SmallIsOneChunk(path: bytes, mode: nat, mtime: uint32, data: bytes)
    requires |Spec(path, mode)| <= PATH_MAX && |data| <= SYNC_DATA_MAX
    ensures SmallForm(path, mode, mtime, data) == LargeForm(path, mode, mtime, [data])
  {
    var chunks := [data];
    assert chunks[1..] == [] && DataAll(chunks) == Head(ID_DATA, |data|) + data + DataAll([]) == Head(ID_DATA, |data|) + data;
  }

  // ----- what the server does -----

  /** The types of file in a mode. */
  const S_IFDIR: uint32 := 0x4000
  const S_IFREG: uint32 := 0x8000
  const S_IFLNK: uint32 := 0xa000

  /** S_ISLNK. */
  predicate IsLink(mode: uint32)
  {
    mode / 0x1000 % 0x10 == 0xa
  }

  /** Whatever its permissions, a symbolic link is one, and a regular file or a directory is not. */
  lemma LinkModes(permissions: nat)
    requires permissions < 0x1000
    ensures IsLink(S_IFLNK + permissions) && !IsLink(S_IFREG + permissions) && !IsLink(S_IFDIR + permissions)
  {
  }

  /** do_send copies the user's permissions to group and others. */
  function Granted(mode: uint32): uint32
  {
    Spread(mode as bv32) as uint32
  }

  function Spread(mode: bv32): bv32
  {
    var m := mode & 0x1ff;
    var g := m | ((m >> 3) & 0x38);
    g | ((g >> 3) & 0x7)
  }

  /**
   Reading, writing and executing, for user, group and others: the user's permissions stay, the
   group has its own and the user's, others have their own, the group's and the user's; nothing
   else of the mode is left.
   */
  predicate IsSpread(mode: bv32, g: bv32)
  {
    && g < 0x200
    && (g & 0x100 == mode & 0x100) && (g & 0x80 == mode & 0x80) && (g & 0x40 == mode & 0x40)
    && (g & 0x20 != 0 <==> mode & 0x20 != 0 || mode & 0x100 != 0)
    && (g & 0x10 != 0 <==> mode & 0x10 != 0 || mode & 0x80 != 0)
    && (g & 0x08 != 0 <==> mode & 0x08 != 0 || mode & 0x40 != 0)
    && (g & 0x04 != 0 <==> mode & 0x04 != 0 || mode & 0x20 != 0 || mode & 0x100 != 0)
    && (g & 0x02 != 0 <==> mode & 0x02 != 0 || mode & 0x10 != 0 || mode & 0x80 != 0)
    && (g & 0x01 != 0 <==> mode & 0x01 != 0 || mode & 0x08 != 0 || mode & 0x40 != 0)
  }

  lemma SpreadBits(mode: bv32)
    ensures IsSpread(mode, Spread(mode))
  {
  }

  /** The stored mode, bit by bit. */
  lemma GrantedBits(mode: uint32)
    ensures IsSpread(mode as bv32, Granted(mode) as bv32)
  {
    SpreadBits(mode as bv32);
    SameBits(Spread(mode as bv32));
  }

  /** There is only one such mode. */
  lemma SpreadOnce(mode: bv32, g: bv32)
    requires IsSpread(mode, g)
    ensures g == Spread(mode)
  {
  }

  datatype Stored = File(path: bytes, mode: uint32, content: bytes, mtime: uint32) | Link(path: bytes, target: bytes)

  /** What becomes of a request: refused, a file stored, a question about a path, or the end. */
  datatype Outcome = Failed | Received(stored: Stored, rest: bytes) | Asked(id: uint32, path: bytes, rest: bytes) | Quitting

  datatype Collected = Bad | Complete(content: bytes, mtime: uint32, rest: bytes)

  /** The loop of handle_send_file. */
  function Collect(s: bytes, content: bytes): Collected
    decreases |s|
  {
    if |s| < HEAD then Bad
    else
      var id, size: nat, body := FromLE32(s[..4]), FromLE32(s[4..HEAD]), s[HEAD..];
      if id == ID_DONE then Complete(content, size, body)
      else if id != ID_DATA || size > SYNC_DATA_MAX || |body| < size then Bad
      else Collect(body[size..], content + body[..size])
  }

  /** The position after the last comma, 0 if there is none. */
  function AfterLastComma(spec: bytes): (k: nat)
    ensures k <= |spec| && (k > 0 ==> spec[k - 1] == COMMA) && (k == 0 ==> COMMA !in spec)
    ensures forall i :: k <= i < |spec| ==> spec[i] != COMMA
  {
    if spec == [] then 0
    else if spec[|spec| - 1] == COMMA then |spec|
    else AfterLastComma(spec[..|spec| - 1])
  }

  /** `handle_send_link`: one ID_DATA message with the target, then ID_DONE. */
  function LinkOutcome(path: bytes, s: bytes): Outcome
  {
    if |s| < HEAD || FromLE32(s[..4]) != ID_DATA then Failed
    else
      var size: nat, body := FromLE32(s[4..HEAD]), s[HEAD..];
      if size > SYNC_DATA_MAX || |body| < size then Failed
      else
        var done := body[size..];
        if |done| < HEAD || FromLE32(done[..4]) != ID_DONE then Failed
        else Received(Link(path, CString(body[..size])), done[HEAD..])
  }

  function FileOutcome(path: bytes, mode: uint32, s: bytes): Outcome
  {
    match Collect(s, [])
    case Bad => Failed
    case Complete(content, mtime, rest) => Received(File(path, Granted(mode), content, mtime), rest)
  }

  /** `do_send`, on a server where nothing goes wrong locally. */
  function DoSend(spec: bytes, s: bytes): Outcome
  {
    var k := AfterLastComma(spec);
    if k == 0 || Strtoul(spec[k..]) >= 0x1_0000_0000_0000_0000 then Failed
    else
      var path, mode := spec[..k - 1], Strtoul(spec[k..]) % TWO_32;
      if IsLink(mode) then LinkOutcome(path, s) else FileOutcome(path, mode, s)
  }

  /** The requests whose whole text is a path. */
  predicate AboutPath(id: uint32)
  {
    id == ID_RECV || id == ID_LIST || id == ID_LSTAT_V1 || id == ID_STAT_V2 || id == ID_LSTAT_V2
  }

  /** `handle_sync_command` on what the client wrote. */
  function HandleSync(s: bytes): Outcome
  {
    if |s| < HEAD then Failed
    else
      var id, len: nat, body := FromLE32(s[..4]), FromLE32(s[4..HEAD]), s[HEAD..];
      if len > PATH_MAX || |body| < len then Failed
      else if id == ID_SEND then DoSend(CString(body[..len]), body[len..])
      else if AboutPath(id) then Asked(id, CString(body[..len]), body[len..])
      else if id == ID_QUIT then Quitting
      else Failed
  }

  // ----- push -----

  lemma HeadRead(id: uint32, size: uint32, after: bytes)
    ensures var s := Head(id, size) + after; FromLE32(s[..4]) == id && FromLE32(s[4..HEAD]) == size && s[HEAD..] == after
  {
    var s := Head(id, size) + after;
    LE32RoundTrip(id);
    LE32RoundTrip(size);
    assert s[..4] == LE32(id) && s[4..HEAD] == LE32(size);
  }

  lemma CollectOne(c: bytes, more: bytes, content: bytes)
    requires |c| <= SYNC_DATA_MAX
    ensures Collect(Head(ID_DATA, |c|) + (c + more), content) == Collect(more, content + c)
  {
    HeadRead(ID_DATA, |c|, c + more);
    assert (c + more)[..|c|] == c && (c + more)[|c|..] == more;
  }

  lemma {:induction false} CollectData(chunks: seq<bytes>, mtime: uint32, rest: bytes, content: bytes)
    requires Chunks(chunks)
    ensures Collect(DataAll(chunks) + Head(ID_DONE, mtime) + rest, content) == Complete(content + Flat(chunks), mtime, rest)
    decreases |chunks|
  {
    if chunks == [] {
      HeadRead(ID_DONE, mtime, rest);
      assert [] + Head(ID_DONE, mtime) + rest == Head(ID_DONE, mtime) + rest;
      assert content + [] == content;
    } else {
      var c, more := chunks[0], DataAll(chunks[1..]) + Head(ID_DONE, mtime) + rest;
      assert DataAll(chunks) + Head(ID_DONE, mtime) + rest == Head(ID_DATA, |c|) + (c + more);
      CollectOne(c, more, content);
      CollectData(chunks[1..], mtime, rest, content + c);
      assert content + c + Flat(chunks[1..]) == content + Flat(chunks);
    }
  }

  /** The last comma of a spec is the one before the mode, whatever the path holds. */
  lemma SpecSplits(path: bytes, mode: nat)
    ensures var spec := Spec(path, mode);
            AfterLastComma(spec) == |path| + 1 && spec[..|path|] == path && spec[|path| + 1..] == Decimal(mode)
  {
    var spec, k := Spec(path, mode), AfterLastComma(Spec(path, mode));
    assert spec[|path|] == COMMA;
    assert spec[|path| + 1..] == Decimal(mode);
  }

  /** The server takes a request apart as it was put together, whatever follows. */
  lemma HandleRequest(id: uint32, text: bytes, after: bytes)
    requires |text| <= PATH_MAX && 0 !in text
    ensures HandleSync(RequestForm(id, text) + after) ==
            if id == ID_SEND then DoSend(text, after)
            else if id == ID_RECV || id == ID_LIST || id == ID_LSTAT_V1 || id == ID_STAT_V2 || id == ID_LSTAT_V2 then Asked(id, text, after)
            else if id == ID_QUIT then Quitting
            else Failed
  {
    var s := RequestForm(id, text) + after;
    assert s == Head(id, |text|) + (text + after);
    HeadRead(id, |text|, text + after);
    assert (text + after)[..|text|] == text && (text + after)[|text|..] == after;
  }

  lemma HandleSpec(path: bytes, mode: nat, after: bytes)
    requires Sendable(path, mode)
    ensures HandleSync(RequestForm(ID_SEND, Spec(path, mode)) + after) == DoSend(Spec(path, mode), after)
  {
    assert 0 !in Spec(path, mode);
    HandleRequest(ID_SEND, Spec(path, mode), after);
  }

  lemma DoSendParts(spec: bytes, path: bytes, mode: uint32, s: bytes)
    requires |spec| > |path| && AfterLastComma(spec) == |path| + 1 && spec[..|path|] == path && Strtoul(spec[|path| + 1..]) == mode
    ensures DoSend(spec, s) == if IsLink(mode) then LinkOutcome(path, s) else FileOutcome(path, mode, s)
  {
    assert mode % TWO_32 == mode;
    if IsLink(mode) {
      assert DoSend(spec, s) == LinkOutcome(path, s);
    } else {
      assert DoSend(spec, s) == FileOutcome(path, mode, s);
    }
  }

  /** The spec is taken apart as it was put together. */
  lemma SendSpec(path: bytes, mode: nat, s: bytes)
    requires Sendable(path, mode)
    ensures DoSend(Spec(path, mode), s) == if IsLink(mode) then LinkOutcome(path, s) else FileOutcome(path, mode, s)
  {
    SpecSplits(path, mode);
    StrtoulDecimal(mode);
    DoSendParts(Spec(path, mode), path, mode, s);
  }

  /**
   A pushed file arrives with its path, commas included, its mode, its content and its mtime,
   however it was cut into chunks, and the next request is next in the stream.
   */
  lemma PushRoundTrip(path: bytes, mode: nat, mtime: uint32, chunks: seq<bytes>, rest: bytes)
    requires Sendable(path, mode) && !IsLink(mode) && Chunks(chunks)
    ensures HandleSync(LargeForm(path, mode, mtime, chunks) + rest) == Received(File(path, Granted(mode), Flat(chunks), mtime), rest)
  {
    var after := DataAll(chunks) + Head(ID_DONE, mtime) + rest;
    assert LargeForm(path, mode, mtime, chunks) + rest == RequestForm(ID_SEND, Spec(path, mode)) + after;
    HandleSpec(path, mode, after);
    SendSpec(path, mode, after);
    CollectData(chunks, mtime, rest, []);
    assert [] + Flat(chunks) == Flat(chunks);
  }

  /** A regular file, whatever its permissions: what is stored has the user's permissions for everybody. */
  lemma PushRegular(path: bytes, permissions: nat, mtime: uint32, chunks: seq<bytes>, rest: bytes) returns (mode: uint32)
    requires permissions < 0x1000 && Sendable(path, S_IFREG + permissions) && Chunks(chunks)
    ensures HandleSync(LargeForm(path, S_IFREG + permissions, mtime, chunks) + rest) == Received(File(path, mode, Flat(chunks), mtime), rest)
    ensures IsSpread((S_IFREG + permissions) as bv32, mode as bv32)
  {
    LinkModes(permissions);
    PushRoundTrip(path, S_IFREG + permissions, mtime, chunks, rest);
    mode := Granted(S_IFREG + permissions);
    GrantedBits(S_IFREG + permissions);
  }

  /** The single-write form arrives as the same file. */
  lemma SmallRoundTrip(path: bytes, mode: nat, mtime: uint32, data: bytes, rest: bytes)
    requires Sendable(path, mode) && !IsLink(mode) && |data| <= SYNC_DATA_MAX
    ensures HandleSync(SmallForm(path, mode, mtime, data) + rest) == Received(File(path, Granted(mode), data, mtime), rest)
  {
    SmallIsOneChunk(path, mode, mtime, data);
    PushRoundTrip(path, mode, mtime, [data], rest);
    assert Flat([data]) == data + Flat([]) == data;
  }

  lemma {:induction false} CStringStops(s: bytes, after: bytes)
    requires 0 !in s
    ensures CString(s + [0] + after) == s
  {
    if s != [] {
      assert (s + [0] + after)[1..] == s[1..] + [0] + after;
      CStringStops(s[1..], after);
    }
  }

  lemma LinkRead(path: bytes, mtime: uint32, data: bytes, rest: bytes)
    requires |data| <= SYNC_DATA_MAX
    ensures LinkOutcome(path, Head(ID_DATA, |data|) + (data + (Head(ID_DONE, mtime) + rest))) == Received(Link(path, CString(data)), rest)
  {
    var done := Head(ID_DONE, mtime) + rest;
    HeadRead(ID_DATA, |data|, data + done);
    HeadRead(ID_DONE, mtime, rest);
    assert (data + done)[..|data|] == data && (data + done)[|data|..] == done;
  }

  /** A symbolic link is pushed as a small file whose content is the target and a NUL. */
  lemma LinkRoundTrip(path: bytes, mode: nat, mtime: uint32, target: bytes, rest: bytes)
    requires Sendable(path, mode) && IsLink(mode) && 0 !in target && |target| + 1 <= SYNC_DATA_MAX
    ensures HandleSync(SmallForm(path, mode, mtime, target + [0]) + rest) == Received(Link(path, target), rest)
  {
    var data := target + [0];
    var after := Head(ID_DATA, |data|) + (data + (Head(ID_DONE, mtime) + rest));
    assert SmallForm(path, mode, mtime, data) + rest == RequestForm(ID_SEND, Spec(path, mode)) + after;
    HandleSpec(path, mode, after);
    SendSpec(path, mode, after);
    LinkRead(path, mtime, data, rest);
    CStringStops(target, []);
    assert target + [0] + [] == data;
  }

  // ----- what is accepted -----

  lemma HeadOnly(s: bytes)
    requires |s| >= HEAD
    ensures s == Head(FromLE32(s[..4]), FromLE32(s[4..HEAD])) + s[HEAD..]
  {
    FromLE32Onto(s[..4]);
    FromLE32Onto(s[4..HEAD]);
    assert s == s[..4] + s[4..HEAD] + s[HEAD..];
  }

  /** A data message that is not refused. */
  lemma CollectStep(s: bytes, content: bytes) returns (data: bytes, after: bytes)
    requires Collect(s, content).Complete? && FromLE32(s[..4]) != ID_DONE
    ensures |data| <= SYNC_DATA_MAX && |after| < |s| && s == Head(ID_DATA, |data|) + data + after
    ensures Collect(s, content) == Collect(after, content + data)
  {
    HeadOnly(s);
    var size: nat, body := FromLE32(s[4..HEAD]), s[HEAD..];
    data, after := body[..size], body[size..];
    assert Head(ID_DATA, size) + body == Head(ID_DATA, size) + data + after;
  }

  lemma CollectDone(s: bytes, content: bytes) returns (done: bool)
    requires Collect(s, content).Complete?
    ensures var c := Collect(s, content); done ==> c.content == content && s == [] + (Head(ID_DONE, c.mtime) + c.rest)
    ensures !done ==> FromLE32(s[..4]) != ID_DONE
  {
    HeadOnly(s);
    done := FromLE32(s[..4]) == ID_DONE;
  }

  lemma FlatFirst(a: bytes, b: bytes, rest: seq<bytes>)
    ensures a + b + Flat(rest) == a + Flat([b] + rest)
  {
    assert ([b] + rest)[1..] == rest;
    assert a + (b + Flat(rest)) == a + b + Flat(rest);
  }

  /** `s` begins with one data message for each chunk, and `tail` is the rest. */
  predicate Carries(s: bytes, chunks: seq<bytes>, tail: bytes)
  {
    Chunks(chunks) && s == DataAll(chunks) + tail
  }

  lemma CarriesMore(s: bytes, data: bytes, after: bytes, chunks: seq<bytes>, tail: bytes)
    requires |data| <= SYNC_DATA_MAX && s == Head(ID_DATA, |data|) + data + after && Carries(after, chunks, tail)
    ensures Carries(s, [data] + chunks, tail)
  {
    DataFirst(data, chunks);
    var front := Head(ID_DATA, |data|) + data;
    assert front + (DataAll(chunks) + tail) == front + DataAll(chunks) + tail;
  }

  /** A stream that is taken for a file is one: data messages within the limit, put together, and ID_DONE with the time. */
  lemma {:induction false} CollectOnly(s: bytes, content: bytes, c: Collected, tail: bytes) returns (chunks: seq<bytes>)
    requires c == Collect(s, content) && c.Complete? && tail == Head(ID_DONE, c.mtime) + c.rest
    ensures c.content == content + Flat(chunks) && Carries(s, chunks, tail)
    decreases |s|
  {
    var done := CollectDone(s, content);
    if done {
      chunks := [];
      assert content + [] == content;
    } else {
      var data, after := CollectStep(s, content);
      var rest := CollectOnly(after, content + data, c, tail);
      chunks := [data] + rest;
      CarriesMore(s, data, after, rest, tail);
      FlatFirst(content, data, rest);
    }
  }

  /** A link is taken for one only if it is: one data message with the target, and ID_DONE. */
  lemma LinkOnly(path: bytes, s: bytes) returns (data: bytes, mtime: uint32)
    requires LinkOutcome(path, s).Received?
    ensures var r := LinkOutcome(path, s);
            |data| <= SYNC_DATA_MAX && r.stored == Link(path, CString(data)) &&
            s == Head(ID_DATA, |data|) + (data + (Head(ID_DONE, mtime) + r.rest))
  {
    HeadOnly(s);
    var size: nat, body := FromLE32(s[4..HEAD]), s[HEAD..];
    data := body[..size];
    var done := body[size..];
    HeadOnly(done);
    mtime := FromLE32(done[4..HEAD]);
    assert body == data + done;
  }

  /** A mode that is no 64-bit number is refused; of a larger one than 32 bits the low bits count. */
  lemma ModeRead(path: bytes, digits: bytes, s: bytes)
    requires COMMA !in digits
    ensures var n := Strtoul(digits); var spec := path + [COMMA] + digits;
            DoSend(spec, s) == if n >= 0x1_0000_0000_0000_0000 then Failed
                               else if IsLink(n % TWO_32) then LinkOutcome(path, s) else FileOutcome(path, n % TWO_32, s)
  {
    var spec, k := path + [COMMA] + digits, AfterLastComma(path + [COMMA] + digits);
    assert spec[|path|] == COMMA;
    assert spec[|path| + 1..] == digits && spec[..|path|] == path;
    assert k == |path| + 1;
  }

  /** A request that is not refused is one: its id, its length of at most 1024, and that many bytes. */
  lemma RequestOnly(s: bytes) returns (id: uint32, text: bytes, after: bytes)
    requires !HandleSync(s).Failed?
    ensures |text| <= PATH_MAX && s == RequestForm(id, text) + after
    ensures id == ID_SEND || id == ID_QUIT || AboutPath(id)
    ensures id == ID_SEND ==> COMMA in CString(text)
  {
    HeadOnly(s);
    var size: nat, body := FromLE32(s[4..HEAD]), s[HEAD..];
    id, text, after := FromLE32(s[..4]), body[..size], body[size..];
    assert body == text + after;
    assert Head(id, size) + (text + after) == Head(id, size) + text + after;
  }

  // ----- pull -----

  /** `do_recv`. */
  function RecvForm(chunks: seq<bytes>): bytes
    requires Chunks(chunks)
  {
    DataAll(chunks) + Head(ID_DONE, 0)
  }

  /** `SendSyncFail`. */
  function FailForm(reason: bytes): bytes
    requires |reason| < TWO_32
  {
    Head(ID_FAIL, |reason|) + reason
  }

  /** A failure is no file. */
  lemma FailCollected(reason: bytes)
    requires |reason| < TWO_32
    ensures Collect(FailForm(reason), []).Bad?
  {
    HeadRead(ID_FAIL, |reason|, reason);
  }

  /** What the server sends for a file, the client's loop puts together again. */
  lemma PullRoundTrip(chunks: seq<bytes>, rest: bytes)
    requires Chunks(chunks)
    ensures Collect(RecvForm(chunks) + rest, []) == Complete(Flat(chunks), 0, rest)
  {
    CollectData(chunks, 0, rest, []);
    assert [] + Flat(chunks) == Flat(chunks);
  }
}
