/** The loops of file sync over descriptors that are read and written in pieces. */
module FileSyncIo {
  import opened Base
  import opened Descriptors
  import opened SmartSocket
  import opened AdbIo
  import opened FileSync

  lemma {:induction false} DataAppend(a: seq<bytes>, c: bytes)
    requires Chunks(a) && |c| <= SYNC_DATA_MAX
    ensures Chunks(a + [c]) && DataAll(a + [c]) == DataAll(a) + (Head(ID_DATA, |c|) + c)
  {
    var tail := Head(ID_DATA, |c|) + c;
    if a == [] {
      DataFirst(c, []);
      assert a + [c] == [c] + [];
      assert [] + tail == tail + [];
    } else {
      var first, rest := Head(ID_DATA, |a[0]|) + a[0], DataAll(a[1..]);
      DataAppend(a[1..], c);
      DataFirst(a[0], a[1..] + [c]);
      assert a + [c] == [a[0]] + (a[1..] + [c]);
      assert first + (rest + tail) == first + rest + tail;
    }
  }

  /** So far `chunks` of a file with this content were read and written after `was`; `rest` is still to be read. */
  predicate Copying(content: bytes, was: bytes, chunks: seq<bytes>, rest: bytes, written: bytes)
  {
    Chunks(chunks) && Flat(chunks) + rest == content && written == was + DataAll(chunks)
  }

  lemma CopyOne(content: bytes, was: bytes, chunks: seq<bytes>, data: bytes, rest: bytes, written: bytes)
    requires Copying(content, was, chunks, data + rest, written) && |data| <= SYNC_DATA_MAX
    ensures Copying(content, was, chunks + [data], rest, written + (Head(ID_DATA, |data|) + data))
  {
    FlatSnoc(chunks, data);
    DataAppend(chunks, data);
    assert Flat(chunks) + (data + rest) == Flat(chunks) + data + rest;
    assert was + DataAll(chunks) + (Head(ID_DATA, |data|) + data) == was + (DataAll(chunks) + (Head(ID_DATA, |data|) + data));
  }

  /** The copying is over: all of the file is in `chunks`, or the other side said something after the last of them. */
  predicate Copied(content: bytes, chunks: seq<bytes>, polls: seq<bool>)
  {
    && Chunks(chunks) && Flat(chunks) <= content
    && (Flat(chunks) == content || (0 < |chunks| <= |polls| && polls[|chunks| - 1]))
    && forall i :: 0 <= i < |chunks| - 1 && i < |polls| ==> !polls[i]
  }

  /**
   The loop of SendLargeFile, and of do_recv: a file is copied to the wire, each read one ID_DATA
   message. `polls` is what ReceivedError says after each of them; do_recv does not ask.
   */
  method CopyFile(file: Source, polls: seq<bool>, sink: Sink) returns (ok: bool, ghost chunks: seq<bytes>)
    modifies file, sink
    ensures ok ==> Copied(old(file.rest), chunks, polls) && sink.written == old(sink.written) + DataAll(chunks)
    ensures Broken !in old(sink.script) ==> ok && Broken !in sink.script
  {
    chunks := [];
    var n := 0;
    while true
      invariant Copying(old(file.rest), old(sink.written), chunks, file.rest, sink.written)
      invariant Broken !in old(sink.script) ==> Broken !in sink.script
      invariant n == |chunks| && forall i :: 0 <= i < n && i < |polls| ==> !polls[i]
      decreases |file.rest|
    {
      var data := file.Read(SYNC_DATA_MAX - HEAD);
      if data == [] { return true, chunks; }
      CopyOne(old(file.rest), old(sink.written), chunks, data, file.rest, sink.written);
      ok := sink.WriteFdExactly(Head(ID_DATA, |data|) + data);
      if !ok { return; }
      chunks := chunks + [data];
      if n < |polls| && polls[n] { return true, chunks; }
      n := n + 1;
    }
  }

  method SendRequest(id: uint32, text: bytes, sink: Sink) returns (ok: bool)
    modifies sink
    ensures |text| > PATH_MAX ==> !ok && sink.written == old(sink.written)
    ensures ok ==> |text| <= PATH_MAX && sink.written == old(sink.written) + RequestForm(id, text)
    ensures |text| <= PATH_MAX && Broken !in old(sink.script) ==> ok && Broken !in sink.script
  {
    if |text| > PATH_MAX { return false; }
    ok := sink.WriteFdExactly(Head(id, |text|) + text);
  }

  /** When the other side has said something, no more is read, but ID_DONE is sent all the same. */
  method SendLargeFile(path: bytes, mode: nat, mtime: uint32, file: Source, polls: seq<bool>, sink: Sink)
    returns (ok: bool, ghost chunks: seq<bytes>)
    modifies file, sink
    ensures |Spec(path, mode)| > PATH_MAX ==> !ok && sink.written == old(sink.written)
    ensures ok ==> |Spec(path, mode)| <= PATH_MAX && Copied(old(file.rest), chunks, polls)
                   && sink.written == old(sink.written) + LargeForm(path, mode, mtime, chunks)
    ensures |Spec(path, mode)| <= PATH_MAX && Broken !in old(sink.script) ==> ok
  {
    chunks := [];
    ok := SendRequest(ID_SEND, Spec(path, mode), sink);
    if !ok { return; }
    ok, chunks := CopyFile(file, polls, sink);
    if !ok { return; }
    ok := sink.WriteFdExactly(Head(ID_DONE, mtime));
  }

  method SendSmallFile(path: bytes, mode: nat, mtime: uint32, data: bytes, sink: Sink) returns (ok: bool)
    requires |data| <= SYNC_DATA_MAX
    modifies sink
    ensures |Spec(path, mode)| > PATH_MAX ==> !ok && sink.written == old(sink.written)
    ensures ok ==> |Spec(path, mode)| <= PATH_MAX && sink.written == old(sink.written) + SmallForm(path, mode, mtime, data)
    ensures |Spec(path, mode)| <= PATH_MAX && Broken !in old(sink.script) ==> ok
  {
    var spec := Spec(path, mode);
    if |spec| > PATH_MAX { return false; }
    ok := sink.WriteFdExactly(Head(ID_SEND, |spec|) + spec + Head(ID_DATA, |data|) + data + Head(ID_DONE, mtime));
  }

  /** The data loop of handle_send_file, and of sync_recv. */
  method CollectFrom(source: Source) returns (r: Option<(bytes, uint32)>)
    modifies source
    ensures match Collect(old(source.rest), [])
            case Bad => r.None?
            case Complete(content, mtime, rest) => r == Some((content, mtime)) && source.rest == rest
  {
    var content: bytes := [];
    while true
      invariant Collect(old(source.rest), []) == Collect(source.rest, content)
      decreases |source.rest|
    {
      var ok, id, size := ReadHead(source);
      if !ok { return None; }
      if id == ID_DONE { return Some((content, size)); }
      if id != ID_DATA || size > SYNC_DATA_MAX { return None; }
      var data;
      ok, data := source.ReadFdExactly(size);
      if !ok { return None; }
      content := content + data;
    }
  }

  /** find_last_of, a scan from the end. */
  method FindLastComma(spec: bytes) returns (k: nat)
    ensures k == AfterLastComma(spec)
  {
    k := |spec|;
    while k > 0 && spec[k - 1] != COMMA
      invariant k <= |spec| && AfterLastComma(spec) == AfterLastComma(spec[..k])
    {
      assert spec[..k][..k - 1] == spec[..k - 1];
      k := k - 1;
    }
    assert k == |spec| ==> spec[..k] == spec;
  }

  /** One header. */
  method ReadHead(source: Source) returns (ok: bool, id: uint32, size: nat)
    modifies source
    ensures ok <==> |old(source.rest)| >= HEAD
    ensures ok ==> id == FromLE32(old(source.rest)[..4]) && size == FromLE32(old(source.rest)[4..HEAD])
    ensures ok ==> source.rest == old(source.rest)[HEAD..]
  {
    var head;
    ok, head := source.ReadFdExactly(HEAD);
    id, size := 0, 0;
    if ok {
      assert head[..4] == old(source.rest)[..4] && head[4..HEAD] == old(source.rest)[4..HEAD];
      id, size := FromLE32(head[..4]), FromLE32(head[4..HEAD]);
    }
  }

  /** handle_send_link. */
  method ReadLink(source: Source, path: bytes) returns (r: Option<Stored>)
    modifies source
    ensures match LinkOutcome(path, old(source.rest))
            case Received(stored, rest) => r == Some(stored) && source.rest == rest
            case _ => r.None?
  {
    var ok, id, size := ReadHead(source);
    if !ok || id != ID_DATA || size > SYNC_DATA_MAX { return None; }
    var data;
    ok, data := source.ReadFdExactly(size);
    if !ok { return None; }
    ok, id, size := ReadHead(source);
    if !ok || id != ID_DONE { return None; }
    return Some(Link(path, CString(data)));
  }

  /** do_send. */
  method Send(source: Source, spec: bytes) returns (r: Option<Stored>)
    modifies source
    ensures match DoSend(spec, old(source.rest))
            case Received(stored, rest) => r == Some(stored) && source.rest == rest
            case _ => r.None?
  {
    var k := FindLastComma(spec);
    if k == 0 || Strtoul(spec[k..]) >= 0x1_0000_0000_0000_0000 { return None; }
    var path, mode := spec[..k - 1], Strtoul(spec[k..]) % TWO_32;
    if IsLink(mode) {
      r := ReadLink(source, path);
    } else {
      var file := CollectFrom(source);
      if file.None? { return None; }
      r := Some(File(path, Granted(mode), file.value.0, file.value.1));
    }
  }

  datatype Command = Refuse | Store(stored: Stored) | Answer(id: uint32, path: bytes) | Quit

  /** handle_sync_command, up to the answer to a question about a path. */
  method HandleSyncCommand(source: Source) returns (r: Command)
    modifies source
    ensures match HandleSync(old(source.rest))
            case Failed => r.Refuse?
            case Received(stored, rest) => r == Store(stored) && source.rest == rest
            case Asked(id, path, rest) => r == Answer(id, path) && source.rest == rest
            case Quitting => r.Quit?
  {
    var ok, id, len := ReadHead(source);
    if !ok || len > PATH_MAX { return Refuse; }
    var name;
    ok, name := source.ReadFdExactly(len);
    if !ok { return Refuse; }
    if id == ID_SEND {
      var stored := Send(source, CString(name));
      return if stored.Some? then Store(stored.value) else Refuse;
    }
    return if AboutPath(id) then Answer(id, CString(name)) else if id == ID_QUIT then Quit else Refuse;
  }

  /**
   A push from end to end: the client writes either form through a descriptor that takes what it
   likes, the server reads it in other pieces, and the file arrives.
   */
  method Push(path: bytes, mode: nat, mtime: uint32, content: bytes, disk: seq<nat>, writes: seq<WriteResult>, cuts: seq<nat>)
    returns (r: Command)
    requires Sendable(path, mode) && !IsLink(mode) && Broken !in writes
    ensures r == Store(File(path, Granted(mode), content, mtime)) && IsSpread(mode as bv32, r.stored.mode as bv32)
  {
    GrantedBits(mode);
    var wire;
    if |content| < SYNC_DATA_MAX {
      wire := WireOfSmall(path, mode, mtime, content, writes);
    } else {
      wire := WireOfLarge(path, mode, mtime, content, disk, writes);
    }
    var source := new Source(wire, cuts);
    r := HandleSyncCommand(source);
  }

  method WireOfSmall(path: bytes, mode: nat, mtime: uint32, content: bytes, writes: seq<WriteResult>) returns (wire: bytes)
    requires Sendable(path, mode) && !IsLink(mode) && Broken !in writes && |content| <= SYNC_DATA_MAX
    ensures HandleSync(wire) == Received(File(path, Granted(mode), content, mtime), [])
  {
    var sink := new Sink(writes);
    var _ := SendSmallFile(path, mode, mtime, content, sink);
    wire := sink.written;
    SmallRoundTrip(path, mode, mtime, content, []);
    assert wire == SmallForm(path, mode, mtime, content) + [];
  }

  method WireOfLarge(path: bytes, mode: nat, mtime: uint32, content: bytes, disk: seq<nat>, writes: seq<WriteResult>) returns (wire: bytes)
    requires Sendable(path, mode) && !IsLink(mode) && Broken !in writes
    ensures HandleSync(wire) == Received(File(path, Granted(mode), content, mtime), [])
  {
    var sink := new Sink(writes);
    var file := new Source(content, disk);
    ghost var chunks;
    var ok;
    ok, chunks := SendLargeFile(path, mode, mtime, file, [], sink);
    wire := sink.written;
    PushRoundTrip(path, mode, mtime, chunks, []);
    assert wire == LargeForm(path, mode, mtime, chunks) + [];
  }

  /** do_recv; a file that cannot be opened is answered with a failure. */
  method Recv(files: map<bytes, bytes>, path: bytes, reason: bytes, disk: seq<nat>, sink: Sink) returns (ghost chunks: seq<bytes>)
    requires |reason| < TWO_32 && Broken !in sink.script
    modifies sink
    ensures Chunks(chunks)
    ensures path in files ==> Flat(chunks) == files[path] && sink.written == old(sink.written) + RecvForm(chunks)
    ensures path !in files ==> sink.written == old(sink.written) + FailForm(reason)
  {
    chunks := [];
    var ok;
    if path !in files {
      ok := sink.WriteFdExactly(Head(ID_FAIL, |reason|));
      ok := sink.WriteFdExactly(reason);
    } else {
      var file := new Source(files[path], disk);
      ok, chunks := CopyFile(file, [], sink);
      ok := sink.WriteFdExactly(Head(ID_DONE, 0));
    }
  }

  /** The client's request as the server reads it: the path arrives whole, or is too long to be sent. */
  method AskFor(path: bytes, writes: seq<WriteResult>, cuts: seq<nat>) returns (r: Command)
    requires 0 !in path && Broken !in writes
    ensures r == if |path| <= PATH_MAX then Answer(ID_RECV, path) else Refuse
  {
    var sink := new Sink(writes);
    var ok := SendRequest(ID_RECV, path, sink);
    if !ok { return Refuse; }
    HandleRequest(ID_RECV, path, []);
    assert sink.written + [] == sink.written == RequestForm(ID_RECV, path) + [];
    var source := new Source(sink.written, cuts);
    r := HandleSyncCommand(source);
  }

  /** A pull from end to end: the client asks for a path, and gets the content of the server's file of that name. */
  method Pull(path: bytes, files: map<bytes, bytes>, reason: bytes, asks: seq<WriteResult>, askCuts: seq<nat>,
              disk: seq<nat>, writes: seq<WriteResult>, cuts: seq<nat>) returns (r: Option<bytes>)
    requires 0 !in path && Broken !in asks && Broken !in writes && |reason| < TWO_32
    ensures r == if |path| <= PATH_MAX && path in files then Some(files[path]) else None
  {
    var asked := AskFor(path, asks, askCuts);
    if asked.Refuse? { return None; }
    var sink := new Sink(writes);
    ghost var chunks := Recv(files, asked.path, reason, disk, sink);
    PullRoundTrip(chunks, []);
    FailCollected(reason);
    assert sink.written + [] == sink.written && [] + RecvForm(chunks) + [] == RecvForm(chunks) + [] && [] + FailForm(reason) == FailForm(reason);
    var source := new Source(sink.written, cuts);
    var got := CollectFrom(source);
    return if got.Some? then Some(got.value.0) else None;
  }
}
