/**
 core/adb/adb_io.cpp on blocking descriptors. The bytes of a stream arrive cut in any way: a
 script says how much each read returns and what each write does.
 */
module AdbIo {
  import opened Base
  import opened Descriptors

  /** A descriptor to read from; `rest` is what the other side wrote and nobody has read, `cuts` bounds the next reads. */
  class Source {
    var rest: bytes
    var cuts: seq<nat>

    constructor (rest: bytes, cuts: seq<nat>)
      ensures this.rest == rest && this.cuts == cuts
    {
      this.rest, this.cuts := rest, cuts;
    }

    /** `adb_read`: at least one byte, unless the stream has ended. */
    method Read(max: nat) returns (data: bytes)
      requires max > 0
      modifies this
      ensures old(rest) == data + rest && |data| <= max
      ensures data == [] <==> old(rest) == []
    {
      var n := Min(max, |rest|);
      if cuts != [] {
        if cuts[0] > 0 { n := Min(n, cuts[0]); }
        cuts := cuts[1..];
      }
      data, rest := rest[..n], rest[n..];
    }

    /** `ReadFdExactly`. */
    method ReadFdExactly(len: nat) returns (ok: bool, data: bytes)
      modifies this
      ensures ok <==> len <= |old(rest)|
      ensures ok ==> data == old(rest)[..len] && rest == old(rest)[len..]
      ensures !ok ==> rest == []
    {
      data := [];
      while |data| < len
        invariant |data| <= len && old(rest) == data + rest
        decreases len - |data|
      {
        var d := Read(len - |data|);
        if d == [] { return false, data; }
        data := data + d;
      }
      ok := true;
    }
  }

  datatype Persisted = Persisted(count: nat, ok: bool, script: seq<WriteResult>)

  /** Writing until everything is taken: EAGAIN is tried again, an error ends it; after the script a write takes everything. */
  function Persist(data: bytes, script: seq<WriteResult>): (r: Persisted)
    ensures r.count <= |data| && (r.ok <==> r.count == |data|)
    ensures Broken !in script ==> r.ok && Broken !in r.script
    decreases |script|
  {
    if data == [] then Persisted(0, true, script)
    else if script == [] then Persisted(|data|, true, [])
    else
      match script[0]
      case WouldBlock => Persist(data, script[1..])
      case Broken => Persisted(0, false, script[1..])
      case Took(n) =>
        var k := Min(n, |data|);
        var r := Persist(data[k..], script[1..]);
        Persisted(k + r.count, r.ok, r.script)
  }

  /** None of the first `n` calls fails. */
  predicate NoError(script: seq<WriteResult>, n: nat)
  {
    n <= |script| && forall i :: 0 <= i < n ==> !script[i].Broken?
  }

  /** What they take together: EAGAIN takes nothing. */
  function Moved(script: seq<WriteResult>, n: nat): nat
    requires NoError(script, n)
  {
    if n == 0 then 0 else Moved(script, n - 1) + if script[n - 1].Took? then script[n - 1].count else 0
  }

  /** With some of `data` unwritten after `n` calls, the next one fails. */
  predicate BreaksAt(data: bytes, script: seq<WriteResult>, n: nat)
  {
    NoError(script, n) && Moved(script, n) < |data| && n < |script| && script[n].Broken?
  }

  lemma {:induction false} MovedFirst(script: seq<WriteResult>, n: nat)
    requires n > 0 && NoError(script, n)
    ensures NoError(script[1..], n - 1)
    ensures Moved(script, n) == (if script[0].Took? then script[0].count else 0) + Moved(script[1..], n - 1)
  {
    if n > 1 { MovedFirst(script, n - 1); }
  }

  lemma {:induction false} BreaksThere(data: bytes, script: seq<WriteResult>, n: nat)
    requires BreaksAt(data, script, n)
    ensures !Persist(data, script).ok && Persist(data, script).count == Moved(script, n)
    decreases |script|
  {
    if n > 0 {
      MovedFirst(script, n);
      var k := if script[0].Took? then Min(script[0].count, |data|) else 0;
      assert data[0..] == data;
      BreaksThere(data[k..], script[1..], n - 1);
    }
  }

  lemma {:induction false} BreaksSomewhere(data: bytes, script: seq<WriteResult>) returns (n: nat)
    requires !Persist(data, script).ok
    ensures BreaksAt(data, script, n)
    decreases |script|
  {
    n := 0;
    if !script[0].Broken? {
      var k := if script[0].Took? then Min(script[0].count, |data|) else 0;
      assert data[0..] == data;
      n := BreaksSomewhere(data[k..], script[1..]);
      assert NoError(script, n + 1);
      MovedFirst(script, n + 1);
      n := n + 1;
    }
  }

  /**
   Writing everything, from the results of the calls alone: it fails exactly when an error other
   than EAGAIN comes before the calls have taken all of `data`, and then what they took is written.
   EAGAIN is always tried again.
   */
  lemma PersistExactly(data: bytes, script: seq<WriteResult>)
    ensures !Persist(data, script).ok <==> exists n :: 0 <= n < |script| && BreaksAt(data, script, n)
    ensures forall n :: 0 <= n < |script| && BreaksAt(data, script, n) ==> Persist(data, script).count == Moved(script, n)
  {
    forall n | 0 <= n < |script| && BreaksAt(data, script, n)
      ensures !Persist(data, script).ok && Persist(data, script).count == Moved(script, n)
    {
      BreaksThere(data, script, n);
    }
    if !Persist(data, script).ok {
      var n := BreaksSomewhere(data, script);
      assert 0 <= n < |script| && BreaksAt(data, script, n);
    }
  }

  /** The loop of `WriteFdExactly`. */
  method WriteLoop(data: bytes, script: seq<WriteResult>) returns (count: nat, ok: bool, rest: seq<WriteResult>)
    ensures Persisted(count, ok, rest) == Persist(data, script)
  {
    count, rest := 0, script;
    while count < |data|
      invariant count <= |data| && |rest| <= |script|
      invariant Persist(data, script) == var r := Persist(data[count..], rest); Persisted(count + r.count, r.ok, r.script)
      decreases |rest|
    {
      if rest == [] { return |data|, true, []; }
      var result := rest[0];
      rest := rest[1..];
      match result
      case WouldBlock =>
      case Broken => return count, false, rest;
      case Took(n) =>
        var k := Min(n, |data| - count);
        assert data[count..][k..] == data[count + k..];
        count := count + k;
    }
    assert data[count..] == [];
    ok := true;
  }

  /** A descriptor to write to; `script` says what the next writes do. */
  class Sink {
    var written: bytes
    var script: seq<WriteResult>

    constructor (script: seq<WriteResult>)
      ensures written == [] && this.script == script
    {
      written, this.script := [], script;
    }

    /** `WriteFdExactly`. */
    method WriteFdExactly(data: bytes) returns (ok: bool)
      modifies this
      ensures var r := Persist(data, old(script)); ok == r.ok && script == r.script && written == old(written) + data[..r.count]
      ensures ok ==> written == old(written) + data
    {
      var count;
      count, ok, script := WriteLoop(data, script);
      written := written + data[..count];
    }
  }
}
