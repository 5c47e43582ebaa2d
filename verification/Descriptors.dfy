/**
 Non-blocking file descriptors as adb's event callbacks use them. The kernel is an adversary:
 a script lists what successive calls return, and a finished script means "would block".
 */
module Descriptors {
  import opened Base

  /** One `adb_write`: some bytes taken, EAGAIN, or any other result (an error or zero). */
  datatype WriteResult = Took(count: nat) | WouldBlock | Broken

  /** One `adb_read`: some bytes, EAGAIN, or end of file or an error. */
  datatype ReadResult = Got(data: bytes) | NothingYet | AtEnd

  datatype Outcome = Done | Blocked | Failed

  datatype Pushed = Pushed(count: nat, outcome: Outcome, script: seq<WriteResult>)

  /** Writing one packet: keep going on short writes, stop on EAGAIN or failure. */
  function Push(data: bytes, script: seq<WriteResult>): (r: Pushed)
    ensures r.count <= |data|
    ensures r.outcome.Done? <==> r.count == |data|
    decreases |script|
  {
    if data == [] then Pushed(0, Done, script)
    else if script == [] then Pushed(0, Blocked, [])
    else
      match script[0]
      case Took(n) =>
        if n == 0 then Pushed(0, Failed, script[1..])
        else
          var k := Min(n, |data|);
          var r := Push(data[k..], script[1..]);
          Pushed(k + r.count, r.outcome, r.script)
      case WouldBlock => Pushed(0, Blocked, script[1..])
      case Broken => Pushed(0, Failed, script[1..])
  }

  // ----- what the results of the calls mean -----

  /** The first `n` calls each took something. */
  predicate Takes(script: seq<WriteResult>, n: nat)
  {
    n <= |script| && forall i :: 0 <= i < n ==> script[i].Took? && script[i].count > 0
  }

  /** What they could take together. */
  function TakenBy(script: seq<WriteResult>, n: nat): nat
    requires Takes(script, n)
  {
    if n == 0 then 0 else TakenBy(script, n - 1) + script[n - 1].count
  }

  /** With some of `data` unwritten after `n` calls, the next one is EAGAIN, or is yet to come. */
  predicate BlocksAt(data: bytes, script: seq<WriteResult>, n: nat)
  {
    Takes(script, n) && TakenBy(script, n) < |data| && (n == |script| || script[n].WouldBlock?)
  }

  /** With some of `data` unwritten after `n` calls, the next one is an error other than EAGAIN, or takes nothing. */
  predicate FailsAt(data: bytes, script: seq<WriteResult>, n: nat)
  {
    Takes(script, n) && TakenBy(script, n) < |data| && n < |script| && (script[n].Broken? || script[n] == Took(0))
  }

  /** `n` calls take all of `data`, and no fewer do. */
  predicate TakesAll(data: bytes, script: seq<WriteResult>, n: nat)
  {
    Takes(script, n) && TakenBy(script, n) >= |data| && (n > 0 ==> TakenBy(script, n - 1) < |data|)
  }

  predicate WriteBlocks(data: bytes, script: seq<WriteResult>)
  {
    exists n :: 0 <= n <= |script| && BlocksAt(data, script, n)
  }

  predicate WriteFails(data: bytes, script: seq<WriteResult>)
  {
    exists n :: 0 <= n <= |script| && FailsAt(data, script, n)
  }

  lemma {:induction false} TakenByFirst(script: seq<WriteResult>, n: nat)
    requires n > 0 && Takes(script, n)
    ensures Takes(script[1..], n - 1) && TakenBy(script, n) == script[0].count + TakenBy(script[1..], n - 1)
  {
    if n > 1 { TakenByFirst(script, n - 1); }
  }

  lemma {:induction false} TakenByMore(script: seq<WriteResult>, m: nat, n: nat)
    requires m <= n && Takes(script, n)
    ensures Takes(script, m) && TakenBy(script, m) <= TakenBy(script, n)
  {
    if m < n { TakenByMore(script, m, n - 1); }
  }

  /** Where the loop stops, and why. */
  lemma {:induction false} PushStops(data: bytes, script: seq<WriteResult>) returns (n: nat)
    ensures var r := Push(data, script);
            match r.outcome
            case Done => TakesAll(data, script, n) && r.script == script[n..]
            case Blocked => BlocksAt(data, script, n) && r.count == TakenBy(script, n)
            case Failed => FailsAt(data, script, n) && r.count == TakenBy(script, n)
    decreases |script|
  {
    n := 0;
    if data != [] && script != [] && script[0].Took? && script[0].count > 0 {
      var k := Min(script[0].count, |data|);
      n := PushStops(data[k..], script[1..]);
      assert Takes(script, n + 1);
      TakenByFirst(script, n + 1);
      if n > 0 { TakenByFirst(script, n); }
      n := n + 1;
    }
  }

  /** At most one place can be where it stops. */
  lemma StopsOnce(data: bytes, script: seq<WriteResult>, m: nat, n: nat)
    requires BlocksAt(data, script, m) || FailsAt(data, script, m) || TakesAll(data, script, m)
    requires BlocksAt(data, script, n) || FailsAt(data, script, n) || TakesAll(data, script, n)
    ensures m == n
  {
    if m < n { TakenByMore(script, m, n - 1); }
    if n < m { TakenByMore(script, n, m - 1); }
  }

  /**
   The outcome of writing, from the results of the calls alone: blocked exactly when calls that
   each took something, but together not all of `data`, are followed by EAGAIN or by nothing yet;
   failed exactly when they are followed by another error or a call that took nothing.
   */
  lemma PushExactly(data: bytes, script: seq<WriteResult>)
    ensures Push(data, script).outcome.Blocked? <==> WriteBlocks(data, script)
    ensures Push(data, script).outcome.Failed? <==> WriteFails(data, script)
    ensures forall n :: 0 <= n <= |script| && (BlocksAt(data, script, n) || FailsAt(data, script, n)) ==>
              Push(data, script).count == TakenBy(script, n)
  {
    var k := PushStops(data, script);
    forall n | 0 <= n <= |script| && (BlocksAt(data, script, n) || FailsAt(data, script, n)) ensures n == k {
      StopsOnce(data, script, k, n);
    }
  }

  datatype Drained = Drained(written: bytes, queue: seq<bytes>, outcome: Outcome)

  /** Writing a queue of packets in order, under one script. */
  function Drain(queue: seq<bytes>, script: seq<WriteResult>): (d: Drained)
    ensures d.outcome.Done? <==> d.queue == []
    ensures |d.queue| <= |queue|
    decreases |queue|
  {
    if queue == [] then Drained([], [], Done)
    else
      var r := Push(queue[0], script);
      if r.outcome.Done? then
        var d := Drain(queue[1..], r.script);
        Drained(queue[0] + d.written, d.queue, d.outcome)
      else
        Drained(queue[0][..r.count], [queue[0][r.count..]] + queue[1..], r.outcome)
  }

  /** Draining moves bytes from the front of the queue to the descriptor and loses none. */
  lemma {:induction false} DrainConserves(queue: seq<bytes>, script: seq<WriteResult>)
    ensures Drain(queue, script).written + Flat(Drain(queue, script).queue) == Flat(queue)
    decreases |queue|
  {
    if queue != [] {
      var r := Push(queue[0], script);
      var d := Drain(queue, script);
      if r.outcome.Done? {
        DrainConserves(queue[1..], r.script);
        var d' := Drain(queue[1..], r.script);
        assert queue[0] + d'.written + Flat(d'.queue) == queue[0] + (d'.written + Flat(d'.queue));
      } else {
        assert d.queue[1..] == queue[1..];
        assert queue[0] == queue[0][..r.count] + queue[0][r.count..];
      }
    }
  }

  /** Some packet of the queue is reached, the ones before it having been taken call by call, and writing it fails. */
  predicate QueueFails(queue: seq<bytes>, script: seq<WriteResult>)
    decreases |queue|
  {
    && queue != []
    && (WriteFails(queue[0], script)
        || exists n :: 0 <= n <= |script| && TakesAll(queue[0], script, n) && QueueFails(queue[1..], script[n..]))
  }

  /** Likewise, and it blocks. */
  predicate QueueBlocks(queue: seq<bytes>, script: seq<WriteResult>)
    decreases |queue|
  {
    && queue != []
    && (WriteBlocks(queue[0], script)
        || exists n :: 0 <= n <= |script| && TakesAll(queue[0], script, n) && QueueBlocks(queue[1..], script[n..]))
  }

  /** `left` is the queue without what the calls took. */
  predicate Leaves(queue: seq<bytes>, script: seq<WriteResult>, left: seq<bytes>)
    decreases |queue|
  {
    && queue != []
    && ((exists n :: 0 <= n <= |script| && (BlocksAt(queue[0], script, n) || FailsAt(queue[0], script, n)) &&
                     left == [queue[0][TakenBy(script, n)..]] + queue[1..])
        || exists n :: 0 <= n <= |script| && TakesAll(queue[0], script, n) && Leaves(queue[1..], script[n..], left))
  }

  /** The outcome of draining a queue, and what stays in it, from the results of the calls alone. */
  lemma {:induction false} DrainExactly(queue: seq<bytes>, script: seq<WriteResult>)
    ensures Drain(queue, script).outcome.Blocked? <==> QueueBlocks(queue, script)
    ensures Drain(queue, script).outcome.Failed? <==> QueueFails(queue, script)
    ensures !Drain(queue, script).outcome.Done? ==> Leaves(queue, script, Drain(queue, script).queue)
    decreases |queue|
  {
    if queue != [] {
      PushExactly(queue[0], script);
      var k := PushStops(queue[0], script);
      forall n | 0 <= n <= |script| && TakesAll(queue[0], script, n) ensures n == k {
        StopsOnce(queue[0], script, k, n);
      }
      if Push(queue[0], script).outcome.Done? { DrainExactly(queue[1..], script[k..]); }
    }
  }

  datatype Pulled = Pulled(data: bytes, eof: bool)

  /** Reading until the buffer is full, nothing is left for now, or the descriptor ends. */
  function Pull(avail: nat, script: seq<ReadResult>): (r: Pulled)
    ensures |r.data| <= avail
    decreases |script|
  {
    if avail == 0 || script == [] then Pulled([], false)
    else
      match script[0]
      case Got(d) =>
        if d == [] then Pulled([], true)
        else
          var k := d[..Min(|d|, avail)];
          var r := Pull(avail - |k|, script[1..]);
          Pulled(k + r.data, r.eof)
      case NothingYet => Pulled([], false)
      case AtEnd => Pulled([], true)
  }

  // ----- and of reading -----

  /** What the leading calls that brought something brought. */
  function Brought(script: seq<ReadResult>): bytes
  {
    if script == [] || !script[0].Got? then [] else script[0].data + if script[0].data == [] then [] else Brought(script[1..])
  }

  /** Calls that each brought something, but together less than `avail`, are followed by end of file or an error. */
  predicate ReadEnds(avail: nat, script: seq<ReadResult>)
  {
    exists n :: 0 <= n < |script| && EndsAt(avail, script, n)
  }

  predicate EndsAt(avail: nat, script: seq<ReadResult>, n: nat)
  {
    && n < |script| && (script[n].AtEnd? || script[n] == Got([]))
    && (forall i :: 0 <= i < n ==> script[i].Got? && script[i].data != [])
    && |Brought(script[..n])| < avail
  }

  lemma EndsLater(avail: nat, script: seq<ReadResult>, n: nat)
    requires script != [] && script[0].Got? && script[0].data != [] && 0 < n < |script|
    ensures |script[0].data| < avail && EndsAt(avail - |script[0].data|, script[1..], n - 1) <==> EndsAt(avail, script, n)
  {
    assert script[..n][1..] == script[1..][..n - 1];
  }

  lemma EndsShift(avail: nat, script: seq<ReadResult>)
    requires script != [] && script[0].Got? && script[0].data != [] && |script[0].data| < avail
    ensures ReadEnds(avail, script) <==> ReadEnds(avail - |script[0].data|, script[1..])
  {
    var a := avail - |script[0].data|;
    if n :| 0 <= n < |script| && EndsAt(avail, script, n) {
      EndsLater(avail, script, n);
      assert EndsAt(a, script[1..], n - 1);
    }
    if n :| 0 <= n < |script[1..]| && EndsAt(a, script[1..], n) {
      EndsLater(avail, script, n + 1);
      assert EndsAt(avail, script, n + 1);
    }
  }

  /**
   What is read, from the results of the calls alone: the bytes the leading calls brought, up to
   `avail`; and end of file exactly when such calls are followed by one, before the buffer is full.
   EAGAIN is never end of file.
   */
  lemma {:induction false} PullExactly(avail: nat, script: seq<ReadResult>)
    ensures Pull(avail, script).data == Brought(script)[..Min(avail, |Brought(script)|)]
    ensures Pull(avail, script).eof <==> ReadEnds(avail, script)
    decreases |script|
  {
    if avail > 0 && script != [] {
      if script[0].Got? && script[0].data != [] {
        var d := script[0].data;
        forall n | 0 < n < |script| ensures |d| < avail && EndsAt(avail - |d|, script[1..], n - 1) <==> EndsAt(avail, script, n) {
          EndsLater(avail, script, n);
        }
        if |d| < avail {
          PullExactly(avail - |d|, script[1..]);
          EndsShift(avail, script);
        }
      } else {
        assert EndsAt(avail, script, 0) <==> !script[0].NothingYet? by { assert script[..0] == []; }
      }
    }
  }
}
