/**
 The data pump of core/adb/shell_service.cpp: packets from the protocol descriptor are written
 to the child's stdin, which may take only part of one or block. Which descriptors select
 reports, and what reads and writes of the child's pipes do, is a script.
 */
module ShellService {
  import opened Base
  import opened Descriptors
  import opened AdbIo
  import opened Shell

  /** What PassOutput comes back with: data passed, the child's pipe closed, or the protocol descriptor closed. */
  datatype Output = Passed | PipeClosed | ProtocolClosed

  /** One round of select, and the outcome of every call that may follow it. */
  datatype Round =
    | Interrupted
    | SelectFailed
    | Ready(stdoutReadable: bool, stderrReadable: bool, protocolReadable: bool, stdinWritable: bool,
            out: Output, err: Output, write: WriteResult, shutdownFails: bool)

  /** The descriptor that died, if any. */
  datatype Dead = Nobody | Protocol | StdInOut | StdErr

  /** The reader of the protocol descriptor: the packet it is in and what is still to be read. */
  datatype Input = Input(id: byte, bytesLeft: nat, rest: bytes)

  /**
   `input` is None once the protocol descriptor is closed. `pending` is the part of the last packet
   that stdin has not taken (input_bytes_left_ is its length), `stdin` what it was given; the last
   two say whether the protocol descriptor is in the master read set and stdin in the master write
   set.
   */
  datatype Pump = Pump(
    input: Option<Input>, pending: bytes, stdin: bytes,
    stdinOpen: bool, stderrOpen: bool, protocolInRead: bool, stdinInWrite: bool)

  datatype Pumped = Pumped(pump: Pump, dead: Dead)

  // ----- one call -----

  /** The part of PassInput that starts on a new packet. */
  function NextInput(p: Pump, capacity: nat, raw: bool, shutdownFails: bool): Pumped
    requires p.input.Some?
  {
    match ReadChunk(p.input.value.id, p.input.value.bytesLeft, p.input.value.rest, capacity)
    case End => Pumped(p.(input := None), Protocol)
    case Chunk(id, data, left, rest) =>
      var p1 := p.(input := Some(Input(id, left, rest)), pending := if p.stdinOpen && id == ID_STDIN then data else []);
      Pumped(p1, if p.stdinOpen && id == ID_CLOSE_STDIN && raw && shutdownFails then StdInOut else Nobody)
  }

  /** The part of PassInput that writes: a failed write drops what was left of the packet. */
  function WriteInput(p: Pump, write: WriteResult): Pumped
  {
    match write
    case WouldBlock => Pumped(p, Nobody)
    case Broken => Pumped(p.(pending := []), StdInOut)
    case Took(n) =>
      var k := Min(n, |p.pending|);
      if k == 0 then Pumped(p.(pending := []), StdInOut)
      else Pumped(p.(pending := p.pending[k..], stdin := p.stdin + p.pending[..k]), Nobody)
  }

  /** `PassInput`: a new packet only when the last one is finished. */
  function PassInput(p: Pump, capacity: nat, raw: bool, write: WriteResult, shutdownFails: bool): Pumped
    requires p.input.Some?
  {
    var n := if p.pending == [] then NextInput(p, capacity, raw, shutdownFails) else Pumped(p, Nobody);
    if n.dead.Nobody? && n.pump.pending != [] then WriteInput(n.pump, write) else n
  }

  /** PassOutput on the two pipes. */
  function PassOutputs(p: Pump, r: Round): Dead
    requires r.Ready?
  {
    if p.stdinOpen && r.stdoutReadable && !r.out.Passed? then if r.out.PipeClosed? then StdInOut else Protocol
    else if p.stderrOpen && r.stderrReadable && !r.err.Passed? then if r.err.PipeClosed? then StdErr else Protocol
    else Nobody
  }

  /** The protocol descriptor is readable: if stdin does not take everything, wait for it instead. */
  function ReadProtocol(p: Pump, capacity: nat, raw: bool, r: Round): Pumped
    requires p.input.Some? && r.Ready?
  {
    var n := PassInput(p, capacity, raw, r.write, r.shutdownFails);
    if n.pump.pending != [] then n.(pump := n.pump.(protocolInRead := false, stdinInWrite := true)) else n
  }

  /** stdin is writable again: once everything is written, go back to the protocol descriptor. */
  function ContinueStdin(p: Pump, capacity: nat, raw: bool, r: Round): Pumped
    requires p.input.Some? && r.Ready?
  {
    var n := PassInput(p, capacity, raw, r.write, r.shutdownFails);
    if n.pump.pending == [] then n.(pump := n.pump.(protocolInRead := true, stdinInWrite := false)) else n
  }

  /** One iteration of SelectLoop, with the descriptor sets as they were before it. */
  function SelectOnce(p: Pump, capacity: nat, raw: bool, r: Round): Pumped
    requires p.input.Some? && r.Ready?
  {
    var dead := PassOutputs(p, r);
    if !dead.Nobody? then Pumped(p, dead)
    else
      var n := if p.protocolInRead && r.protocolReadable then ReadProtocol(p, capacity, raw, r) else Pumped(p, Nobody);
      if n.dead.Nobody? && n.pump.input.Some? && p.stdinOpen && p.stdinInWrite && r.stdinWritable then
        ContinueStdin(n.pump, capacity, raw, r)
      else n
  }

  /** What PassDataStreams does about a dead descriptor. */
  function CloseDead(p: Pump, dead: Dead): Pump
  {
    match dead
    case Nobody => p
    case StdInOut => p.(stdinOpen := false, stdinInWrite := false)
    case StdErr => p.(stderrOpen := false)
    case Protocol => p.(input := None, stdinOpen := false, stderrOpen := false, protocolInRead := false)
  }

  /** One round of PassDataStreams, which stops when the protocol descriptor or both pipes are closed. */
  function Step(p: Pump, capacity: nat, raw: bool, r: Round): Pump
  {
    if p.input.None? || (!p.stdinOpen && !p.stderrOpen) || r.Interrupted? then p
    else if r.SelectFailed? then p.(stdinOpen := false, stderrOpen := false)
    else var n := SelectOnce(p, capacity, raw, r); CloseDead(n.pump, n.dead)
  }

  // ----- what is kept -----

  /** The protocol descriptor is watched exactly when no input is left to write, stdin exactly when some is. */
  predicate Watching(p: Pump)
  {
    && (p.input.Some? ==> (p.protocolInRead <==> p.pending == []))
    && (p.input.Some? && p.stdinOpen ==> (p.stdinInWrite <==> p.pending != []))
  }

  function Ahead(i: Input, capacity: nat): seq<Packet>
    requires capacity > 0
  {
    ReadAll(i.id, i.bytesLeft, i.rest, capacity)
  }

  /** What stdin has had, what is left of the last packet, and what the stream still holds for it are `whole`. */
  predicate Conserves(p: Pump, capacity: nat, whole: bytes)
    requires capacity > 0 && p.input.Some?
  {
    p.stdin + p.pending + StdinOf(Ahead(p.input.value, capacity)) == whole
  }

  predicate Inv(p: Pump, capacity: nat, whole: bytes)
    requires capacity > 0
  {
    Watching(p) && p.stdin <= whole && (p.input.Some? && p.stdinOpen ==> Conserves(p, capacity, whole))
  }

  lemma NextReads(p: Pump, capacity: nat, raw: bool, shutdownFails: bool)
    requires p.input.Some? && p.stdinOpen
    ensures var c := ReadChunk(p.input.value.id, p.input.value.bytesLeft, p.input.value.rest, capacity);
            var n := NextInput(p, capacity, raw, shutdownFails).pump;
            && (n.input.Some? ==> c.Chunk?)
            && (c.Chunk? ==> n.input == Some(Input(c.id, c.left, c.rest)) && n.stdin == p.stdin &&
                             n.pending == if c.id == ID_STDIN then c.data else [])
  {
  }

  lemma MoveBytes(a: bytes, b: bytes, c: bytes)
    ensures a + [] + (b + c) == a + b + c
  {
  }

  /** Reading the next packet moves it from the stream to what is left to write. */
  lemma NextConserves(p: Pump, capacity: nat, whole: bytes, raw: bool, shutdownFails: bool)
    requires capacity > 0 && p.input.Some? && p.stdinOpen && p.pending == [] && Conserves(p, capacity, whole)
    ensures var n := NextInput(p, capacity, raw, shutdownFails).pump; n.input.Some? ==> Conserves(n, capacity, whole)
  {
    var i, n := p.input.value, NextInput(p, capacity, raw, shutdownFails).pump;
    NextReads(p, capacity, raw, shutdownFails);
    if n.input.Some? {
      var c := ReadChunk(i.id, i.bytesLeft, i.rest, capacity);
      var later := Ahead(n.input.value, capacity);
      AheadStep(i, capacity);
      StdinFirst(Packet(c.id, c.data), later);
      MoveBytes(p.stdin, n.pending, StdinOf(later));
    }
  }

  lemma AheadStep(i: Input, capacity: nat)
    requires capacity > 0
    ensures var c := ReadChunk(i.id, i.bytesLeft, i.rest, capacity);
            c.Chunk? ==> Ahead(i, capacity) == [Packet(c.id, c.data)] + ReadAll(c.id, c.left, c.rest, capacity)
  {
  }

  lemma StdinFirst(p: Packet, rest: seq<Packet>)
    ensures StdinOf([p] + rest) == (if p.id == ID_STDIN then p.data else []) + StdinOf(rest)
  {
    assert ([p] + rest)[1..] == rest;
  }

  /** A write moves bytes from what is left to stdin, unless it fails. */
  lemma WriteMoves(p: Pump, write: WriteResult)
    ensures var w := WriteInput(p, write);
            && w.pump == p.(pending := w.pump.pending, stdin := w.pump.stdin)
            && (w.dead.Nobody? ==> w.pump.stdin + w.pump.pending == p.stdin + p.pending)
            && w.pump.stdin <= p.stdin + p.pending && (w.dead.Nobody? || (w.dead.StdInOut? && w.pump.pending == []))
            && (write.WouldBlock? ==> w == Pumped(p, Nobody))
            && (p.pending != [] ==> (w.dead.StdInOut? <==> write.Broken? || write == Took(0)))
  {
    if write.Took? {
      var k := Min(write.count, |p.pending|);
      assert p.pending == p.pending[..k] + p.pending[k..];
    }
  }

  // ----- who dies, and of what -----

  /** The packet that the round would start on, if any. */
  function Starting(p: Pump, capacity: nat, r: Round): Option<Read>
    requires p.input.Some? && r.Ready?
  {
    if p.pending == [] && ((p.protocolInRead && r.protocolReadable) || (p.stdinOpen && p.stdinInWrite && r.stdinWritable)) then
      Some(ReadChunk(p.input.value.id, p.input.value.bytesLeft, p.input.value.rest, capacity))
    else None
  }

  /** Nothing went wrong: output passed, stdin took something or was full, and the packet to start on is whole. */
  predicate Calm(p: Pump, capacity: nat, raw: bool, r: Round)
    requires p.input.Some?
  {
    && r.Ready?
    && (p.stdinOpen && r.stdoutReadable ==> r.out.Passed?) && (p.stderrOpen && r.stderrReadable ==> r.err.Passed?)
    && (r.write.WouldBlock? || (r.write.Took? && r.write.count > 0))
    && (Starting(p, capacity, r).Some? ==>
          var c := Starting(p, capacity, r).value; c.Chunk? && !(c.id == ID_CLOSE_STDIN && raw && r.shutdownFails))
  }

  /** No descriptor is closed in a round in which nothing goes wrong; a full stdin closes nothing. */
  lemma NobodyDiesCalmly(p: Pump, capacity: nat, raw: bool, r: Round)
    requires p.input.Some? && Watching(p) && Calm(p, capacity, raw, r)
    ensures var p' := Step(p, capacity, raw, r);
            p'.input.Some? && p'.stdinOpen == p.stdinOpen && p'.stderrOpen == p.stderrOpen
  {
  }

  /**
   When the child closes stdout, its stdin goes too and nothing else; when it closes stderr, only
   stderr goes; and when the other end is gone, or has sent half a packet, everything goes.
   */
  lemma WhoDies(p: Pump, capacity: nat, raw: bool, r: Round)
    requires p.input.Some? && p.stdinOpen && p.stderrOpen && r.Ready?
    ensures var p' := Step(p, capacity, raw, r);
            && (r.stdoutReadable && r.out.PipeClosed? ==> p'.input == p.input && !p'.stdinOpen && p'.stderrOpen)
            && (r.stderrReadable && r.err.PipeClosed? && (r.stdoutReadable ==> r.out.Passed?) ==>
                  p'.input == p.input && p'.stdinOpen && !p'.stderrOpen)
            && ((r.stdoutReadable && r.out.ProtocolClosed?) || (r.stderrReadable && r.err.ProtocolClosed? && (r.stdoutReadable ==> r.out.Passed?)) ==>
                  p'.input.None? && !p'.stdinOpen && !p'.stderrOpen)
            && ((r.stdoutReadable ==> r.out.Passed?) && (r.stderrReadable ==> r.err.Passed?) && p.pending == [] &&
                p.protocolInRead && r.protocolReadable && Starting(p, capacity, r).value.End? ==>
                  p'.input.None? && !p'.stdinOpen && !p'.stderrOpen)
  {
  }

  lemma PassInputKeeps(p: Pump, capacity: nat, whole: bytes, raw: bool, write: WriteResult, shutdownFails: bool)
    requires capacity > 0 && p.input.Some? && p.stdinOpen && Conserves(p, capacity, whole)
    ensures var r := PassInput(p, capacity, raw, write, shutdownFails);
            && r.pump.stdin <= whole && (r.dead.Nobody? ==> r.pump.input.Some? && Conserves(r.pump, capacity, whole))
  {
    var n := if p.pending == [] then NextInput(p, capacity, raw, shutdownFails) else Pumped(p, Nobody);
    if p.pending == [] { NextConserves(p, capacity, whole, raw, shutdownFails); }
    WriteMoves(n.pump, write);
  }

  lemma NextShape(p: Pump, capacity: nat, raw: bool, shutdownFails: bool)
    requires p.input.Some? && p.pending == []
    ensures var n := NextInput(p, capacity, raw, shutdownFails);
            && n.pump == p.(input := n.pump.input, pending := n.pump.pending)
            && (n.pump.input.None? <==> n.dead.Protocol?) && !n.dead.StdErr?
            && (n.pump.pending != [] ==> p.stdinOpen && n.dead.Nobody?)
  {
  }

  /** What PassInput leaves alone, and what a death means. */
  lemma PassInputShape(p: Pump, capacity: nat, raw: bool, write: WriteResult, shutdownFails: bool)
    requires p.input.Some? && (p.pending != [] ==> p.stdinOpen)
    ensures var r := PassInput(p, capacity, raw, write, shutdownFails);
            && r.pump == p.(input := r.pump.input, pending := r.pump.pending, stdin := r.pump.stdin)
            && (r.pump.input.None? <==> r.dead.Protocol?) && !r.dead.StdErr?
            && (r.pump.pending != [] ==> p.stdinOpen && r.dead.Nobody?)
            && (!p.stdinOpen ==> r.pump.stdin == p.stdin)
  {
    var n := if p.pending == [] then NextInput(p, capacity, raw, shutdownFails) else Pumped(p, Nobody);
    if p.pending == [] { NextShape(p, capacity, raw, shutdownFails); }
    WriteMoves(n.pump, write);
  }

  /** At most one of the two calls is made, since only one of the two descriptors is watched. */
  lemma SelectShape(p: Pump, capacity: nat, raw: bool, r: Round)
    requires p.input.Some? && r.Ready? && Watching(p)
    ensures var n := SelectOnce(p, capacity, raw, r);
            if !PassOutputs(p, r).Nobody? then n == Pumped(p, PassOutputs(p, r))
            else if p.protocolInRead && r.protocolReadable then n == ReadProtocol(p, capacity, raw, r)
            else if p.stdinOpen && p.stdinInWrite && r.stdinWritable then n == ContinueStdin(p, capacity, raw, r)
            else n == Pumped(p, Nobody)
  {
  }

  lemma SelectKeeps(p: Pump, capacity: nat, whole: bytes, raw: bool, r: Round)
    requires capacity > 0 && Inv(p, capacity, whole) && p.input.Some? && r.Ready?
    ensures var n := SelectOnce(p, capacity, raw, r);
            && Watching(n.pump) && n.pump.stdin <= whole && n.pump.stdinOpen == p.stdinOpen
            && (n.dead.Nobody? || n.dead.StdErr? ==> n.pump.input.Some?)
            && (p.stdinOpen && (n.dead.Nobody? || n.dead.StdErr?) ==> Conserves(n.pump, capacity, whole))
  {
    SelectShape(p, capacity, raw, r);
    if p.pending != [] ==> p.stdinOpen {
      PassInputShape(p, capacity, raw, r.write, r.shutdownFails);
    }
    if p.stdinOpen { PassInputKeeps(p, capacity, whole, raw, r.write, r.shutdownFails); }
  }

  lemma StepInv(p: Pump, capacity: nat, whole: bytes, raw: bool, r: Round)
    requires capacity > 0 && Inv(p, capacity, whole)
    ensures Inv(Step(p, capacity, raw, r), capacity, whole)
  {
    if p.input.Some? && r.Ready? { SelectKeeps(p, capacity, whole, raw, r); }
  }

  function Run(p: Pump, capacity: nat, raw: bool, rounds: seq<Round>): Pump
    decreases |rounds|
  {
    if rounds == [] then p else Run(Step(p, capacity, raw, rounds[0]), capacity, raw, rounds[1..])
  }

  lemma {:induction false} RunInv(p: Pump, capacity: nat, whole: bytes, raw: bool, rounds: seq<Round>)
    requires capacity > 0 && Inv(p, capacity, whole)
    ensures Inv(Run(p, capacity, raw, rounds), capacity, whole)
    decreases |rounds|
  {
    if rounds != [] {
      StepInv(p, capacity, whole, raw, rounds[0]);
      RunInv(Step(p, capacity, raw, rounds[0]), capacity, whole, raw, rounds[1..]);
    }
  }

  function Start(stream: bytes): Pump
  {
    Pump(Some(Input(ID_INVALID, 0, stream)), [], [], true, true, true, false)
  }

  /** Everything read and written: the stream is used up and nothing is left over. */
  predicate Finished(p: Pump)
  {
    p.input.Some? && p.stdinOpen && p.pending == [] && p.input.value.rest == [] && p.input.value.bytesLeft == 0
  }

  /**
   From packets to stdin: whatever the capacity of the reader, whatever select reports and stdin
   takes, the child's stdin gets a prefix of the stdin payloads, and all of them once everything is
   read and written; and the protocol descriptor is watched exactly when no input is left.
   */
  lemma StdinIsPrefix(packets: seq<Packet>, capacity: nat, raw: bool, rounds: seq<Round>)
    requires capacity > 0 && forall i :: 0 <= i < |packets| ==> Fits(packets[i])
    ensures var p := Run(Start(EncodeAll(packets)), capacity, raw, rounds);
            && p.stdin <= StdinOf(packets) && Watching(p)
            && (Finished(p) ==> p.stdin == StdinOf(packets))
  {
    var s, whole := Start(EncodeAll(packets)), StdinOf(packets);
    ReadsArePieces(ID_INVALID, packets, capacity);
    StdinPieces(packets, capacity);
    assert [] + [] + whole == whole;
    RunInv(s, capacity, whole, raw, rounds);
    var p := Run(s, capacity, raw, rounds);
    if Finished(p) {
      assert Ahead(p.input.value, capacity) == [];
      assert p.stdin + [] + [] == p.stdin;
    }
  }

  // ----- the end -----

  predicate Over(p: Pump)
  {
    p.input.None? || (!p.stdinOpen && !p.stderrOpen)
  }

  /** Once the protocol descriptor or both pipes are closed nothing more is passed on. */
  lemma {:induction false} OverForGood(p: Pump, capacity: nat, raw: bool, rounds: seq<Round>)
    requires Over(p)
    ensures Run(p, capacity, raw, rounds) == p
    decreases |rounds|
  {
    if rounds != [] { OverForGood(p, capacity, raw, rounds[1..]); }
  }

  /** An interrupted select changes nothing; a failed one ends the pump, with stdin as it is. */
  lemma SelectTrouble(p: Pump, capacity: nat, raw: bool)
    ensures Step(p, capacity, raw, Interrupted) == p
    ensures var p' := Step(p, capacity, raw, SelectFailed); Over(p') && p'.stdin == p.stdin
  {
  }
}
