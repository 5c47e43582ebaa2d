/** The class of core/adb/shell_service.cpp that runs the pump of module ShellService. */
module ShellSubprocess {
  import opened Base
  import opened Descriptors
  import opened AdbIo
  import opened Shell
  import S = ShellService

  class Subprocess {
    const input: ShellProtocol
    const raw: bool
    var inputLeft: nat            // input_bytes_left_
    var protocolOpen: bool
    var stdinOpen: bool
    var stderrOpen: bool
    var protocolInRead: bool
    var stdinInWrite: bool
    var stdin: bytes

    ghost predicate Valid()
      reads this, input
    {
      inputLeft <= |input.data|
    }

    ghost function Value(): S.Pump
      requires Valid()
      reads this, input, input.source
    {
      S.Pump(if protocolOpen then Some(S.Input(input.id, input.bytesLeft, input.source.rest)) else None,
             input.data[|input.data| - inputLeft..], stdin, stdinOpen, stderrOpen, protocolInRead, stdinInWrite)
    }

    constructor (input: ShellProtocol, raw: bool)
      requires input.data == [] && input.id == ID_INVALID && input.bytesLeft == 0
      ensures Valid() && this.input == input && this.raw == raw && Value() == S.Start(input.source.rest)
    {
      this.input, this.raw := input, raw;
      inputLeft, stdin := 0, [];
      protocolOpen, stdinOpen, stderrOpen, protocolInRead, stdinInWrite := true, true, true, true, false;
    }

    method NextInput(shutdownFails: bool) returns (dead: S.Dead)
      requires Valid() && protocolOpen && inputLeft == 0
      modifies this`inputLeft, this`protocolOpen, input, input.source
      ensures Valid() && S.Pumped(Value(), dead) == S.NextInput(old(Value()), input.capacity, raw, shutdownFails)
    {
      assert input.data[|input.data|..] == [];
      var ok := input.Read();
      if !ok {
        // PassDataStreams closes the descriptor
        protocolOpen := false;
        assert input.data[|input.data|..] == [];
        return S.Protocol;
      }
      assert input.data[0..] == input.data && input.data[|input.data|..] == [];
      if stdinOpen {
        if input.id == ID_STDIN {
          inputLeft := |input.data|;
        } else if input.id == ID_CLOSE_STDIN && raw && shutdownFails {
          return S.StdInOut;
        }
      }
      dead := S.Nobody;
    }

    method WriteInput(write: WriteResult) returns (dead: S.Dead)
      requires Valid() && inputLeft > 0
      modifies this`inputLeft, this`stdin
      ensures Valid() && S.Pumped(Value(), dead) == S.WriteInput(old(Value()), write)
    {
      var index := |input.data| - inputLeft;
      assert input.data[|input.data|..] == [];
      match write
      case WouldBlock => dead := S.Nobody;
      case Broken => inputLeft, dead := 0, S.StdInOut;
      case Took(count) =>
        var n := Min(count, inputLeft);
        if n == 0 {
          inputLeft, dead := 0, S.StdInOut;
        } else {
          assert input.data[index..][..n] == input.data[index..index + n] && input.data[index..][n..] == input.data[index + n..];
          stdin, inputLeft, dead := stdin + input.data[index..index + n], inputLeft - n, S.Nobody;
        }
    }

    method PassInput(write: WriteResult, shutdownFails: bool) returns (dead: S.Dead)
      requires Valid() && protocolOpen
      modifies this`inputLeft, this`protocolOpen, this`stdin, input, input.source
      ensures Valid() && S.Pumped(Value(), dead) == S.PassInput(old(Value()), input.capacity, raw, write, shutdownFails)
    {
      dead := S.Nobody;
      if inputLeft == 0 {
        dead := NextInput(shutdownFails);
      }
      if dead.Nobody? && inputLeft > 0 {
        dead := WriteInput(write);
      }
    }

    method PassOutputs(r: S.Round) returns (dead: S.Dead)
      requires Valid() && r.Ready?
      ensures dead == S.PassOutputs(Value(), r)
    {
      dead := S.Nobody;
      if stdinOpen && r.stdoutReadable && !r.out.Passed? {
        dead := if r.out.PipeClosed? then S.StdInOut else S.Protocol;
      }
      if dead.Nobody? && stderrOpen && r.stderrReadable && !r.err.Passed? {
        dead := if r.err.PipeClosed? then S.StdErr else S.Protocol;
      }
    }

    /** The two branches of SelectLoop that call PassInput. */
    method ReadProtocol(r: S.Round) returns (dead: S.Dead)
      requires Valid() && protocolOpen && r.Ready?
      modifies this, input, input.source
      ensures Valid() && S.Pumped(Value(), dead) == S.ReadProtocol(old(Value()), input.capacity, raw, r)
    {
      dead := PassInput(r.write, r.shutdownFails);
      if inputLeft > 0 {
        protocolInRead, stdinInWrite := false, true;
      }
    }

    method ContinueStdin(r: S.Round) returns (dead: S.Dead)
      requires Valid() && protocolOpen && r.Ready?
      modifies this, input, input.source
      ensures Valid() && S.Pumped(Value(), dead) == S.ContinueStdin(old(Value()), input.capacity, raw, r)
    {
      dead := PassInput(r.write, r.shutdownFails);
      if inputLeft == 0 {
        protocolInRead, stdinInWrite := true, false;
      }
    }

    /** One iteration of SelectLoop. */
    method SelectOnce(r: S.Round) returns (dead: S.Dead)
      requires Valid() && protocolOpen && r.Ready?
      modifies this, input, input.source
      ensures Valid() && S.Pumped(Value(), dead) == S.SelectOnce(old(Value()), input.capacity, raw, r)
    {
      var readable := protocolInRead && r.protocolReadable;
      var writable := stdinOpen && stdinInWrite && r.stdinWritable;
      dead := PassOutputs(r);
      if !dead.Nobody? { return; }
      if readable {
        dead := ReadProtocol(r);
      }
      if dead.Nobody? && protocolOpen && writable {
        dead := ContinueStdin(r);
      }
    }

    method CloseDead(dead: S.Dead)
      requires Valid()
      modifies this
      ensures Valid() && Value() == S.CloseDead(old(Value()), dead)
    {
      match dead
      case Nobody =>
      case StdInOut => stdinOpen, stdinInWrite := false, false;
      case StdErr => stderrOpen := false;
      case Protocol => stdinOpen, stderrOpen, protocolOpen, protocolInRead := false, false, false, false;
    }

    /** `PassDataStreams` with `SelectLoop`, watched until the script ends. */
    method PassDataStreams(rounds: seq<S.Round>)
      requires Valid()
      modifies this, input, input.source
      ensures Valid() && Value() == S.Run(old(Value()), input.capacity, raw, rounds)
    {
      for i := 0 to |rounds|
        invariant Valid() && S.Run(old(Value()), input.capacity, raw, rounds) == S.Run(Value(), input.capacity, raw, rounds[i..])
      {
        assert rounds[i..][0] == rounds[i] && rounds[i..][1..] == rounds[i + 1..];
        Pass(rounds[i]);
      }
    }

    method Pass(r: S.Round)
      requires Valid()
      modifies this, input, input.source
      ensures Valid() && Value() == S.Step(old(Value()), input.capacity, raw, r)
    {
      if !protocolOpen || (!stdinOpen && !stderrOpen) || r.Interrupted? { return; }
      if r.SelectFailed? {
        stdinOpen, stderrOpen := false, false;
      } else {
        var dead := SelectOnce(r);
        CloseDead(dead);
      }
    }
  }

  /** The pump on a byte stream that arrives cut in any way. */
  method Pump(wire: bytes, capacity: nat, cuts: seq<nat>, raw: bool, rounds: seq<S.Round>) returns (stdin: bytes, left: nat)
    requires capacity > 0
    ensures var p := S.Run(S.Start(wire), capacity, raw, rounds); stdin == p.stdin && left == |p.pending|
  {
    var source := new Source(wire, cuts);
    var input := new ShellProtocol(source, capacity);
    var child := new Subprocess(input, raw);
    child.PassDataStreams(rounds);
    stdin, left := child.stdin, child.inputLeft;
    ghost var p := child.Value();
    assert p.stdin == stdin && |p.pending| == left;
  }

  /** The same for a stream of packets: nothing but stdin packets reaches the child, in order. */
  method Serve(packets: seq<Packet>, capacity: nat, cuts: seq<nat>, raw: bool, rounds: seq<S.Round>) returns (stdin: bytes, left: nat)
    requires capacity > 0 && forall i :: 0 <= i < |packets| ==> Fits(packets[i])
    ensures var p := S.Run(S.Start(EncodeAll(packets)), capacity, raw, rounds); stdin == p.stdin && left == |p.pending|
    ensures stdin <= StdinOf(packets)
  {
    stdin, left := Pump(EncodeAll(packets), capacity, cuts, raw, rounds);
    S.StdinIsPrefix(packets, capacity, raw, rounds);
  }
}
