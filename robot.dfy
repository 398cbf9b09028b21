/** The program's shared state and the loop bodies of its threads, each as one
    sequential step on that state. The serial line is the sequence of bytes
    written to it so far. */
module Robot {
  import opened Protocol
  import opened Telemetry
  import opened Decision
  import opened Classifier
  import opened CommandLine
  import CString
  import Status

  class Robot {
    /** GLOBAL_SPEED, GLOBAL_MODE and the three GLOBAL_SENSOR_* distances. */
    var speed: byte
    var mode: byte
    var left: byte
    var right: byte
    var center: byte
    /** GLOBAL_WANTED_DIRECTION. */
    var wanted: int
    /** Every byte written to `tty_fd`, oldest first. */
    var tty: seq<byte>

    /** The globals as a value. */
    function Snap(): Snapshot
      reads this
    {
      Snapshot(speed, mode, left, right, center, wanted)
    }

    /** Every global starts at 0 and nothing has been sent. */
    constructor ()
      ensures Snap() == Initial && tty == []
    {
      speed, mode, left, right, center, wanted := 0, 0, 0, 0, 0, 0;
      tty := [];
    }

    /** `send_command`: the opcode byte, then the value byte. */
    method SendCommand(cmd: byte, val: byte)
      modifies this
      ensures tty == old(tty) + [cmd, val]
      ensures Snap() == old(Snap())
    {
      tty := tty + [cmd, val];
    }

    /** What `IntelThreadProc` sends before its loop. */
    method Start()
      modifies this
      ensures tty == old(tty) + Encode([StartFrame])
      ensures Snap() == old(Snap())
    {
      SendCommand(CmdChangeState, StateOrders);
    }

    /** One iteration of the loop of `IntelThreadProc`. */
    method DecisionTick()
      modifies this
      ensures tty == old(tty) + Encode(TickFrames(old(Snap())))
      ensures Snap() == old(Snap())
    {
      ghost var frames := TickFrames(Snap());
      if wanted == -1 {
        SendCommand(CmdChangeState, StateDance);
        SendCommand(CmdChangeState, StateOrders);
        assert Encode(frames) == [CmdChangeState, StateDance, CmdChangeState, StateOrders];
      } else if ObstacleDistance > center {
        SendCommand(CmdSpeed, 0);
        SendCommand(CmdSpeed, CruiseSpeed);
        SendCommand(CmdHardTurn, TurnLeft);
        SendCommand(CmdHardTurn, TurnNone);
        var rest := [(CmdHardTurn, TurnLeft), (CmdHardTurn, TurnNone)];
        assert frames == [(CmdSpeed, 0)] + ([(CmdSpeed, CruiseSpeed)] + rest);
        EncodeCons((CmdSpeed, 0), [(CmdSpeed, CruiseSpeed)] + rest);
        EncodeCons((CmdSpeed, CruiseSpeed), rest);
      } else if SideDistance > left || wanted == 3 {
        SendCommand(CmdSoftTurn, TurnRight);
      } else if SideDistance > right || wanted == 1 {
        SendCommand(CmdSoftTurn, TurnLeft);
      } else {
        SendCommand(CmdHardTurn, TurnNone);
        SendCommand(CmdSpeed, CruiseSpeed);
        SendCommand(CmdSetDirection, MoveForward);
        var rest := [(CmdSpeed, CruiseSpeed), (CmdSetDirection, MoveForward)];
        assert frames == [(CmdHardTurn, TurnNone)] + rest;
        EncodeCons((CmdHardTurn, TurnNone), rest);
      }
    }

    /** One `read(tty_fd, &comm, 1)` into `comm`: with nothing left to read,
        `comm` keeps what it held. */
    static method Read(bytes: seq<byte>, i: nat, comm: byte) returns (c: byte, next: nat)
      ensures i < |bytes| ==> c == bytes[i] && next == i + 1
      ensures i >= |bytes| ==> c == comm && next == i
    {
      if i < |bytes| {
        c, next := bytes[i], i + 1;
      } else {
        c, next := comm, i;
      }
    }

    /** The loop of `CommThreadProc` over the bytes that arrive: each opcode
        of a distance or of the mode reads the next byte into its global. */
    method Receive(bytes: seq<byte>)
      modifies this
      ensures Snap() == Ingest(old(Snap()), bytes)
      ensures tty == old(tty)
    {
      var i := 0;
      while i < |bytes|
        invariant 0 <= i <= |bytes|
        invariant Ingest(old(Snap()), bytes) == Ingest(Snap(), bytes[i..])
        invariant tty == old(tty)
      {
        ghost var s0, i0 := Snap(), i;
        assert bytes[i0..][1..] == bytes[i0 + 1..];
        var comm := bytes[i];
        i := i + 1;
        if comm == CmdDistLeft {
          comm, i := Read(bytes, i, comm);
          left := comm;
        } else if comm == CmdDistRight {
          comm, i := Read(bytes, i, comm);
          right := comm;
        } else if comm == CmdDistCenter {
          comm, i := Read(bytes, i, comm);
          center := comm;
        } else if comm == CmdTeensyMode {
          comm, i := Read(bytes, i, comm);
          mode := comm;
        }
        if IsIngressOpcode(bytes[i0]) && i0 + 1 < |bytes| {
          assert bytes[i0..][2..] == bytes[i0 + 2..];
        }
      }
    }

    /** One pass of the frame loop of `CameraThreadProc`: count, classify, copy
        the verdict's text into `direction` and store the wanted direction. */
    method Perceive(data: array<byte>, g: Geometry, direction: array<char>) returns (v: Verdict)
      requires Fits(g, data.Length) && direction.Length == 10
      modifies this, direction
      ensures v == FrameVerdict(data[..], g)
      ensures Snap() == old(Snap()).(wanted := WantedDirection(v))
      ensures tty == old(tty)
      ensures direction[..|TtyLabel(v)| + 1] == TtyLabel(v) + ['\0']
      ensures direction[|TtyLabel(v)| + 1..] == old(direction[|TtyLabel(v)| + 1..])
    {
      v := Classifier.Perceive(data, g);
      CString.Strcpy(direction, TtyLabel(v));
      wanted := WantedDirection(v);
    }

    /** One token of `CmdThreadProc`, held as a C string in `input`: the first
        colon is overwritten with a terminator, the command is looked up and,
        when the value checks out, the frame is sent. */
    method Command(input: array<char>, len: nat) returns (o: Outcome)
      requires len < input.Length && input[len] == '\0'
      requires forall k :: 0 <= k < len ==> input[k] != '\0'
      modifies this, input
      ensures o == Interpret(old(input[..len]))
      ensures input[..] == if ':' in old(input[..len]) then old(input[..])[|Split(old(input[..len])).0| := '\0']
                           else old(input[..])
      ensures o.Send? ==> tty == old(tty) + [o.cmd, o.val]
      ensures !o.Send? ==> tty == old(tty)
      ensures Snap() == old(Snap())
    {
      var name, value := SplitToken(input, len);
      var cmd := GetIdFromName(Some(name), Commands);
      if cmd == Unknown {
        o := UnknownCommand;
      } else {
        o := Switch(cmd, value);
        if o.Send? {
          SendCommand(o.cmd, o.val);
        }
      }
    }

    /** The formatting part of one iteration of `BTThreadProc`, with the
        corrected report and a buffer large enough for it. */
    method Broadcast(sendbuffer: array<char>)
      requires sendbuffer.Length == Status.MaxStatusLength + 1
      modifies sendbuffer
      ensures sendbuffer[..|Status.StatusMessage(Snap())|] == Status.StatusMessage(Snap())
      ensures forall k :: |Status.StatusMessage(Snap())| <= k < sendbuffer.Length ==> sendbuffer[k] == '\0'
    {
      Status.FormatStatus(sendbuffer, Snap());
    }
  }
}
