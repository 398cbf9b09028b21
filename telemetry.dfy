/** The shared state of the program (its GLOBAL_* variables) and the ingress
    decoder that the serial-reading thread runs over the bytes it receives. */
module Telemetry {
  import opened Protocol

  /** GLOBAL_SPEED, GLOBAL_MODE, GLOBAL_SENSOR_LEFT/RIGHT/CENTER and
      GLOBAL_WANTED_DIRECTION. All but the last only ever hold a received byte
      or their initial 0, so they are bytes here. */
  datatype Snapshot = Snapshot(speed: byte, mode: byte, left: byte, right: byte, center: byte, wanted: int)

  /** Every global starts at 0. */
  const Initial: Snapshot := Snapshot(0, 0, 0, 0, 0, 0)

  /** The opcodes the ingress decoder acts on. */
  predicate IsIngressOpcode(b: byte) {
    b == CmdDistLeft || b == CmdDistRight || b == CmdDistCenter || b == CmdTeensyMode
  }

  /** The field an ingress opcode stores its value byte into; nothing else changes. */
  function Apply(s: Snapshot, op: byte, val: byte): (r: Snapshot)
    requires IsIngressOpcode(op)
    ensures op == CmdDistLeft ==> r == s.(left := val)
    ensures op == CmdDistRight ==> r == s.(right := val)
    ensures op == CmdDistCenter ==> r == s.(center := val)
    ensures op == CmdTeensyMode ==> r == s.(mode := val)
  {
    if op == CmdDistLeft then s.(left := val)
    else if op == CmdDistRight then s.(right := val)
    else if op == CmdDistCenter then s.(center := val)
    else s.(mode := val)
  }

  /** The state after the serial thread has read `bytes`. An ingress opcode
      consumes the next byte as its value; any other byte is consumed alone.
      When an ingress opcode is the last byte its value read gets nothing, and
      the field receives the opcode itself, which is still in the shared `comm`
      variable. */
  function Ingest(s: Snapshot, bytes: seq<byte>): (r: Snapshot)
    ensures r.speed == s.speed && r.wanted == s.wanted
    decreases |bytes|
  {
    if bytes == [] then s
    else if !IsIngressOpcode(bytes[0]) then Ingest(s, bytes[1..])
    else if |bytes| == 1 then Apply(s, bytes[0], bytes[0])
    else Ingest(Apply(s, bytes[0], bytes[1]), bytes[2..])
  }

  /** Applying a sequence of (opcode, value) frames one after the other. */
  function ApplyAll(s: Snapshot, frames: seq<Frame>): Snapshot
    requires forall k :: 0 <= k < |frames| ==> IsIngressOpcode(frames[k].0)
    decreases |frames|
  {
    if frames == [] then s else ApplyAll(Apply(s, frames[0].0, frames[0].1), frames[1..])
  }

  /** A stream made of sensor and mode frames is decoded frame by frame. */
  lemma {:induction false} IngestFrames(s: Snapshot, frames: seq<Frame>)
    requires forall k :: 0 <= k < |frames| ==> IsIngressOpcode(frames[k].0)
    ensures Ingest(s, Encode(frames)) == ApplyAll(s, frames)
    decreases |frames|
  {
    if frames != [] {
      var bytes := Encode(frames);
      assert bytes[2..] == Encode(frames[1..]);
      IngestFrames(Apply(s, frames[0].0, frames[0].1), frames[1..]);
    }
  }

  /** The byte stream [0xA1, 42] sets the center distance to 42 and nothing else. */
  lemma CenterReading(s: Snapshot)
    ensures Ingest(s, [CmdDistCenter, 42]) == s.(center := 42)
  {
  }

  /** There is no resynchronisation: after a byte the decoder skips (here a
      speed opcode), a value byte that equals an ingress opcode is taken as one
      and swallows the next frame's opcode as its value. */
  lemma MisalignedStream(s: Snapshot)
    ensures Ingest(s, [CmdSpeed, CmdDistCenter, CmdDistLeft, 7]) == s.(center := CmdDistLeft)
  {
    var t := s.(center := CmdDistLeft);
    assert Ingest(t, [7][1..]) == t;
    assert Ingest(t, [7]) == t;
    assert Ingest(s, [CmdDistCenter, CmdDistLeft, 7]) == Ingest(t, [7]);
  }
}
