/** The serial protocol of the robot: one-byte opcodes, the four symbol tables
    (turns, moves, states, commands) with their linear lookups, and the 2-byte
    frame every command is sent as. */
module Protocol {

  /** `uint8` of the C program. */
  type byte = x: int | 0 <= x < 256

  /** A C string that may be NULL. */
  datatype Option<T> = None | Some(value: T)

  // Command opcodes: high bit set for the motor controller, clear for local commands.
  const CmdTeensyMode: byte := 0x81
  const CmdChangeState: byte := 0x82
  const CmdHardTurn: byte := 0x91
  const CmdSoftTurn: byte := 0x92
  const CmdSetDirection: byte := 0x93
  const CmdDistCenter: byte := 0xA1
  const CmdDistLeft: byte := 0xA2
  const CmdDistRight: byte := 0xA3
  const CmdSpeed: byte := 0xB1
  const CmdHelp: byte := 0x01
  const CmdQuit: byte := 0x02

  /** The id of every table's sentinel row; also CMD_UNKNOWN, since 0x80 | 0xFF == 0xFF. */
  const Unknown: byte := 0xFF

  const StateNothing: byte := 0x00
  const StateBasic: byte := 0x10
  const StateOrders: byte := 0x20
  const StateDance: byte := 0x30
  const StateUnknown: byte := Unknown

  const MoveForward: byte := 0x10
  const MoveBackward: byte := 0x20
  const MoveUnknown: byte := Unknown

  const TurnNone: byte := 0x00
  const TurnRight: byte := 0x10
  const TurnLeft: byte := 0x20
  const TurnUnknown: byte := Unknown

  /** One `{id, name}` row of a symbol table. */
  datatype Pair = Pair(id: byte, name: string)

  /** The row every table ends with. */
  const Sentinel: Pair := Pair(Unknown, "")

  const Turns: seq<Pair> := [Pair(TurnNone, "none"), Pair(TurnLeft, "left"), Pair(TurnRight, "right"), Sentinel]

  const Moves: seq<Pair> := [Pair(MoveForward, "forward"), Pair(MoveBackward, "backward"), Sentinel]

  const States: seq<Pair> :=
    [Pair(StateNothing, "nothing"), Pair(StateBasic, "basic"), Pair(StateOrders, "orders"),
     Pair(StateDance, "dance"), Sentinel]

  const Commands: seq<Pair> :=
    [Pair(CmdTeensyMode, "mode"), Pair(CmdChangeState, "state"), Pair(CmdHardTurn, "hard-turn"),
     Pair(CmdSoftTurn, "soft-turn"), Pair(CmdSetDirection, "set-direction"),
     Pair(CmdDistCenter, "dist-center"), Pair(CmdDistLeft, "dist-left"), Pair(CmdDistRight, "dist-right"),
     Pair(CmdSpeed, "speed"), Pair(CmdHelp, "help"), Pair(CmdQuit, "quit"), Sentinel]

  predicate ListsId(pairs: seq<Pair>, id: byte) {
    exists k :: 0 <= k < |pairs| && pairs[k].id == id
  }

  predicate ListsName(pairs: seq<Pair>, name: string) {
    exists k :: 0 <= k < |pairs| && pairs[k].name == name
  }

  /** Row k is the first row called `name`: where the lookup loop stops. */
  predicate FirstNamed(pairs: seq<Pair>, k: int, name: string) {
    0 <= k < |pairs| && pairs[k].name == name && forall m :: 0 <= m < k ==> pairs[m].name != name
  }

  /** Row k is the first row with id `id`. */
  predicate FirstWithId(pairs: seq<Pair>, k: int, id: byte) {
    0 <= k < |pairs| && pairs[k].id == id && forall m :: 0 <= m < k ==> pairs[m].id != id
  }

  /** A table ends with the sentinel row and has no id and no name twice. */
  predicate WellFormed(pairs: seq<Pair>) {
    && |pairs| > 0
    && pairs[|pairs| - 1] == Sentinel
    && (forall a, b :: 0 <= a < b < |pairs| ==> pairs[a].id != pairs[b].id && pairs[a].name != pairs[b].name)
  }

  lemma TurnsWellFormed() ensures WellFormed(Turns) {}
  lemma MovesWellFormed() ensures WellFormed(Moves) {}
  lemma StatesWellFormed() ensures WellFormed(States) {}
  lemma CommandsWellFormed() ensures WellFormed(Commands) {}

  /** `get_id_from_name`: the id of the first row called `name`, or 0xFF for a
      NULL name and for a name no row has. The empty name finds the sentinel. */
  function GetIdFromName(name: Option<string>, pairs: seq<Pair>): (r: byte)
    ensures name.None? || !ListsName(pairs, name.value) ==> r == Unknown
    ensures name.Some? ==> forall k :: FirstNamed(pairs, k, name.value) ==> r == pairs[k].id
    ensures r == Unknown || ListsId(pairs, r)
  {
    if name.None? || pairs == [] then Unknown
    else if pairs[0].name == name.value then pairs[0].id
    else
      var r := GetIdFromName(name, pairs[1..]);
      assert forall k :: 1 <= k < |pairs| ==> pairs[1..][k - 1] == pairs[k];
      r
  }

  /** What `get_name_from_id` returns: a row's name, or the element one past the
      end of the table, which it reads when no row has the id. */
  datatype NameLookup = Name(name: string) | PastEnd

  /** `get_name_from_id` as written: the loop leaves `i == npairs` when no row
      matches and then returns `pairs[npairs].name`. */
  function GetNameFromId(id: byte, pairs: seq<Pair>): (r: NameLookup)
    ensures r.PastEnd? <==> !ListsId(pairs, id)
    ensures forall k :: FirstWithId(pairs, k, id) ==> r == Name(pairs[k].name)
  {
    if pairs == [] then PastEnd
    else if pairs[0].id == id then Name(pairs[0].name)
    else
      var r := GetNameFromId(id, pairs[1..]);
      assert forall k :: 1 <= k < |pairs| ==> pairs[1..][k - 1] == pairs[k];
      r
  }

  /** Name lookup that never leaves the table: an id no row has gets the
      sentinel's empty name, as the id 0xFF does. */
  function NameOf(id: byte, pairs: seq<Pair>): (r: string)
    requires WellFormed(pairs)
    ensures ListsId(pairs, id) ==> GetNameFromId(id, pairs) == Name(r)
    ensures !ListsId(pairs, id) ==> r == Sentinel.name
  {
    match GetNameFromId(id, pairs)
    case Name(n) => n
    case PastEnd => Sentinel.name
  }

  /** In a well-formed table every row's name leads to its id and its id back to its name. */
  lemma RowRoundTrip(pairs: seq<Pair>, k: nat)
    requires WellFormed(pairs) && k < |pairs|
    ensures GetIdFromName(Some(pairs[k].name), pairs) == pairs[k].id
    ensures GetNameFromId(pairs[k].id, pairs) == Name(pairs[k].name)
    ensures NameOf(pairs[k].id, pairs) == pairs[k].name
  {
  }

  /** A name looks up to 0xFF exactly when it is the sentinel's empty name or no row has it. */
  lemma UnknownName(pairs: seq<Pair>, name: string)
    requires WellFormed(pairs)
    ensures GetIdFromName(Some(name), pairs) == Unknown <==> name == "" || !ListsName(pairs, name)
  {
    if ListsName(pairs, name) {
      var k :| 0 <= k < |pairs| && pairs[k].name == name;
      RowRoundTrip(pairs, k);
    }
  }

  /** One command on the wire: opcode, then value. */
  type Frame = (byte, byte)

  /** The bytes `send_command` writes for a sequence of commands. */
  function Encode(frames: seq<Frame>): (bytes: seq<byte>)
    ensures |bytes| == 2 * |frames|
    ensures forall k :: 0 <= k < |frames| ==> bytes[2 * k] == frames[k].0 && bytes[2 * k + 1] == frames[k].1
  {
    if frames == [] then []
    else
      var rest := Encode(frames[1..]);
      assert forall k :: 1 <= k < |frames| ==> frames[1..][k - 1] == frames[k];
      [frames[0].0, frames[0].1] + rest
  }

  /** The first frame goes out first. */
  lemma EncodeCons(f: Frame, rest: seq<Frame>)
    ensures Encode([f] + rest) == [f.0, f.1] + Encode(rest)
  {
    assert ([f] + rest)[1..] == rest;
  }

  lemma {:induction false} EncodeAppend(a: seq<Frame>, b: seq<Frame>)
    ensures Encode(a + b) == Encode(a) + Encode(b)
  {
    if a == [] {
      assert a + b == b;
    } else {
      assert (a + b)[1..] == a[1..] + b;
      EncodeAppend(a[1..], b);
    }
  }

  /** A frame whose opcode is a controller command (high bit set, listed) and
      whose value is a listed, non-sentinel entry of the table that opcode takes. */
  predicate WellTypedFrame(f: Frame) {
    var (cmd, val) := f;
    if cmd == CmdTeensyMode || cmd == CmdChangeState then ListsId(States, val) && val != Unknown
    else if cmd == CmdHardTurn || cmd == CmdSoftTurn then ListsId(Turns, val) && val != Unknown
    else if cmd == CmdSetDirection then ListsId(Moves, val) && val != Unknown
    else cmd == CmdDistCenter || cmd == CmdDistLeft || cmd == CmdDistRight || cmd == CmdSpeed
  }

  /** Every well-typed frame carries a listed opcode with the high bit set. */
  lemma WellTypedOpcode(f: Frame)
    requires WellTypedFrame(f)
    ensures f.0 >= 0x80 && f.0 != Unknown && ListsId(Commands, f.0)
  {
    var cmd := f.0;
    if cmd == CmdTeensyMode { assert Commands[0].id == cmd; }
    else if cmd == CmdChangeState { assert Commands[1].id == cmd; }
    else if cmd == CmdHardTurn { assert Commands[2].id == cmd; }
    else if cmd == CmdSoftTurn { assert Commands[3].id == cmd; }
    else if cmd == CmdSetDirection { assert Commands[4].id == cmd; }
    else if cmd == CmdDistCenter { assert Commands[5].id == cmd; }
    else if cmd == CmdDistLeft { assert Commands[6].id == cmd; }
    else if cmd == CmdDistRight { assert Commands[7].id == cmd; }
    else { assert Commands[8].id == cmd; }
  }
}
