/** The operator's command line (`CmdThreadProc`): one `<command>:<value>`
    token becomes a frame to send, a rejection, a help request or quit. */
module CommandLine {
  import opened Protocol
  import opened Decimal
  import CString

  /** What one input token leads to. The rejections and the help outcomes
      stand for the messages the source prints; none of them sends anything. */
  datatype Outcome =
    | Send(cmd: byte, val: byte)
    | UnknownCommand
    | UnknownMode
    | UnknownState
    | UnknownTurn
    | UnknownMove
    | CommandList
    | StateHelp
    | Quit

  /** `strchr(input, ':')` and the `'\0'` written over it: the command is the
      text before the first colon, the value the text after it, and without a
      colon the value is NULL. */
  function Split(input: string): (parts: (string, Option<string>))
    ensures ':' !in parts.0
    ensures parts.1.None? <==> ':' !in input
    ensures parts.1.None? ==> parts.0 == input
    ensures parts.1.Some? ==> input == parts.0 + [':'] + parts.1.value
  {
    if input == [] then ([], None)
    else if input[0] == ':' then ([], Some(input[1..]))
    else
      var (name, value) := Split(input[1..]);
      ([input[0]] + name, value)
  }

  /** The split is determined by the first colon. */
  lemma SplitAtFirstColon(name: string, value: string)
    requires ':' !in name
    ensures Split(name + [':'] + value) == (name, Some(value))
  {
    var input := name + [':'] + value;
    var (n, v) := Split(input);
    assert input[|name|] == ':';
    assert v.Some?;
    assert forall k :: 0 <= k < |name| ==> input[k] == name[k];
    assert forall k :: 0 <= k < |n| ==> input[k] == n[k];
    assert input[|n|] == ':';
    assert |n| == |name|;
    assert n == input[..|n|] == name;
    assert v.value == input[|n| + 1..] == value;
  }

  /** Splitting where the first colon was found. */
  lemma SplitAt(input: string, p: nat)
    requires p < |input| && input[p] == ':' && ':' !in input[..p]
    ensures Split(input) == (input[..p], Some(input[p + 1..]))
  {
    assert input == input[..p] + [':'] + input[p + 1..];
    SplitAtFirstColon(input[..p], input[p + 1..]);
  }

  /** The splitting of `CmdThreadProc` on the token held as a C string in
      `input`: `strchr` finds the first colon and a terminator is written over
      it, leaving the command before it and the value after it. */
  method SplitToken(input: array<char>, len: nat) returns (name: string, value: Option<string>)
    requires len < input.Length && input[len] == '\0'
    requires forall k :: 0 <= k < len ==> input[k] != '\0'
    modifies input
    ensures (name, value) == Split(old(input[..len]))
    ensures value.Some? ==> input[|name|] == '\0' && input[|name| + 1..len] == value.value
    ensures input[..] == if value.Some? then old(input[..])[|name| := '\0'] else old(input[..])
  {
    ghost var token := input[..len];
    var p := CString.Strchr(input, len, ':');
    if p.Some? {
      SplitAt(token, p.value);
      value := Some(input[p.value + 1..len]);
      input[p.value] := '\0';
      name := input[..p.value];
      assert name == token[..p.value];
      assert input[p.value + 1..len] == token[p.value + 1..];
    } else {
      name, value := input[..len], None;
    }
  }

  /** The commands whose value is a decimal number. */
  predicate IsNumericCommand(cmd: byte) {
    cmd == CmdDistCenter || cmd == CmdDistLeft || cmd == CmdDistRight || cmd == CmdSpeed
  }

  /** One token of `CmdThreadProc`: an empty or unlisted command name is
      rejected, anything else goes to the `switch (cmd)`. */
  function Interpret(input: string): (o: Outcome)
    ensures o.Send? ==> WellTypedFrame((o.cmd, o.val))
  {
    var (name, value) := Split(input);
    var cmd := GetIdFromName(Some(name), Commands);
    if cmd == Unknown then UnknownCommand else Switch(cmd, value)
  }

  /** The `switch (cmd)` of `CmdThreadProc`, reached only for a listed command:
      check the value against the table the command takes, or parse it as a
      number. A value that looks up to 0xFF sends nothing and gets the case's
      own rejection; a value that checks out is sent as the looked-up id. */
  function Switch(cmd: byte, value: Option<string>): (o: Outcome)
    requires ListsId(Commands, cmd) && cmd != Unknown
    ensures o != UnknownCommand
    ensures o.Send? ==> o.cmd == cmd && WellTypedFrame((o.cmd, o.val))
    ensures o == Quit <==>
      (cmd != CmdTeensyMode && cmd != CmdChangeState && cmd != CmdHardTurn && cmd != CmdSoftTurn
       && cmd != CmdSetDirection && cmd != CmdDistCenter && cmd != CmdDistLeft && cmd != CmdDistRight
       && cmd != CmdSpeed && cmd != CmdHelp)
    ensures (cmd == CmdTeensyMode || cmd == CmdChangeState) ==> (o.Send? <==> GetIdFromName(value, States) != Unknown)
    ensures (cmd == CmdHardTurn || cmd == CmdSoftTurn) ==> (o.Send? <==> GetIdFromName(value, Turns) != Unknown)
    ensures cmd == CmdSetDirection ==> (o.Send? <==> GetIdFromName(value, Moves) != Unknown)
    ensures (cmd == CmdTeensyMode || cmd == CmdChangeState) && o.Send? ==> o.val == GetIdFromName(value, States)
    ensures (cmd == CmdHardTurn || cmd == CmdSoftTurn) && o.Send? ==> o.val == GetIdFromName(value, Turns)
    ensures cmd == CmdSetDirection && o.Send? ==> o.val == GetIdFromName(value, Moves)
    ensures cmd == CmdTeensyMode && !o.Send? ==> o == UnknownMode
    ensures cmd == CmdChangeState && !o.Send? ==> o == UnknownState
    ensures (cmd == CmdHardTurn || cmd == CmdSoftTurn) && !o.Send? ==> o == UnknownTurn
    ensures cmd == CmdSetDirection && !o.Send? ==> o == UnknownMove
    ensures IsNumericCommand(cmd) ==> o == Send(cmd, DecimalValue(value))
  {
    if cmd == CmdTeensyMode then
      var state := GetIdFromName(value, States);
      if state == StateUnknown then UnknownMode else Send(cmd, state)
    else if cmd == CmdChangeState then
      var state := GetIdFromName(value, States);
      if state == StateUnknown then UnknownState else Send(cmd, state)
    else if cmd == CmdHardTurn || cmd == CmdSoftTurn then
      var turn := GetIdFromName(value, Turns);
      if turn == TurnUnknown then UnknownTurn else Send(cmd, turn)
    else if cmd == CmdSetDirection then
      var move := GetIdFromName(value, Moves);
      if move == MoveUnknown then UnknownMove else Send(cmd, move)
    else if cmd == CmdDistCenter || cmd == CmdDistLeft || cmd == CmdDistRight || cmd == CmdSpeed then
      Send(cmd, DecimalValue(value))
    else if cmd == CmdHelp then
      if GetIdFromName(value, Commands) == CmdChangeState then StateHelp else CommandList
    else
      // the only listed command left is quit
      Quit
  }

  /** Help explains the states for "help:state" and lists the commands for
      anything else. */
  lemma HelpOutcome(value: Option<string>)
    ensures ListsId(Commands, CmdHelp)
    ensures Switch(CmdHelp, value) == StateHelp <==> value == Some("state")
    ensures Switch(CmdHelp, value) != StateHelp ==> Switch(CmdHelp, value) == CommandList
  {
    assert Commands[9].id == CmdHelp;
    CommandsWellFormed();
    RowRoundTrip(Commands, 1);
    if value.Some? && ListsName(Commands, value.value) {
      var k :| 0 <= k < |Commands| && Commands[k].name == value.value;
      RowRoundTrip(Commands, k);
    }
  }

  /** A command name that is empty or not in the table sends nothing. */
  lemma UnknownCommandSendsNothing(input: string)
    ensures Interpret(input) == UnknownCommand <==> Split(input).0 == "" || !ListsName(Commands, Split(input).0)
  {
    CommandsWellFormed();
    UnknownName(Commands, Split(input).0);
  }

  /** The opcode of "quit" is the only listed opcode the `switch` has no case for. */
  lemma QuitIsLastCase(cmd: byte)
    requires ListsId(Commands, cmd) && cmd != Unknown
    ensures cmd == CmdQuit <==>
      (cmd != CmdTeensyMode && cmd != CmdChangeState && cmd != CmdHardTurn && cmd != CmdSoftTurn
       && cmd != CmdSetDirection && cmd != CmdDistCenter && cmd != CmdDistLeft && cmd != CmdDistRight
       && cmd != CmdSpeed && cmd != CmdHelp)
  {
    var k :| 0 <= k < |Commands| && Commands[k].id == cmd;
  }

  /** Only the command "quit" quits. */
  lemma QuitOnlyOnQuit(input: string)
    ensures Interpret(input) == Quit <==> Split(input).0 == "quit"
  {
    var (name, value) := Split(input);
    var cmd := GetIdFromName(Some(name), Commands);
    CommandsWellFormed();
    RowRoundTrip(Commands, 10);
    if cmd != Unknown {
      QuitIsLastCase(cmd);
      if cmd == CmdQuit {
        UnknownName(Commands, name);
        var k :| 0 <= k < |Commands| && Commands[k].name == name;
        RowRoundTrip(Commands, k);
        assert k == 10;
      }
    }
  }

  /** The text of a frame's value the operator would type: the table name for
      states, turns and moves, the decimal number for distances and speed. */
  function ValueText(f: Frame): string {
    var (cmd, val) := f;
    if cmd == CmdTeensyMode || cmd == CmdChangeState then StatesWellFormed(); NameOf(val, States)
    else if cmd == CmdHardTurn || cmd == CmdSoftTurn then TurnsWellFormed(); NameOf(val, Turns)
    else if cmd == CmdSetDirection then MovesWellFormed(); NameOf(val, Moves)
    else Format(val)
  }

  /** The line `<command>:<value>` that asks for frame f. */
  function FrameText(f: Frame): string {
    CommandsWellFormed();
    NameOf(f.0, Commands) + [':'] + ValueText(f)
  }

  lemma CommandNamesHaveNoColon()
    ensures forall k :: 0 <= k < |Commands| ==> ':' !in Commands[k].name
  {
  }

  /** A listed, non-sentinel value id names itself back through the table. */
  lemma ValueRoundTrip(pairs: seq<Pair>, val: byte)
    requires WellFormed(pairs) && ListsId(pairs, val) && val != Unknown
    ensures GetIdFromName(Some(NameOf(val, pairs)), pairs) == val
  {
    var k :| 0 <= k < |pairs| && pairs[k].id == val;
    RowRoundTrip(pairs, k);
  }

  /** Every well-typed frame can be typed: the line FrameText(f) makes the
      command line send exactly f. */
  lemma FrameTextRoundTrip(f: Frame)
    requires WellTypedFrame(f)
    ensures Interpret(FrameText(f)) == Send(f.0, f.1)
  {
    var (cmd, val) := f;
    CommandsWellFormed();
    WellTypedOpcode(f);
    var k :| 0 <= k < |Commands| && Commands[k].id == cmd;
    RowRoundTrip(Commands, k);
    CommandNamesHaveNoColon();
    SplitAtFirstColon(NameOf(cmd, Commands), ValueText(f));
    if cmd == CmdTeensyMode || cmd == CmdChangeState {
      StatesWellFormed();
      ValueRoundTrip(States, val);
    } else if cmd == CmdHardTurn || cmd == CmdSoftTurn {
      TurnsWellFormed();
      ValueRoundTrip(Turns, val);
    } else if cmd == CmdSetDirection {
      MovesWellFormed();
      ValueRoundTrip(Moves, val);
    } else {
      DecimalValueOfFormat(val);
    }
  }

  /** A command name typed alone goes to the `switch` with a NULL value. */
  lemma BareCommandName(k: nat)
    requires k < |Commands| - 1
    ensures Interpret(Commands[k].name) == Switch(Commands[k].id, None)
  {
    CommandsWellFormed();
    CommandNamesHaveNoColon();
    RowRoundTrip(Commands, k);
  }

  /** Without a colon the value is NULL: only the numeric commands send, and
      they send 0; mode, state, turn and move commands are rejected. */
  lemma MissingValue(input: string)
    requires ':' !in input
    ensures Interpret(input).Send? <==> IsNumericCommand(GetIdFromName(Some(input), Commands))
    ensures Interpret(input).Send? ==> Interpret(input) == Send(GetIdFromName(Some(input), Commands), 0)
  {
    assert Split(input) == (input, None);
  }

  /** Without a colon a command that needs a state is rejected. */
  lemma MissingState()
    ensures Interpret("state") == UnknownState
  {
    BareCommandName(1);
    assert Commands[1] == Pair(CmdChangeState, "state");
    assert Switch(CmdChangeState, None) == UnknownState;
  }

}
