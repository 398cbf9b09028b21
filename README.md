# ttycmd in Dafny

`ttycmd` is the host-side control program of a small robot. It talks to a
motor controller over a serial line using two-byte commands: an opcode, then a
value. It runs five threads:

- the command line turns `<command>:<value>` tokens into commands;
- the decision loop steers from the three distance sensors and from what the
  camera wants;
- the camera thread counts white pixels in three column sections of every
  frame and turns the counts into a verdict;
- the serial thread decodes the sensor and mode readings the controller sends
  back;
- the Bluetooth thread formats a status report.

`prog/webcam.c` is a standalone draft of the same vision code.

This project models all of that as sequential steps on the program's global
state, and proves properties of the model.

- `protocol.dfy` (`Protocol`): the opcodes and the four `{id, name}` tables
  (turns, moves, states, commands). It holds both lookups and the two-byte
  framing. `GetNameFromId` is modelled as written, including the read past the
  table's end; `NameOf` is the corrected lookup.
- `decimal.dfy` (`Decimal`): `atoi`, the `(uint8)` truncation of
  `get_decimal_value`, and `%i` formatting, with the round trip between them.
- `cstring.dfy` (`CString`): `memset`, `strcpy`, `strcat` and `strchr` on
  `char` arrays.
- `classifier.dfy` (`Classifier`): the nested counting loops over the frame
  buffer, checked against recursive counting functions. The `double`
  percentage chain is replaced by exact integer cross-multiplication, and is
  proved equal to the chain over exact real percentages. It also holds the
  values stored in `GLOBAL_WANTED_DIRECTION` and the `direction` strings of
  both programs.
- `telemetry.dfy` (`Telemetry`): the globals as a `Snapshot` value, and the
  ingress decoder of `CommThreadProc` as a fold over the received bytes.
- `decision.dfy` (`Decision`): one tick of `IntelThreadProc` as a
  first-match branch choice and the frames that branch sends.
- `commandline.dfy` (`CommandLine`): splitting at the first colon, the command
  lookup and the `switch` of `CmdThreadProc`. It includes a typing round trip:
  every well-typed frame has a token that sends exactly that frame.
- `status.dfy` (`Status`): the report of `BTThreadProc`. There is the text
  exactly as the source builds it, and a corrected report written into a
  buffer by `strcpy`/`strcat` steps.
- `robot.dfy` (`Robot`): a `Robot` class whose fields are the globals, with a
  log of every byte written to the serial line. It has one method per
  thread's loop body. Each method is proved against the functions above.
- `system.dfy` (`System`): runs as arbitrary interleavings of those steps,
  with the invariants every run keeps.

## Model

| member | source | states |
|---|---|---|
| Protocol.GetIdFromName | ttycmd.c:160-174 | NULL, an unlisted name, and "" (which only the sentinel row carries) give 0xFF; a listed name gives the id of the first row with that name; the result is always 0xFF or a listed id |
| Protocol.UnknownName | ttycmd.c:160-174 | on a well-formed table the lookup gives 0xFF exactly when the name is empty or unlisted |
| Protocol.GetNameFromId | ttycmd.c:147-158 | a listed id gives the name of the first row with that id; the scan runs past the end of the table exactly when the id is not listed |
| Protocol.NameOf | ttycmd.c:147-158 | corrected lookup: agrees with the source on listed ids and gives the sentinel's empty name otherwise |
| Protocol.RowRoundTrip | ttycmd.c:97-135 | in a well-formed table every row round-trips: its name looks up to its id, and its id looks up to its name |
| Protocol.TurnsWellFormed | ttycmd.c:97-103 | the turns table ends with the sentinel and repeats no id and no name |
| Protocol.MovesWellFormed | ttycmd.c:105-110 | the moves table ends with the sentinel and repeats no id and no name |
| Protocol.StatesWellFormed | ttycmd.c:112-119 | the states table ends with the sentinel and repeats no id and no name |
| Protocol.CommandsWellFormed | ttycmd.c:121-135 | the commands table ends with the sentinel and repeats no id and no name |
| Protocol.Encode | ttycmd.c:228-235 | each command is two bytes on the wire: the opcode at offset 2k, its value at 2k+1 |
| Protocol.EncodeCons | ttycmd.c:228-235 | the first command sent comes first on the wire |
| Protocol.EncodeAppend | ttycmd.c:228-235 | sending two runs of commands puts their bytes one after the other |
| Protocol.WellTypedOpcode | ttycmd.c:57-68 | a well-typed frame's opcode is a listed controller opcode: high bit set and not CMD_UNKNOWN |
| Decimal.DigitRun | ttycmd.c:223 | the digits `atoi` reads are the longest run of digits at the start of the text |
| Decimal.Digits | ttycmd.c:309 | `%i` of a natural number is a non-empty run of digits |
| Decimal.DigitsValueOfDigits | ttycmd.c:309 | the digits `%i` prints have the printed number as their value |
| Decimal.DigitRunOfDigits | ttycmd.c:223 | on a run of digits `atoi` reads all of it |
| Decimal.FormatRoundTrip | ttycmd.c:309 | `atoi` of the `%i` text of any integer gives back that integer |
| Decimal.DecimalValue | ttycmd.c:216-226 | NULL gives 0; otherwise the result equals `atoi` of the text modulo 256 |
| Decimal.DecimalValueOfFormat | ttycmd.c:216-226 | typing the decimal text of a byte gives that byte back |
| Decimal.FormatByteLength | ttycmd.c:318 | a byte prints in one to three characters, and in exactly one below 10 |
| Decimal.Atoi | ttycmd.c:223 | text with no digit in it reads as 0 |
| Decimal.Format | ttycmd.c:309 | the printed text is non-empty and starts with '-' exactly when the number is negative |
| Decimal.FormatCharacters | ttycmd.c:309 | a printed number is an optional '-' and digits, so it holds neither the separator ':' nor a terminator |
| CString.Clear | ttycmd.c:307 | every character of the buffer becomes zero |
| CString.Strcpy | ttycmd.c:308 | for a text without a terminator that fits, the text and its terminator replace the start of the buffer; the rest is unchanged |
| CString.Strcat | ttycmd.c:310 | on a C string (no terminator in the text, zeros after it) the piece goes after the current text, the length grows by its size, the text stays terminator-free and the zero tail stays zero |
| CString.Strchr | ttycmd.c:555 | the index of the first occurrence before the terminator, or none when the character does not occur |
| Classifier.PixelInBounds | ttycmd.c:437-439 | when the buffer fits the geometry, every byte the loop reads is inside it |
| Classifier.CountWhite | ttycmd.c:426-462 | the loop's counters equal the number of white pixels in the frame and in each section, starting from zero every frame |
| Classifier.SectionsPartitionWhite | ttycmd.c:441-457 | every white pixel is counted in exactly one section: total1 + total2 + total3 == count_red |
| Classifier.RowPartition | ttycmd.c:441-457 | within one row, the section counts add up to the row's white count |
| Classifier.RowHitsBound | ttycmd.c:444-457 | within one row, a section counts at most the columns it spans |
| Classifier.HitsBound | ttycmd.c:424 | a section holds at most rows times its column count: width/3 for the left and middle sections, and the rest of the width (remainder columns included) for the right one |
| Classifier.PercentAtLeast | ttycmd.c:464-477 | a percentage reaches a threshold T exactly when 100 * count >= T * capacity |
| Classifier.PercentGreater | ttycmd.c:483-485 | over the shared denominator one percentage exceeds another exactly when its count does |
| Classifier.Classify | ttycmd.c:464-516 | the verdict from integer cross-multiplication equals the first-match chain over exact percentages on every input |
| Classifier.ClearWinnerDecides | ttycmd.c:476-516 | without victory, a section strictly above both others and at or over 59% decides the verdict; the verdict is "[default]" exactly when there is no such section |
| Classifier.TopTieIsDefault | ttycmd.c:482-516 | without victory, a tie for the highest count gives "[default]" |
| Classifier.NoCapacityEmptySections | ttycmd.c:464-466 | with a zero denominator the left and middle counts are zero, so their percentages are NaN and the chain falls through to "[default]" |
| Classifier.WantedDirection | ttycmd.c:480-515 | victory stores -1 and "[left]" and "[right]" both store 1; 3 is never stored |
| Classifier.WebcamLabel | prog/webcam.c:177-211 | every verdict text with its terminator fits in `direction[10]` |
| Classifier.TtyLabel | ttycmd.c:477-516 | the texts match prog/webcam.c's except for victory, and have the same lengths |
| Classifier.Perceive | prog/webcam.c:109-164 | counting then classifying a frame gives the frame's verdict |
| Classifier.FrameVerdict | ttycmd.c:464-516 | a zero capacity gives "[default]"; otherwise the verdict is the first-match chain over the exact percentages of the three section counts |
| Classifier.WebcamFrame | prog/webcam.c:109-211 | the frame's verdict, whose text and terminator end up at the start of `direction`; the rest of `direction` is unchanged |
| Telemetry.Apply | ttycmd.c:701-722 | 0xA2, 0xA3, 0xA1 and 0x81 store the value in left, right, center and mode respectively, and change nothing else |
| Telemetry.Ingest | ttycmd.c:697-722 | decoding received bytes never changes the speed or the wanted direction |
| Telemetry.IngestFrames | ttycmd.c:697-722 | a stream of sensor and mode frames decodes frame by frame |
| Telemetry.CenterReading | ttycmd.c:713-716 | the bytes [0xA1, 42] set the center distance to 42 and nothing else |
| Telemetry.MisalignedStream | ttycmd.c:697-722 | the decoder never resynchronises: a value byte that looks like an opcode swallows the next opcode |
| Decision.ChooseBranch | ttycmd.c:243-276 | the branch taken is the first in priority order whose condition holds: its condition holds and every earlier one fails |
| Decision.BranchFrames | ttycmd.c:243-276 | every branch sends one to four frames, each a well-typed command |
| Decision.TickFrames | ttycmd.c:241-279 | every tick sends one to four well-typed commands, whatever the globals |
| Decision.StartFrameWellTyped | ttycmd.c:239 | the frame sent before the loop is a well-typed command |
| Decision.VictoryPreemptsAll | ttycmd.c:243-249 | a wanted direction of -1 sends state dance then state orders, whatever the distances |
| Decision.ObstaclePreemptsSteering | ttycmd.c:250-260 | with no victory and center < 35, the backup sequence is sent whatever the sides and the wanted direction |
| Decision.ClearPathCruises | ttycmd.c:271-276 | with every distance clear and no victory, left or right wanted, the tick cruises: no turn, speed 127, forward |
| CommandLine.Split | ttycmd.c:555-564 | the command part has no colon; without a colon the value is NULL and the command is the whole token; with one, the token is command, ':' and value |
| CommandLine.SplitAtFirstColon | ttycmd.c:555-564 | the split happens at the first colon: later colons stay in the value |
| CommandLine.SplitAt | ttycmd.c:555-564 | the split at the index of the first colon |
| CommandLine.SplitToken | ttycmd.c:555-564 | splitting the C string in place gives the same command and value as the split of the token; the first colon becomes a terminator and every other character is unchanged, and without a colon the buffer is untouched |
| CommandLine.Interpret | ttycmd.c:566-685 | whatever is sent is a well-typed frame |
| CommandLine.Switch | ttycmd.c:574-685 | for a listed command: never "unknown command". A sent frame carries the command. A state, turn or move value sends exactly when it looks up to something other than 0xFF, and then sends the looked-up id; otherwise the rejection is "unknown mode", "unknown state", "unknown turn" or "unknown move" by command. A numeric command sends `get_decimal_value` of its value. Quit happens exactly for the opcode with no other case |
| CommandLine.HelpOutcome | ttycmd.c:656-680 | "help:state" explains the states, and any other value lists the commands |
| CommandLine.UnknownCommandSendsNothing | ttycmd.c:566-572 | a token is rejected as an unknown command exactly when its command part is empty or not in the table |
| CommandLine.QuitIsLastCase | ttycmd.c:574-685 | among the listed opcodes, quit is exactly the one none of the other cases handle |
| CommandLine.QuitOnlyOnQuit | ttycmd.c:682-684 | a token quits exactly when its command part is "quit" |
| CommandLine.CommandNamesHaveNoColon | ttycmd.c:121-135 | no command name contains ':' |
| CommandLine.ValueRoundTrip | ttycmd.c:160-174 | a listed value's name looks up to that value |
| CommandLine.FrameTextRoundTrip | ttycmd.c:555-654 | every well-typed frame can be typed: the token `<command name>:<value text>` sends exactly that frame |
| CommandLine.BareCommandName | ttycmd.c:555-566 | a command name typed without a colon reaches the `switch` with a NULL value |
| CommandLine.MissingValue | ttycmd.c:216-226 | without a colon, only dist-* and speed send, and they send 0; every other command sends nothing |
| CommandLine.MissingState | ttycmd.c:588-595 | "state" without a value is rejected as an unknown state |
| Robot.Robot.constructor | ttycmd.c:42-55 | every global starts at 0 and nothing has been sent |
| Robot.Robot.SendCommand | ttycmd.c:228-235 | appends the opcode then the value to the serial line and changes no global |
| Robot.Robot.Start | ttycmd.c:239 | sends state orders once |
| Robot.Robot.DecisionTick | ttycmd.c:241-279 | one iteration sends exactly the frames of the branch chosen for the current globals, and changes no global |
| Robot.Robot.Read | ttycmd.c:704 | a read with nothing left leaves `comm` as it was |
| Robot.Robot.Receive | ttycmd.c:695-725 | after reading the bytes the globals are what the decoder fold gives, and nothing is sent |
| Robot.Robot.Perceive | ttycmd.c:424-516 | stores the wanted direction of the frame's verdict, changes no other global, and copies the verdict's text and terminator into the start of `direction`, leaving the rest of it unchanged |
| Robot.Robot.Command | ttycmd.c:550-686 | the outcome is that of the token; the input buffer has its first colon replaced by a terminator, or is untouched without one; the serial line gets the frame exactly when one is sent |
| Robot.Robot.Broadcast | ttycmd.c:305-353 | the buffer holds the corrected report of the current globals, followed by zeros |
| Status.DistanceText | ttycmd.c:322-330 | a distance prints as one to seventeen characters, none of them a terminator |
| Status.Report | ttycmd.c:307-352 | with no newline in the state name or the last label the report is exactly five lines, and it ends with the left distance's line |
| Status.DistanceReadsBack | ttycmd.c:323-327 | a distance below 0xFF prints as text that `atoi` reads back as that distance |
| Status.StatusText | ttycmd.c:307-352 | the source's text exists exactly when the mode is in the states table; otherwise `get_state_name` reads past the table |
| Status.StatusTextOverflows | ttycmd.c:288-353 | mode 0, right distance 0xFF, center and left 100 give 101 characters, which with the terminator do not fit in 100 bytes |
| Status.LeftDistanceMislabelled | ttycmd.c:343-352 | the last line, which carries the left distance, is labelled "distance.right: " |
| Status.StateNameLength | ttycmd.c:112-119 | every state name has at most seven characters and no terminator |
| Status.StatusMessage | ttycmd.c:307-352 | the corrected report always has at most 132 characters, and its last line is the left distance labelled "distance.left: " |
| Status.CorrectedLabelOnly | ttycmd.c:343 | for a listed mode the source's text is StatusMessage with its last line's label put back to "distance.right: " |
| Status.WriteModeLine | ttycmd.c:307-315 | the zeroed buffer then holds "mode: <n>, <name>\n" followed by zeros |
| Status.AppendSpeedLine | ttycmd.c:317-320 | "speed: <n>\n" is appended, and the tail stays zero |
| Status.AppendDistance | ttycmd.c:322-331 | the label, the value or "Far, far, away..." and a newline are appended, and the tail stays zero |
| Status.FormatStatus | ttycmd.c:307-353 | the buffer holds the corrected report followed by zeros to its end |
| System.RunKeepsInvariant | ttycmd.c:42-55 | in every run the speed stays 0, and the wanted direction stays 0, -1, -2, 1 or 2, never 3 |
| System.SpeedAlwaysReportedZero | ttycmd.c:317-320 | in every run from the start the report's speed line is "speed: 0" |
| System.SoftRightOnlyForObstacle | ttycmd.c:261-265 | in every run from the start a soft right turn happens only for a left distance under 55 |
| System.RightVerdictTurnsLeft | ttycmd.c:492-499 | after a "[right]" verdict, with the way ahead and to the left clear, the next tick turns left |
| System.Step | ttycmd.c:237-722 | no step writes the speed, and only the camera thread's step changes the wanted direction, to the value of its verdict |
| System.StepFrames | ttycmd.c:237-686 | only the decision and command threads send; a step sends at most four frames, each well typed |
| System.Run | ttycmd.c:42-55 | no run changes the speed |
| System.RunFrames | ttycmd.c:228-235 | a run sends at most four frames per step, and every frame it sends is well typed |
| System.UnlistedModeReachable | ttycmd.c:718-721 | the bytes [0x81, 5] store mode 5, for which the source's status text reads past the states table |

## Left out

- Threads and races: each thread's loop body is one sequential step. A run is
  any interleaving of whole steps, so interleavings inside a step are not
  modelled.
- The serial port, the Bluetooth socket, `connect`, `write`, `perror`, the
  termios set-up and `main`'s thread creation. The model keeps only the bytes
  sent (the `tty` log) and the text built.
- OpenCV capture: a frame is an input byte array with its height, width, row
  step and channel count. The buffer must hold every byte the loop reads.
- Sleeps, `usleep`, the backspace loops, the `printf` trace in
  `send_command`, and all help and list printing. Help is an outcome value.
- `scanf` and `exit(0)`: a token is given as a C string without whitespace,
  and quit is an outcome, not process termination. The 128-byte limit of
  `input` is not modelled.
- Floating point: the percentages are exact. Rounding exactly at a threshold
  is not modelled.
- Decimal.DecimalValue: the result is stated modulo 256 of an unbounded `atoi`,
  so `atoi` overflow, which is undefined behaviour, is not modelled.
- Robot.Robot.Receive: models complete reads of the given bytes. The only
  short read modelled is one at the very end, where `comm` keeps the opcode,
  which the field then receives.
- The 32-bit widths of `count_red`, `total_section*` and
  `screen_segment * height`: the counters are unbounded.
- The commented-out and dead code in prog/webcam.c (colour arguments,
  inversion, "terminator vision"), and prog/webcam.c's display window and
  key handling.
- A zero-sized frame (width below 3 or height 0): the source does not guard
  it, and the model follows the code rather than adding a precondition. The
  division by zero gives NaN for the left and middle sections, every
  comparison fails, and the verdict is "[default]".
- Status.FormatStatus: it writes the corrected report into a buffer of
  MaxStatusLength + 1 characters. The source's 100-byte buffer appears only
  in Status.StatusTextOverflows, because the as-written text can overflow it.

## Findings

| source | as written | input that shows it | evidently intended | confidence | as-written member | corrected member |
|---|---|---|---|---|---|---|
| ttycmd.c:147-158 | when no row has the id, `return pairs[i].name` reads `pairs[npairs]`, one past the table | mode byte 5 from the controller ([0x81, 5]), then the status report calls `get_state_name(5)` | return the sentinel row's name (`pairs[npairs - 1]`) | not executed | System.UnlistedModeReachable | Protocol.NameOf |
| ttycmd.c:288-353 | the report is built in `char sendbuffer[100]` with no bound check | mode 0, speed 0, right distance 0xFF, center 100, left 100: 101 characters plus the terminator | a buffer large enough for every report (132 characters and a terminator) | not executed | Status.StatusTextOverflows | Status.FormatStatus |
| ttycmd.c:343 | the left distance's line is labelled "distance.right: " | any snapshot: the last line shows the left distance under the right label | label it "distance.left: " | not executed | Status.LeftDistanceMislabelled | Status.StatusMessage |
