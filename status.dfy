/** The status report the Bluetooth thread (`BTThreadProc`) builds in its
    `sendbuffer` from the globals: the mode, the speed and the three distances,
    one line each. */
module Status {
  import opened Protocol
  import opened Decimal
  import opened Telemetry
  import CString

  /** `char sendbuffer[100]`, all of which `write` sends. */
  const SendBufferSize: nat := 100

  /** What a distance of 0xFF (out of range) prints instead of its value. */
  const Far: string := "Far, far, away..."

  const RightLabel: string := "distance.right: "
  const CenterLabel: string := "distance.center: "
  const LeftLabel: string := "distance.left: "

  /** A distance below 0xFF prints as `%i`, 0xFF as Far. */
  function DistanceText(d: byte): (text: string)
    ensures 1 <= |text| <= |Far| && '\0' !in text
  {
    FormatByteLength(d);
    FormatCharacters(d);
    if d < 0xFF then Format(d) else Far
  }

  /** A printed distance reads back as the distance it was made from. */
  lemma DistanceReadsBack(d: byte)
    requires d < 0xFF
    ensures Atoi(DistanceText(d)) == d
  {
    FormatRoundTrip(d);
  }

  /** No number and no distance text holds a newline. */
  lemma NewlineFree(d: byte)
    ensures '\n' !in Format(d) && '\n' !in DistanceText(d)
  {
    FormatCharacters(d);
  }

  function DistanceLine(caption: string, d: byte): string {
    caption + DistanceText(d) + "\n"
  }

  function ModeLine(mode: byte, name: string): string {
    "mode: " + Format(mode) + ", " + name + "\n"
  }

  function SpeedLine(speed: byte): string {
    "speed: " + Format(speed) + "\n"
  }

  /** A line: text without a newline, then the newline. */
  lemma OneNewline(text: string)
    requires '\n' !in text
    ensures multiset(text + "\n")['\n'] == 1
  {
    assert multiset(text + "\n") == multiset(text) + multiset{'\n'};
  }

  /** Each of the report's five pieces is one line. */
  lemma FiveLines(s: Snapshot, name: string, leftLabel: string)
    ensures '\n' !in name && '\n' !in leftLabel ==>
      multiset(ModeLine(s.mode, name) + SpeedLine(s.speed) + DistanceLine(RightLabel, s.right)
        + DistanceLine(CenterLabel, s.center) + DistanceLine(leftLabel, s.left))['\n'] == 5
  {
    if '\n' !in name && '\n' !in leftLabel {
      assert '\n' !in RightLabel && '\n' !in CenterLabel;
      ModeLineOne(s.mode, name);
      SpeedLineOne(s.speed);
      DistanceLineOne(RightLabel, s.right);
      DistanceLineOne(CenterLabel, s.center);
      DistanceLineOne(leftLabel, s.left);
      SumOfLines(ModeLine(s.mode, name), SpeedLine(s.speed), DistanceLine(RightLabel, s.right),
        DistanceLine(CenterLabel, s.center), DistanceLine(leftLabel, s.left));
    }
  }

  lemma SumOfLines(l1: string, l2: string, l3: string, l4: string, l5: string)
    requires multiset(l1)['\n'] == 1 && multiset(l2)['\n'] == 1 && multiset(l3)['\n'] == 1
    requires multiset(l4)['\n'] == 1 && multiset(l5)['\n'] == 1
    ensures multiset(l1 + l2 + l3 + l4 + l5)['\n'] == 5
  {
    assert multiset(l1 + l2 + l3 + l4 + l5)
      == multiset(l1) + multiset(l2) + multiset(l3) + multiset(l4) + multiset(l5);
  }

  lemma ModeLineOne(mode: byte, name: string)
    requires '\n' !in name
    ensures multiset(ModeLine(mode, name))['\n'] == 1
  {
    NewlineFree(mode);
    assert '\n' !in "mode: " && '\n' !in ", ";
    OneNewline("mode: " + Format(mode) + ", " + name);
  }

  lemma SpeedLineOne(speed: byte)
    ensures multiset(SpeedLine(speed))['\n'] == 1
  {
    NewlineFree(speed);
    assert '\n' !in "speed: ";
    OneNewline("speed: " + Format(speed));
  }

  lemma DistanceLineOne(caption: string, d: byte)
    requires '\n' !in caption
    ensures multiset(DistanceLine(caption, d))['\n'] == 1
  {
    NewlineFree(d);
    OneNewline(caption + DistanceText(d));
  }

  /** The report's text: the mode with the given state name, the speed, then
      the right, center and left distances, the last under `leftLabel`. */
  function Report(s: Snapshot, name: string, leftLabel: string): (r: string)
    ensures '\n' !in name && '\n' !in leftLabel ==> multiset(r)['\n'] == 5
    ensures |DistanceLine(leftLabel, s.left)| <= |r|
    ensures r[|r| - |DistanceLine(leftLabel, s.left)|..] == DistanceLine(leftLabel, s.left)
  {
    FiveLines(s, name, leftLabel);
    ModeLine(s.mode, name) + SpeedLine(s.speed)
    + DistanceLine(RightLabel, s.right)
    + DistanceLine(CenterLabel, s.center)
    + DistanceLine(leftLabel, s.left)
  }

  /** The text as the source builds it: the mode's name comes from
      `get_state_name`, which for a mode that is not in the states table reads
      the row past the table's end (None here), and the left distance is
      labelled "distance.right: " a second time. */
  function StatusText(s: Snapshot): (r: Option<string>)
    ensures r.None? <==> !ListsId(States, s.mode)
  {
    match GetNameFromId(s.mode, States)
    case PastEnd => None
    case Name(name) => Some(Report(s, name, RightLabel))
  }

  /** The text can overflow `sendbuffer`: with mode 0, the right distance out of
      range and the other two three-digit, it has 101 characters and its
      terminator is the 102nd. */
  lemma StatusTextOverflows()
    ensures StatusText(Snapshot(0, StateNothing, 100, 0xFF, 100, 0)).Some?
    ensures |StatusText(Snapshot(0, StateNothing, 100, 0xFF, 100, 0)).value| + 1 > SendBufferSize
  {
    var s := Snapshot(0, StateNothing, 100, 0xFF, 100, 0);
    RowRoundTrip(States, 0);
    assert |Format(0)| == 1 && |Format(100)| == 3;
    assert |StatusText(s).value| == 17 + 9 + 34 + 21 + 20;
  }

  /** The line that carries the left distance is labelled as the right one. */
  lemma LeftDistanceMislabelled(s: Snapshot)
    requires ListsId(States, s.mode)
    ensures StatusText(s).value == StatusText(s).value[..|StatusText(s).value| - |DistanceLine(RightLabel, s.left)|]
      + DistanceLine(RightLabel, s.left)
  {
  }

  /** The longest report: every number three digits long, the longest state
      name, and two distances out of range. */
  const MaxStatusLength: nat := 132

  /** Every state name has at most seven characters ("nothing") and no
      terminator inside it. */
  lemma StateNameLength(mode: byte)
    ensures |NameOf(mode, States)| <= 7 && '\0' !in NameOf(mode, States)
  {
    StatesWellFormed();
    if ListsId(States, mode) {
      var k :| 0 <= k < |States| && States[k].id == mode;
      RowRoundTrip(States, k);
      assert NameOf(mode, States) == States[k].name;
      assert k == 0 || k == 1 || k == 2 || k == 3 || k == 4;
    }
  }

  /** The report with both faults corrected: an unknown mode prints the empty
      name of the sentinel row, and the left distance is labelled as such. It
      always fits in MaxStatusLength characters, and its last line carries the
      left distance under its own label. */
  function StatusMessage(s: Snapshot): (r: string)
    ensures |r| <= MaxStatusLength
    ensures |DistanceLine(LeftLabel, s.left)| <= |r|
    ensures r == r[..|r| - |DistanceLine(LeftLabel, s.left)|] + DistanceLine(LeftLabel, s.left)
  {
    StatesWellFormed();
    StateNameLength(s.mode);
    FormatByteLength(s.mode);
    FormatByteLength(s.speed);
    Report(s, NameOf(s.mode, States), LeftLabel)
  }

  /** For a listed mode the source's text is the corrected report with the
      label of its last line, the left distance's, swapped back to the right
      distance's. */
  lemma CorrectedLabelOnly(s: Snapshot)
    requires ListsId(States, s.mode)
    ensures StatusText(s).Some?
    ensures StatusText(s).value
      == StatusMessage(s)[..|StatusMessage(s)| - |DistanceLine(LeftLabel, s.left)|] + DistanceLine(RightLabel, s.left)
  {
    StatesWellFormed();
    var name := NameOf(s.mode, States);
    var head := ModeLine(s.mode, name) + SpeedLine(s.speed) + DistanceLine(RightLabel, s.right)
      + DistanceLine(CenterLabel, s.center);
    assert StatusMessage(s) == head + DistanceLine(LeftLabel, s.left);
    assert StatusMessage(s)[..|StatusMessage(s)| - |DistanceLine(LeftLabel, s.left)|] == head;
  }

  /** `strcpy` and `strcat` of the mode line onto the zeroed buffer. */
  method WriteModeLine(buffer: array<char>, mode: byte, name: string) returns (len: nat)
    requires |ModeLine(mode, name)| < buffer.Length && '\0' !in name
    requires forall k :: 0 <= k < buffer.Length ==> buffer[k] == '\0'
    modifies buffer
    ensures len == |ModeLine(mode, name)|
    ensures buffer[..len] == ModeLine(mode, name)
    ensures forall k :: 0 <= k < len ==> buffer[k] != '\0'
    ensures forall k :: len <= k < buffer.Length ==> buffer[k] == '\0'
  {
    FormatCharacters(mode);
    assert '\0' !in "mode: " && '\0' !in ", " && '\0' !in "\n";
    len := CString.Strcat(buffer, 0, "mode: ");
    len := CString.Strcat(buffer, len, Format(mode));
    len := CString.Strcat(buffer, len, ", ");
    len := CString.Strcat(buffer, len, name);
    len := CString.Strcat(buffer, len, "\n");
  }

  /** `strcat` of the speed line. */
  method AppendSpeedLine(buffer: array<char>, len: nat, speed: byte) returns (len': nat)
    requires len + |SpeedLine(speed)| < buffer.Length
    requires forall k :: 0 <= k < len ==> buffer[k] != '\0'
    requires forall k :: len <= k < buffer.Length ==> buffer[k] == '\0'
    modifies buffer
    ensures len' == len + |SpeedLine(speed)|
    ensures buffer[..len'] == old(buffer[..len]) + SpeedLine(speed)
    ensures forall k :: 0 <= k < len' ==> buffer[k] != '\0'
    ensures forall k :: len' <= k < buffer.Length ==> buffer[k] == '\0'
  {
    FormatCharacters(speed);
    len' := CString.Strcat(buffer, len, "speed: ");
    len' := CString.Strcat(buffer, len', Format(speed));
    len' := CString.Strcat(buffer, len', "\n");
  }

  /** `strcat` of a distance line: the label, the value or Far, the newline. */
  method AppendDistance(buffer: array<char>, len: nat, caption: string, d: byte) returns (len': nat)
    requires len + |DistanceLine(caption, d)| < buffer.Length && '\0' !in caption
    requires forall k :: 0 <= k < len ==> buffer[k] != '\0'
    requires forall k :: len <= k < buffer.Length ==> buffer[k] == '\0'
    modifies buffer
    ensures len' == len + |DistanceLine(caption, d)|
    ensures buffer[..len'] == old(buffer[..len]) + DistanceLine(caption, d)
    ensures forall k :: 0 <= k < len' ==> buffer[k] != '\0'
    ensures forall k :: len' <= k < buffer.Length ==> buffer[k] == '\0'
  {
    ghost var text := DistanceText(d);
    len' := CString.Strcat(buffer, len, caption);
    if d < 0xFF {
      len' := CString.Strcat(buffer, len', Format(d));
    } else {
      len' := CString.Strcat(buffer, len', Far);
    }
    assert buffer[..len'] == old(buffer[..len]) + caption + text;
    len' := CString.Strcat(buffer, len', "\n");
  }

  /** The formatting of `BTThreadProc` into a buffer large enough for every
      report: zero it, then append the pieces. The text is followed by zeros
      up to the buffer's end. */
  method FormatStatus(sendbuffer: array<char>, s: Snapshot)
    requires sendbuffer.Length == MaxStatusLength + 1
    modifies sendbuffer
    ensures sendbuffer[..|StatusMessage(s)|] == StatusMessage(s)
    ensures forall k :: |StatusMessage(s)| <= k < sendbuffer.Length ==> sendbuffer[k] == '\0'
  {
    StatesWellFormed();
    StateNameLength(s.mode);
    FormatByteLength(s.mode);
    FormatByteLength(s.speed);
    var name := NameOf(s.mode, States);
    assert |ModeLine(s.mode, name)| <= 19 && |SpeedLine(s.speed)| <= 11;
    assert |DistanceLine(RightLabel, s.right)| <= 34 && |DistanceLine(CenterLabel, s.center)| <= 35;
    assert |DistanceLine(LeftLabel, s.left)| <= 33;
    assert '\0' !in RightLabel && '\0' !in CenterLabel && '\0' !in LeftLabel;
    CString.Clear(sendbuffer);
    var len := WriteModeLine(sendbuffer, s.mode, name);
    len := AppendSpeedLine(sendbuffer, len, s.speed);
    ghost var head := sendbuffer[..len];
    assert head == ModeLine(s.mode, name) + SpeedLine(s.speed);
    len := AppendDistance(sendbuffer, len, RightLabel, s.right);
    len := AppendDistance(sendbuffer, len, CenterLabel, s.center);
    len := AppendDistance(sendbuffer, len, LeftLabel, s.left);
    assert sendbuffer[..len] == head + DistanceLine(RightLabel, s.right) + DistanceLine(CenterLabel, s.center)
      + DistanceLine(LeftLabel, s.left);
  }
}
