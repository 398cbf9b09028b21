/** The program as a whole: each thread's loop body is one step on the shared
    globals, and a run is any interleaving of those steps. */
module System {
  import opened Protocol
  import opened Telemetry
  import opened Decision
  import opened Classifier
  import opened CommandLine
  import opened Status

  /** One loop iteration of one thread: the camera thread classifies a frame,
      the serial thread reads some bytes, the decision thread ticks, or the
      command thread reads a token. */
  datatype Event =
    | Perceived(v: Verdict)
    | Received(bytes: seq<byte>)
    | Ticked
    | Typed(input: string)

  /** What a step does to the globals. Only the camera and serial threads
      write them. */
  function Step(s: Snapshot, e: Event): (r: Snapshot)
    ensures r.speed == s.speed
    ensures r.wanted == if e.Perceived? then WantedDirection(e.v) else s.wanted
  {
    match e
    case Perceived(v) => s.(wanted := WantedDirection(v))
    case Received(bytes) => Ingest(s, bytes)
    case Ticked => s
    case Typed(_) => s
  }

  /** The frames a step sends to the controller: only the decision and
      command threads send, at most four well-typed commands. */
  function StepFrames(s: Snapshot, e: Event): (r: seq<Frame>)
    ensures |r| <= 4
    ensures r != [] ==> e.Ticked? || e.Typed?
    ensures forall k :: 0 <= k < |r| ==> WellTypedFrame(r[k])
  {
    match e
    case Ticked => TickFrames(s)
    case Typed(input) =>
      var o := Interpret(input);
      if o.Send? then [(o.cmd, o.val)] else []
    case _ => []
  }

  /** The globals after a trace of steps. No step writes the speed. */
  function Run(s: Snapshot, trace: seq<Event>): (r: Snapshot)
    ensures r.speed == s.speed
    decreases |trace|
  {
    if trace == [] then s else Run(Step(s, trace[0]), trace[1..])
  }

  /** Every frame a run sends, in order: at most four per step, each well
      typed. */
  function RunFrames(s: Snapshot, trace: seq<Event>): (r: seq<Frame>)
    ensures |r| <= 4 * |trace|
    ensures forall k :: 0 <= k < |r| ==> WellTypedFrame(r[k])
    decreases |trace|
  {
    if trace == [] then []
    else
      var head := StepFrames(s, trace[0]);
      var tail := RunFrames(Step(s, trace[0]), trace[1..]);
      assert forall k :: |head| <= k < |head| + |tail| ==> (head + tail)[k] == tail[k - |head|];
      head + tail
  }

  /** What holds of the globals in every run from the start: nothing ever
      writes GLOBAL_SPEED, and the wanted direction is the initial 0 or one of
      the values the camera thread stores, never 3. */
  predicate Invariant(s: Snapshot) {
    s.speed == 0 && (s.wanted == 0 || s.wanted == -1 || s.wanted == -2 || s.wanted == 1 || s.wanted == 2)
  }

  lemma {:induction false} RunKeepsInvariant(s: Snapshot, trace: seq<Event>)
    requires Invariant(s)
    ensures Invariant(Run(s, trace))
    decreases |trace|
  {
    if trace != [] {
      RunKeepsInvariant(Step(s, trace[0]), trace[1..]);
    }
  }

  /** Whatever happens, the report always shows speed 0. */
  lemma SpeedAlwaysReportedZero(trace: seq<Event>)
    ensures Run(Initial, trace).speed == 0
    ensures SpeedLine(Run(Initial, trace).speed) == "speed: 0\n"
  {
    RunKeepsInvariant(Initial, trace);
  }

  /** Since 3 is never stored, the decision loop only turns right for an
      obstacle on the left. */
  lemma SoftRightOnlyForObstacle(trace: seq<Event>)
    ensures ChooseBranch(Run(Initial, trace)) == SoftTurnRight ==> Run(Initial, trace).left < SideDistance
  {
    RunKeepsInvariant(Initial, trace);
  }

  /** A "[right]" verdict stores 1, which the decision loop reads as "turn
      left": with the way clear, the next tick turns left. */
  lemma RightVerdictTurnsLeft(s: Snapshot)
    requires s.center >= ObstacleDistance && s.left >= SideDistance
    ensures TickFrames(Step(s, Perceived(Right))) == [(CmdSoftTurn, TurnLeft)]
  {
  }

  /** A mode byte from the controller that is not in the states table is
      stored as is, and then the source's status text reads past the end of
      the table. */
  lemma UnlistedModeReachable()
    ensures Run(Initial, [Received([CmdTeensyMode, 5])]).mode == 5
    ensures StatusText(Run(Initial, [Received([CmdTeensyMode, 5])])).None?
  {
    var trace := [Received([CmdTeensyMode, 5])];
    assert Ingest(Initial, [CmdTeensyMode, 5]) == Initial.(mode := 5);
    assert Run(Initial, trace) == Run(Initial.(mode := 5), trace[1..]);
    assert trace[1..] == [];
    assert !ListsId(States, 5);
  }
}
