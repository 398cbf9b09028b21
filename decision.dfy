/** One iteration of the decision loop (`IntelThreadProc`): a first-match
    priority chain over the wanted direction and the three distances, each
    branch sending a fixed sequence of commands. */
module Decision {
  import opened Protocol
  import opened Telemetry

  /** The five branches of the chain, in priority order. */
  datatype Branch = VictoryDance | ObstacleBackup | SoftTurnRight | SoftTurnLeft | Cruise

  const ObstacleDistance: nat := 35
  const SideDistance: nat := 55
  const CruiseSpeed: byte := 127

  /** A branch's position in the chain, highest priority first. */
  function Rank(b: Branch): nat {
    match b
    case VictoryDance => 0
    case ObstacleBackup => 1
    case SoftTurnRight => 2
    case SoftTurnLeft => 3
    case Cruise => 4
  }

  /** The condition under which a branch fires when no earlier one does. */
  predicate Fires(b: Branch, s: Snapshot) {
    match b
    case VictoryDance => s.wanted == -1
    case ObstacleBackup => ObstacleDistance > s.center
    case SoftTurnRight => SideDistance > s.left || s.wanted == 3
    case SoftTurnLeft => SideDistance > s.right || s.wanted == 1
    case Cruise => true
  }

  /** The branch a tick takes: the first in the chain whose condition holds. */
  function ChooseBranch(s: Snapshot): (b: Branch)
    ensures Fires(b, s)
    ensures forall c: Branch :: Rank(c) < Rank(b) ==> !Fires(c, s)
  {
    if s.wanted == -1 then VictoryDance
    else if s.center < ObstacleDistance then ObstacleBackup
    else if s.left < SideDistance || s.wanted == 3 then SoftTurnRight
    else if s.right < SideDistance || s.wanted == 1 then SoftTurnLeft
    else Cruise
  }

  /** The commands a branch sends, in order (the sleeps between them are not
      modelled): between one and four frames, each a well-typed command. */
  function BranchFrames(b: Branch): (r: seq<Frame>)
    ensures 1 <= |r| <= 4
    ensures forall k :: 0 <= k < |r| ==> WellTypedFrame(r[k])
  {
    assert States[2].id == StateOrders && States[3].id == StateDance;
    assert Turns[0].id == TurnNone && Turns[1].id == TurnLeft && Turns[2].id == TurnRight;
    assert Moves[0].id == MoveForward;
    match b
    case VictoryDance => [(CmdChangeState, StateDance), (CmdChangeState, StateOrders)]
    case ObstacleBackup =>
      [(CmdSpeed, 0), (CmdSpeed, CruiseSpeed), (CmdHardTurn, TurnLeft), (CmdHardTurn, TurnNone)]
    case SoftTurnRight => [(CmdSoftTurn, TurnRight)]
    case SoftTurnLeft => [(CmdSoftTurn, TurnLeft)]
    case Cruise => [(CmdHardTurn, TurnNone), (CmdSpeed, CruiseSpeed), (CmdSetDirection, MoveForward)]
  }

  /** The commands one tick sends: whatever the globals hold, at least one
      and at most four well-typed commands. */
  function TickFrames(s: Snapshot): (r: seq<Frame>)
    ensures 1 <= |r| <= 4
    ensures forall k :: 0 <= k < |r| ==> WellTypedFrame(r[k])
  {
    BranchFrames(ChooseBranch(s))
  }

  /** The command sent once before the loop starts: state "orders". */
  const StartFrame: Frame := (CmdChangeState, StateOrders)

  /** The command sent before the loop is a well-typed command. */
  lemma StartFrameWellTyped()
    ensures WellTypedFrame(StartFrame)
  {
    assert States[2].id == StateOrders;
  }

  /** A wanted direction of -1 (victory) pre-empts every other rule. */
  lemma VictoryPreemptsAll(s: Snapshot)
    requires s.wanted == -1
    ensures TickFrames(s) == [(CmdChangeState, StateDance), (CmdChangeState, StateOrders)]
  {
  }

  /** The obstacle backup pre-empts both soft turns: with the center closer than
      35 and no victory it is sent whatever the side distances and the wanted
      direction are. */
  lemma ObstaclePreemptsSteering(s: Snapshot)
    requires s.wanted != -1 && s.center < ObstacleDistance
    ensures TickFrames(s) == [(CmdSpeed, 0), (CmdSpeed, 127), (CmdHardTurn, TurnLeft), (CmdHardTurn, TurnNone)]
  {
  }

  /** With every distance clear and a wanted direction other than victory,
      right or left (1 or 3), the tick cruises forward. */
  lemma ClearPathCruises(s: Snapshot)
    requires s.center >= ObstacleDistance && s.left >= SideDistance && s.right >= SideDistance
    requires s.wanted != -1 && s.wanted != 1 && s.wanted != 3
    ensures TickFrames(s) == [(CmdHardTurn, TurnNone), (CmdSpeed, 127), (CmdSetDirection, MoveForward)]
  {
  }
}
