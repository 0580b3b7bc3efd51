/** Commands, what the validator asks of them, and where they are dispatched. */
module Commands {
  import opened Basics

  /** The arms of a command; NotSet is a command without one. */
  datatype Arm =
    | NotSet
    | DrawAddPoint | DrawAddLine | DrawRemovePoint | SendTextMessage | SetLastPosMessage | SendResources
    | SetMyIncomeShareDirect | SetShareLevel | PauseTeam | GroupAddUnit | GroupRemoveUnit | InitPath
    | GetApproxLength | GetNextWaypoint | FreePath | GiveMe | GiveMeNewUnit | CallLuaRules | CallLuaUi
    | CreateSplineFigure | CreateLineFigure | SetFigurePosition | SetFigureColor | RemoveFigure | DrawUnit
    | BuildUnit | Stop | Wait | TimedWait | SquadWait | DeathWait | GatherWait | MoveUnit | Patrol | Fight
    | Attack | AttackArea | Guard | Repair | ReclaimUnit | ReclaimArea | ReclaimInArea | ReclaimFeature
    | RestoreArea | Resurrect | ResurrectInArea | Capture | CaptureArea | SetBase | SelfDestruct | LoadUnits
    | LoadUnitsArea | LoadOnto | UnloadUnit | UnloadUnitsArea | SetWantedMaxSpeed | Stockpile | Dgun | Custom
    | SetOnOff | SetRepeat | SetMoveState | SetFireState | SetTrajectory | SetAutoRepairLevel | SetIdleMode

  /** Arms that act on the game, not on a unit. */
  predicate IsGameWide(arm: Arm) {
    match arm
    case
      SendTextMessage | SetLastPosMessage | PauseTeam | InitPath | GetApproxLength | GetNextWaypoint |
      FreePath | CallLuaRules | CallLuaUi | SetMyIncomeShareDirect | SetShareLevel | DrawAddPoint |
      DrawAddLine | DrawRemovePoint | CreateSplineFigure | CreateLineFigure | SetFigurePosition |
      SetFigureColor | RemoveFigure | DrawUnit | GiveMeNewUnit | SendResources | GiveMe => true
    case _ => false
  }

  /** Arms that carry a unit_id. */
  predicate IsUnitBound(arm: Arm) {
    match arm
    case
      BuildUnit | Stop | Wait | TimedWait | SquadWait | DeathWait | GatherWait | MoveUnit | Patrol | Fight |
      Attack | AttackArea | Guard | Repair | ReclaimUnit | ReclaimArea | ReclaimInArea | ReclaimFeature |
      RestoreArea | Resurrect | ResurrectInArea | Capture | CaptureArea | SetBase | SelfDestruct | LoadUnits |
      LoadUnitsArea | LoadOnto | UnloadUnit | UnloadUnitsArea | SetWantedMaxSpeed | Stockpile | Dgun | Custom |
      SetOnOff | SetRepeat | SetMoveState | SetFireState | SetTrajectory | SetAutoRepairLevel | SetIdleMode |
      GroupAddUnit | GroupRemoveUnit => true
    case _ => false
  }

  /** Arms with a position in the world. */
  predicate HasPosition(arm: Arm) {
    match arm
    case
      DrawAddPoint | DrawRemovePoint | SetLastPosMessage | GiveMeNewUnit | SetFigurePosition | DrawUnit |
      BuildUnit | MoveUnit | Patrol | Fight | AttackArea | ReclaimArea | ReclaimInArea | RestoreArea |
      ResurrectInArea | CaptureArea | SetBase | LoadUnitsArea | UnloadUnit | UnloadUnitsArea => true
    case _ => false
  }

  /** Arms with option bits. */
  predicate HasOptions(arm: Arm) {
    match arm
    case
      BuildUnit | Stop | Wait | TimedWait | SquadWait | DeathWait | GatherWait | MoveUnit | Patrol | Fight |
      Attack | AttackArea | Guard | Repair | ReclaimUnit | ReclaimArea | ReclaimInArea | ReclaimFeature |
      RestoreArea | Resurrect | ResurrectInArea | Capture | CaptureArea | SetBase | SelfDestruct | LoadUnits |
      LoadUnitsArea | LoadOnto | UnloadUnit | UnloadUnitsArea | SetWantedMaxSpeed | Stockpile | Dgun | Custom |
      SetOnOff | SetRepeat | SetMoveState | SetFireState | SetTrajectory | SetAutoRepairLevel | SetIdleMode => true
    case _ => false
  }

  /** Arms the gateway advertises as dispatched. */
  predicate IsSupported(arm: Arm) {
    match arm
    case
      MoveUnit | Patrol | Fight | AttackArea | Stop | Wait | BuildUnit | Repair | ReclaimUnit | ReclaimArea |
      ResurrectInArea | SelfDestruct | SetWantedMaxSpeed | SetFireState | SetMoveState => true
    case _ => false
  }

  /** Every arm is bound to a unit or game-wide, and not both. Fifteen of the former are supported. */
  lemma ArmsArePartitioned(arm: Arm)
    ensures arm.NotSet? || (IsUnitBound(arm) <==> !IsGameWide(arm))
    ensures arm.NotSet? ==> !IsUnitBound(arm) && !IsGameWide(arm)
    ensures IsSupported(arm) ==> IsUnitBound(arm)
    ensures IsSupported(arm) <==>
      arm in {MoveUnit, Patrol, Fight, AttackArea, Stop, Wait, BuildUnit, Repair, ReclaimUnit, ReclaimArea,
              ResurrectInArea, SelfDestruct, SetWantedMaxSpeed, SetFireState, SetMoveState}
  {
  }

  /** A single-precision coordinate. */
  datatype Coordinate = NonFinite | Finite(value: real)

  datatype Command = Command(
    arm: Arm,
    unitId: int,
    options: nat,
    state: int,
    defId: int,
    x: Coordinate,
    y: Coordinate,
    z: Coordinate
  )

  datatype Batch = Batch(
    batchSeq: nat,
    targetUnitId: nat,
    clientCommandId: Option<nat>,
    basedOnFrame: bool,
    basedOnStateSeq: bool,
    commands: seq<Command>
  )

  const INT32_LIMIT := 0x8000_0000

  /** The cast of a 32-bit unsigned value to signed. */
  function ToInt32(n: nat): int {
    if n % UINT32_LIMIT < INT32_LIMIT then n % UINT32_LIMIT else n % UINT32_LIMIT - UINT32_LIMIT
  }

  /** The unit a command is dispatched to: -1 for game-wide arms, nobody without a target. */
  function DispatchTarget(authoritativeTarget: int, c: Command): Option<int> {
    if IsGameWide(c.arm) then Some(-1)
    else if authoritativeTarget == 0 then None
    else Some(authoritativeTarget)
  }
}
