/** Validation of command batches: all or nothing, with the first problem reported. */
module CommandValidation {
  import opened Basics
  import opened Commands

  datatype Settings = Settings(
    strict: bool,
    maxBatchCommands: nat,
    requireCorrelation: bool,
    requireStateBasis: bool,
    allowLegacyAiAdmin: bool,
    rejectUnsupportedArms: bool
  )

  /** What the validator reads of the match: map extents, own live units, known unit definitions. */
  datatype World = World(maxX: real, maxZ: real, liveUnits: set<int>, unitDefs: set<int>)

  datatype IssueCode =
    | EmptyCommand
    | TooManyCommands
    | MissingClientCommandId
    | MissingStateBasis
    | MissingTargetUnit
    | TargetDrift
    | MissingCommandIntent
    | CommandRequiresAdminChannel
    | CommandArmNotDispatched
    | InvalidOptionBits
    | InvalidEnumValue
    | PositionNonFinite
    | PositionOutOfMap
    | UnknownUnitDef
    | TargetUnitNotOwned
    | StaleOrDuplicateBatchSeq
    | QueueFull

  datatype Status = BatchAccepted | RejectedInvalid | RejectedStale | RejectedQueueFull

  datatype Verdict = Verdict(status: Status, acceptedCount: nat, issue: Option<(IssueCode, nat)>)

  predicate OwnsLiveUnit(w: World, id: int) {
    id > 0 && id in w.liveUnits
  }

  /** Options of a supported arm may set the three lowest bits only. */
  const OPTION_LIMIT := 8

  /** Unit-bound commands name the unit the whole batch is for. */
  function TargetIssue(c: Command, batchTarget: int): Option<IssueCode> {
    if !IsUnitBound(c.arm) then None
    else if c.unitId <= 0 then Some(MissingTargetUnit)
    else if c.unitId != batchTarget then Some(TargetDrift)
    else None
  }

  predicate NeedsAdmin(arm: Arm) {
    arm.PauseTeam? || arm.GiveMe? || arm.GiveMeNewUnit?
  }

  function PositionIssue(w: World, c: Command): Option<IssueCode> {
    if !HasPosition(c.arm) then None
    else if c.x.NonFinite? || c.y.NonFinite? || c.z.NonFinite? then Some(PositionNonFinite)
    else if 0.0 <= c.x.value <= w.maxX && 0.0 <= c.z.value <= w.maxZ then None
    else Some(PositionOutOfMap)
  }

  /** The first check a command fails. */
  function CommandIssue(s: Settings, w: World, c: Command): Option<IssueCode> {
    if c.arm.NotSet? then Some(MissingCommandIntent)
    else if !s.allowLegacyAiAdmin && NeedsAdmin(c.arm) then Some(CommandRequiresAdminChannel)
    else if (s.rejectUnsupportedArms || s.strict) && !IsSupported(c.arm) then Some(CommandArmNotDispatched)
    else if IsSupported(c.arm) && HasOptions(c.arm) && c.options >= OPTION_LIMIT then Some(InvalidOptionBits)
    else if (c.arm.SetMoveState? || c.arm.SetFireState?) && !(0 <= c.state <= 2) then Some(InvalidEnumValue)
    else if PositionIssue(w, c).Some? then PositionIssue(w, c)
    else if c.arm.BuildUnit? && !(c.defId > 0 && c.defId in w.unitDefs) then Some(UnknownUnitDef)
    else None
  }

  /** What is wrong with one command of a batch. */
  function IssueOf(s: Settings, w: World, b: Batch, i: nat): Option<IssueCode>
    requires i < |b.commands|
  {
    var issue := TargetIssue(b.commands[i], ToInt32(b.targetUnitId));
    if issue.Some? then issue else CommandIssue(s, w, b.commands[i])
  }

  /** What is wrong with the batch before its commands are looked at. */
  function ShapeIssue(s: Settings, b: Batch): Option<IssueCode> {
    if b.commands == [] then Some(EmptyCommand)
    else if s.maxBatchCommands > 0 && |b.commands| > s.maxBatchCommands then Some(TooManyCommands)
    else if s.requireCorrelation && b.clientCommandId.None? then Some(MissingClientCommandId)
    else if s.requireStateBasis && !(b.basedOnFrame && b.basedOnStateSeq) then Some(MissingStateBasis)
    else None
  }

  predicate BindsUnit(b: Batch) {
    exists i | 0 <= i < |b.commands| :: IsUnitBound(b.commands[i].arm)
  }

  /** Everything a batch must satisfy. */
  ghost predicate Admissible(s: Settings, w: World, b: Batch) {
    && ShapeIssue(s, b).None?
    && (forall i | 0 <= i < |b.commands| :: IssueOf(s, w, b, i).None?)
    && (BindsUnit(b) ==> OwnsLiveUnit(w, ToInt32(b.targetUnitId)))
  }

  /** What acceptance means for one command of the batch. */
  predicate Acceptable(s: Settings, w: World, b: Batch, c: Command) {
    && !c.arm.NotSet?
    && (IsUnitBound(c.arm) ==> c.unitId == ToInt32(b.targetUnitId) > 0)
    && (c.arm.PauseTeam? || c.arm.GiveMe? || c.arm.GiveMeNewUnit? ==> s.allowLegacyAiAdmin)
    && (s.strict || s.rejectUnsupportedArms ==> IsSupported(c.arm))
    && (IsSupported(c.arm) && HasOptions(c.arm) ==> c.options < 8)
    && (c.arm.SetMoveState? || c.arm.SetFireState? ==> 0 <= c.state <= 2)
    && (HasPosition(c.arm) ==>
          && c.x.Finite? && c.y.Finite? && c.z.Finite?
          && 0.0 <= c.x.value <= w.maxX && 0.0 <= c.z.value <= w.maxZ)
    && (c.arm.BuildUnit? ==> c.defId > 0 && c.defId in w.unitDefs)
  }

  /** What acceptance means for a batch. */
  predicate AcceptableBatch(s: Settings, w: World, b: Batch) {
    && b.commands != [] && (s.maxBatchCommands == 0 || |b.commands| <= s.maxBatchCommands)
    && (s.requireCorrelation ==> b.clientCommandId.Some?)
    && (s.requireStateBasis ==> b.basedOnFrame && b.basedOnStateSeq)
    && (forall i | 0 <= i < |b.commands| :: Acceptable(s, w, b, b.commands[i]))
    && (forall i | 0 <= i < |b.commands| && IsUnitBound(b.commands[i].arm) :: b.commands[i].unitId in w.liveUnits)
  }

  /** The command has the defect that the code names. */
  predicate HasDefect(s: Settings, w: World, b: Batch, c: Command, code: IssueCode) {
    match code
    case MissingTargetUnit => IsUnitBound(c.arm) && c.unitId <= 0
    case TargetDrift => IsUnitBound(c.arm) && c.unitId > 0 && c.unitId != ToInt32(b.targetUnitId)
    case MissingCommandIntent => c.arm.NotSet?
    case CommandRequiresAdminChannel =>
      (c.arm.PauseTeam? || c.arm.GiveMe? || c.arm.GiveMeNewUnit?) && !s.allowLegacyAiAdmin
    case CommandArmNotDispatched => !IsSupported(c.arm) && (s.strict || s.rejectUnsupportedArms)
    case InvalidOptionBits => IsSupported(c.arm) && HasOptions(c.arm) && c.options >= 8
    case InvalidEnumValue => (c.arm.SetMoveState? || c.arm.SetFireState?) && (c.state < 0 || c.state > 2)
    case PositionNonFinite => HasPosition(c.arm) && (c.x.NonFinite? || c.y.NonFinite? || c.z.NonFinite?)
    case PositionOutOfMap =>
      && HasPosition(c.arm) && c.x.Finite? && c.z.Finite?
      && (c.x.value < 0.0 || c.x.value > w.maxX || c.z.value < 0.0 || c.z.value > w.maxZ)
    case UnknownUnitDef => c.arm.BuildUnit? && (c.defId <= 0 || c.defId !in w.unitDefs)
    case _ => false
  }

  lemma IssueIsDefect(s: Settings, w: World, b: Batch, i: nat)
    requires i < |b.commands| && IssueOf(s, w, b, i).Some?
    ensures HasDefect(s, w, b, b.commands[i], IssueOf(s, w, b, i).value)
  {
    hide IsSupported;
    hide HasOptions;
    hide HasPosition;
    hide IsUnitBound;
  }

  /** The batch, or its command at the index, has the defect that the code names. */
  predicate Blames(s: Settings, w: World, b: Batch, code: IssueCode, index: nat) {
    match code
    case EmptyCommand => b.commands == []
    case TooManyCommands => 0 < s.maxBatchCommands < |b.commands|
    case MissingClientCommandId => s.requireCorrelation && b.clientCommandId.None?
    case MissingStateBasis => s.requireStateBasis && !(b.basedOnFrame && b.basedOnStateSeq)
    case TargetUnitNotOwned => ToInt32(b.targetUnitId) <= 0 || ToInt32(b.targetUnitId) !in w.liveUnits
    case _ => index < |b.commands| && HasDefect(s, w, b, b.commands[index], code)
  }

  lemma NoIssueMeansAcceptable(s: Settings, w: World, b: Batch, i: nat)
    requires i < |b.commands|
    ensures IssueOf(s, w, b, i).None? <==> Acceptable(s, w, b, b.commands[i])
  {
    hide IsSupported;
    hide HasOptions;
    hide HasPosition;
    hide IsUnitBound;
  }

  /** The checks one after the other admit exactly the batches that satisfy all of it. */
  lemma AdmissibleMeansAcceptable(s: Settings, w: World, b: Batch)
    ensures Admissible(s, w, b) <==> AcceptableBatch(s, w, b)
  {
    forall i | 0 <= i < |b.commands|
      ensures IssueOf(s, w, b, i).None? <==> Acceptable(s, w, b, b.commands[i])
    {
      NoIssueMeansAcceptable(s, w, b, i);
    }
    hide IsUnitBound;
    hide IsSupported;
    hide HasOptions;
    hide HasPosition;
    hide IssueOf;
    if BindsUnit(b) {
      var i :| 0 <= i < |b.commands| && IsUnitBound(b.commands[i].arm);
      assert Acceptable(s, w, b, b.commands[i]) ==> b.commands[i].unitId == ToInt32(b.targetUnitId) > 0;
    }
  }

  /** v reports the first problem: of the batch, of a command with only sound ones before it, or the owner. */
  ghost predicate ReportsFirst(s: Settings, w: World, b: Batch, code: IssueCode, index: nat) {
    if ShapeIssue(s, b).Some? then code == ShapeIssue(s, b).value && index == 0
    else if forall i | 0 <= i < |b.commands| :: IssueOf(s, w, b, i).None? then code == TargetUnitNotOwned && index == 0
    else
      && index < |b.commands| && IssueOf(s, w, b, index) == Some(code)
      && forall i | 0 <= i < index :: IssueOf(s, w, b, i).None?
  }

  /** A batch is accepted whole or rejected whole. */
  method ValidateBatch(s: Settings, w: World, b: Batch) returns (v: Verdict)
    ensures v.status.BatchAccepted? <==> Admissible(s, w, b)
    ensures v.status.BatchAccepted? <==> AcceptableBatch(s, w, b)
    ensures v.status.BatchAccepted? ==> v.acceptedCount == |b.commands| && v.issue.None?
    ensures !v.status.BatchAccepted? ==>
      v.acceptedCount == 0 && v.issue.Some? && ReportsFirst(s, w, b, v.issue.value.0, v.issue.value.1)
    ensures v.issue.Some? ==> Blames(s, w, b, v.issue.value.0, v.issue.value.1)
    ensures v.status.RejectedStale? <==> v.issue.Some? && v.issue.value.0.MissingStateBasis?
    ensures v.status.RejectedStale? <==> ShapeIssue(s, b) == Some(MissingStateBasis)
    ensures !v.status.RejectedQueueFull?
  {
    AdmissibleMeansAcceptable(s, w, b);
    hide AcceptableBatch;
    var shape := ShapeIssue(s, b);
    if shape.Some? {
      var status := if shape.value.MissingStateBasis? then RejectedStale else RejectedInvalid;
      return Verdict(status, 0, Some((shape.value, 0)));
    }
    var hasUnitBoundCommand := false;
    for i := 0 to |b.commands|
      invariant forall j | 0 <= j < i :: IssueOf(s, w, b, j).None?
      invariant hasUnitBoundCommand <==> exists j | 0 <= j < i :: IsUnitBound(b.commands[j].arm)
    {
      hide IsUnitBound;
      hide CommandIssue;
      var c := b.commands[i];
      if IsUnitBound(c.arm) {
        hasUnitBoundCommand := true;
      }
      var issue := TargetIssue(c, ToInt32(b.targetUnitId));
      if issue.Some? {
        assert IssueOf(s, w, b, i) == issue;
        IssueIsDefect(s, w, b, i);
        return Verdict(RejectedInvalid, 0, Some((issue.value, i)));
      }
      issue := CommandIssue(s, w, c);
      assert IssueOf(s, w, b, i) == issue;
      if issue.Some? {
        IssueIsDefect(s, w, b, i);
        return Verdict(RejectedInvalid, 0, Some((issue.value, i)));
      }
    }
    if hasUnitBoundCommand && !OwnsLiveUnit(w, ToInt32(b.targetUnitId)) {
      return Verdict(RejectedInvalid, 0, Some((TargetUnitNotOwned, 0)));
    }
    return Verdict(BatchAccepted, |b.commands|, None);
  }

  /** Every command of an accepted batch has a dispatch target: -1 if it is game-wide, otherwise its
      own unit, which is positive, and live and owned when the batch was validated. */
  lemma AcceptedCommandDispatches(s: Settings, w: World, b: Batch, i: nat)
    requires Admissible(s, w, b) && i < |b.commands|
    ensures var c := b.commands[i];
      && !c.arm.NotSet?
      && DispatchTarget(ToInt32(b.targetUnitId), c) == Some(if IsGameWide(c.arm) then -1 else c.unitId)
      && (!IsGameWide(c.arm) ==> c.unitId > 0 && OwnsLiveUnit(w, c.unitId))
  {
    assert IssueOf(s, w, b, i).None?;
    ArmsArePartitioned(b.commands[i].arm);
  }

  /** Strict validation lets only fifteen kinds of command through, all for the unit of the batch, with options of
      three bits, and with a place on the map where they take one. */
  lemma StrictMeansSupported(s: Settings, w: World, b: Batch, i: nat)
    requires s.strict && Admissible(s, w, b) && i < |b.commands|
    ensures IsSupported(b.commands[i].arm) && b.commands[i].unitId == ToInt32(b.targetUnitId) > 0
    ensures var c := b.commands[i];
      && c.arm in {MoveUnit, Patrol, Fight, AttackArea, Stop, Wait, BuildUnit, Repair, ReclaimUnit, ReclaimArea,
                   ResurrectInArea, SelfDestruct, SetWantedMaxSpeed, SetFireState, SetMoveState}
      && c.options < 8
      && (c.arm in {MoveUnit, Patrol, Fight, AttackArea, BuildUnit, ReclaimArea, ResurrectInArea} ==>
            c.x.Finite? && c.y.Finite? && c.z.Finite? && 0.0 <= c.x.value <= w.maxX && 0.0 <= c.z.value <= w.maxZ)
  {
    assert IssueOf(s, w, b, i).None?;
    ArmsArePartitioned(b.commands[i].arm);
  }
}
