/** Admin actions: validation, leases on the exclusive controls, and the audit log. */
module Administration {
  import opened Basics
  import opened Commands

  datatype Role = Unspecified | Ai | Observer | Operator | Admin | TestHarness

  datatype Caller = Caller(identity: string, role: Role)

  datatype Intent =
    | NoIntent
    | Pause
    | GlobalSpeed(speed: Coordinate)
    | CheatPolicy
    | ResourceGrant(team: int, resource: int, amount: Coordinate)
    | UnitSpawn(team: int, unitDef: int, x: Coordinate, y: Coordinate, z: Coordinate)
    | Lifecycle
    | UnitTransfer(unit: int, fromTeam: int, toTeam: int)

  datatype Action = Action(intent: Intent, basedOnFrame: uint32, releaseExisting: bool, reason: string)

  datatype Settings = Settings(
    enabled: bool,
    cheatsAllowed: bool,
    unitTransferEnabled: bool,
    leaseTtl: uint32,
    minSpeed: real,
    maxSpeed: real,
    minX: real,
    minZ: real,
    maxX: real,
    maxZ: real,
    teams: seq<int>,
    resources: seq<int>,
    unitDefs: seq<int>,
    liveUnitOwners: map<int, int>
  )

  datatype Status =
    | Accepted
    | PermissionDenied
    | Disabled
    | RunMode
    | InvalidValue
    | InvalidTarget
    | StaleBasis
    | Conflict
    | Executed

  datatype IssueCode =
    | MissingPermission
    | ActionDisabled
    | RunModeForbidsCheats
    | InvalidSpeedRange
    | InvalidTeam
    | InvalidResource
    | InvalidAmount
    | UnknownUnitDef
    | PositionOutOfMap
    | UnknownUnit
    | UnitOwnerMismatch
    | StaleSnapshotEpoch
    | ControlConflict

  datatype Verdict = Verdict(status: Status, issue: Option<IssueCode>)

  const ACCEPTED := Verdict(Accepted, None)

  function Rejected(status: Status, code: IssueCode): Verdict {
    Verdict(status, Some(code))
  }

  datatype Lease = Lease(
    control: string,
    owner: string,
    role: Role,
    acquired: uint32,
    heartbeat: uint32,
    expires: uint32
  )

  /** testRun: cheats are allowed in this run. */
  datatype Event = Event(
    id: nat,
    caller: string,
    role: Role,
    control: string,
    frame: uint32,
    stateSeq: nat,
    status: Status,
    reason: string,
    testRun: bool
  )

  datatype State = State(leases: map<string, Lease>, log: seq<Event>, nextAuditId: nat)

  function ControlName(i: Intent): string {
    match i
    case Pause => "pause"
    case GlobalSpeed(_) => "global_speed"
    case CheatPolicy => "cheat_policy"
    case ResourceGrant(_, _, _) => "resource_grant"
    case UnitSpawn(_, _, _, _, _) => "unit_spawn"
    case Lifecycle => "lifecycle"
    case UnitTransfer(_, _, _) => "unit_transfer"
    case NoIntent => "unknown"
  }

  predicate RoleCanExecute(r: Role) {
    r.Operator? || r.Admin? || r.TestHarness?
  }

  predicate IsValidTeam(s: Settings, team: int) {
    if s.teams == [] then team >= 0 else team in s.teams
  }

  predicate IsValidResource(s: Settings, resource: int) {
    if s.resources == [] then resource == 0 || resource == 1 else resource in s.resources
  }

  predicate IsValidUnitDef(s: Settings, def: int) {
    if s.unitDefs == [] then def > 0 else def in s.unitDefs
  }

  predicate IsWithinMap(s: Settings, x: real, z: real) {
    (s.maxX > s.minX && s.maxZ > s.minZ) ==> s.minX <= x <= s.maxX && s.minZ <= z <= s.maxZ
  }

  function TransferVerdict(s: Settings, unit: int, fromTeam: int, toTeam: int): Verdict {
    if unit <= 0 || (s.liveUnitOwners != map[] && unit !in s.liveUnitOwners) then Rejected(InvalidTarget, UnknownUnit)
    else if !IsValidTeam(s, toTeam) then Rejected(InvalidTarget, InvalidTeam)
    else if unit in s.liveUnitOwners && fromTeam != s.liveUnitOwners[unit] then
      Rejected(InvalidTarget, UnitOwnerMismatch)
    else if unit in s.liveUnitOwners && toTeam == s.liveUnitOwners[unit] then Rejected(InvalidValue, UnitOwnerMismatch)
    else ACCEPTED
  }

  /** What the settings and the values of the action alone decide. */
  function IntentVerdict(s: Settings, i: Intent): Verdict {
    match i
    case CheatPolicy => if s.cheatsAllowed then ACCEPTED else Rejected(RunMode, RunModeForbidsCheats)
    case GlobalSpeed(v) =>
      if v.Finite? && s.minSpeed <= v.value <= s.maxSpeed then ACCEPTED else Rejected(InvalidValue, InvalidSpeedRange)
    case ResourceGrant(team, resource, amount) =>
      if !IsValidTeam(s, team) then Rejected(InvalidTarget, InvalidTeam)
      else if !IsValidResource(s, resource) then Rejected(InvalidTarget, InvalidResource)
      else if amount.NonFinite? || amount.value <= 0.0 then Rejected(InvalidValue, InvalidAmount)
      else ACCEPTED
    case UnitSpawn(team, def, x, y, z) =>
      if !IsValidTeam(s, team) then Rejected(InvalidTarget, InvalidTeam)
      else if !IsValidUnitDef(s, def) then Rejected(InvalidTarget, UnknownUnitDef)
      else if x.NonFinite? || y.NonFinite? || z.NonFinite? || !IsWithinMap(s, x.value, z.value) then
        Rejected(InvalidValue, PositionOutOfMap)
      else ACCEPTED
    case UnitTransfer(unit, from, to) =>
      if !s.unitTransferEnabled then Rejected(RunMode, ActionDisabled) else TransferVerdict(s, unit, from, to)
    case _ => ACCEPTED
  }

  const STALE_AFTER := 300

  /** Frame arithmetic is in 32 bits. */
  function Plus(a: uint32, b: uint32): uint32 {
    (a + b) % UINT32_LIMIT
  }

  /** Another caller holds the lease and the action does not insist. */
  predicate Conflicts(leases: map<string, Lease>, caller: Caller, a: Action) {
    var control := ControlName(a.intent);
    control in leases && leases[control].owner != caller.identity && !a.releaseExisting
  }

  function Validated(s: Settings, leases: map<string, Lease>, caller: Caller, a: Action, frame: uint32): Verdict {
    if !RoleCanExecute(caller.role) then Rejected(PermissionDenied, MissingPermission)
    else if !s.enabled then Rejected(Disabled, ActionDisabled)
    else if IntentVerdict(s, a.intent) != ACCEPTED then IntentVerdict(s, a.intent)
    else if a.basedOnFrame != 0 && Plus(a.basedOnFrame, STALE_AFTER) < frame then
      Rejected(StaleBasis, StaleSnapshotEpoch)
    else if Conflicts(leases, caller, a) then Rejected(Conflict, ControlConflict)
    else ACCEPTED
  }

  lemma OnlyExecutionExecutes(s: Settings, leases: map<string, Lease>, caller: Caller, a: Action, frame: uint32)
    ensures !Validated(s, leases, caller, a, frame).status.Executed?
  {
  }

  // ---- What acceptance means ----

  predicate TeamIsKnown(s: Settings, team: int) {
    (s.teams == [] && team >= 0) || team in s.teams
  }

  /** The settings and the state of the match allow the action as such. */
  predicate Sensible(s: Settings, i: Intent) {
    match i
    case GlobalSpeed(v) => v.Finite? && s.minSpeed <= v.value <= s.maxSpeed
    case CheatPolicy => s.cheatsAllowed
    case ResourceGrant(team, resource, amount) =>
      && TeamIsKnown(s, team) && amount.Finite? && amount.value > 0.0
      && ((s.resources == [] && 0 <= resource <= 1) || resource in s.resources)
    case UnitSpawn(team, def, x, y, z) =>
      && TeamIsKnown(s, team) && ((s.unitDefs == [] && def > 0) || def in s.unitDefs)
      && x.Finite? && y.Finite? && z.Finite?
      && (s.minX < s.maxX && s.minZ < s.maxZ ==> s.minX <= x.value <= s.maxX && s.minZ <= z.value <= s.maxZ)
    case UnitTransfer(unit, from, to) =>
      && s.unitTransferEnabled && unit > 0 && TeamIsKnown(s, to)
      && (unit in s.liveUnitOwners || s.liveUnitOwners == map[])
      && (unit in s.liveUnitOwners ==> from == s.liveUnitOwners[unit] != to)
    case _ => true
  }

  /** An action of frame 0 has no basis; otherwise it is 300 frames old at most, counted in 32 bits. */
  predicate Fresh(a: Action, frame: uint32) {
    a.basedOnFrame == 0 || (a.basedOnFrame + 300) % 0x1_0000_0000 >= frame
  }

  /** Nobody else holds the control, or the caller insists. */
  predicate Unopposed(leases: map<string, Lease>, caller: Caller, a: Action) {
    var control := ControlName(a.intent);
    control in leases ==> leases[control].owner == caller.identity || a.releaseExisting
  }

  /** What the verdict says, check by check: only operators, admins and the test harness may act at all. */
  predicate Explains(s: Settings, leases: map<string, Lease>, caller: Caller, a: Action, frame: uint32, v: Verdict) {
    var mayAct := caller.role.Operator? || caller.role.Admin? || caller.role.TestHarness?;
    && (v.status.PermissionDenied? <==> !mayAct)
    && (v.status.Disabled? <==> mayAct && !s.enabled)
    && (v.status.StaleBasis? <==> mayAct && s.enabled && Sensible(s, a.intent) && !Fresh(a, frame))
    && (v.status.Conflict? <==>
          mayAct && s.enabled && Sensible(s, a.intent) && Fresh(a, frame) && !Unopposed(leases, caller, a))
    && (v.status.Accepted? <==>
          mayAct && s.enabled && Sensible(s, a.intent) && Fresh(a, frame) && Unopposed(leases, caller, a))
    && (v.status.RunMode? <==>
          && mayAct && s.enabled
          && ((a.intent.CheatPolicy? && !s.cheatsAllowed) || (a.intent.UnitTransfer? && !s.unitTransferEnabled)))
    && (v.status.Accepted? ==> v.issue.None?) && (v.status.PermissionDenied? ==> v.issue == Some(MissingPermission))
    && (v.status.Disabled? ==> v.issue == Some(ActionDisabled))
    && (v.status.Conflict? ==> v.issue == Some(ControlConflict))
    && (v.status.StaleBasis? ==> v.issue == Some(StaleSnapshotEpoch))
  }

  lemma SensibleIsAccepted(s: Settings, i: Intent)
    ensures IntentVerdict(s, i) == ACCEPTED <==> Sensible(s, i)
    ensures IntentVerdict(s, i) == ACCEPTED || IntentVerdict(s, i).status in {RunMode, InvalidValue, InvalidTarget}
    ensures IntentVerdict(s, i) == ACCEPTED || IntentVerdict(s, i).issue.Some?
    ensures IntentVerdict(s, i).status.RunMode? <==>
      (i.CheatPolicy? && !s.cheatsAllowed) || (i.UnitTransfer? && !s.unitTransferEnabled)
  {
  }

  lemma ValidationExplains(s: Settings, leases: map<string, Lease>, caller: Caller, a: Action, frame: uint32)
    ensures Explains(s, leases, caller, a, frame, Validated(s, leases, caller, a, frame))
  {
    SensibleIsAccepted(s, a.intent);
    hide Sensible;
    hide IntentVerdict;
    hide ControlName;
  }

  /** Only these two controls are leased. */
  predicate IsLeased(control: string) {
    control == "pause" || control == "global_speed"
  }

  // ---- The steps on values ----

  datatype Op =
    | Execute(caller: Caller, action: Action, frame: uint32, stateSeq: nat)
    | Heartbeat(control: string, caller: Caller, frame: uint32)
    | ExpireLeases(frame: uint32)

  function EventOf(s: Settings, id: nat, caller: Caller, a: Action, frame: uint32, stateSeq: nat,
                   status: Status): Event {
    Event(id, caller.identity, caller.role, ControlName(a.intent), frame, stateSeq, status, a.reason, s.cheatsAllowed)
  }

  function Audited(s: Settings, t: State, caller: Caller, a: Action, frame: uint32, stateSeq: nat,
                   status: Status): State {
    t.(log := t.log + [EventOf(s, t.nextAuditId, caller, a, frame, stateSeq, status)], nextAuditId := t.nextAuditId + 1)
  }

  function Granted(s: Settings, t: State, caller: Caller, control: string, frame: uint32): State {
    if !IsLeased(control) then t
    else
      var lease := Lease(control, caller.identity, caller.role, frame, frame, Plus(frame, s.leaseTtl));
      t.(leases := t.leases[control := lease])
  }

  function Outcome(s: Settings, t: State, op: Op): Status
    requires op.Execute?
  {
    var verdict := Validated(s, t.leases, op.caller, op.action, op.frame);
    if verdict.status.Accepted? then Executed else verdict.status
  }

  predicate Expired(lease: Lease, frame: uint32) {
    lease.expires != 0 && lease.expires <= frame
  }

  function Next(s: Settings, t: State, op: Op): State {
    match op
    case Execute(caller, a, frame, stateSeq) =>
      var status := Outcome(s, t, op);
      var granted := if status.Executed? then Granted(s, t, caller, ControlName(a.intent), frame) else t;
      Audited(s, granted, caller, a, frame, stateSeq, status)
    case Heartbeat(control, caller, frame) =>
      if control in t.leases && t.leases[control].owner == caller.identity then
        t.(leases := t.leases[control := t.leases[control].(heartbeat := frame, expires := Plus(frame, s.leaseTtl))])
      else t
    case ExpireLeases(frame) =>
      t.(leases := map k | k in t.leases && !Expired(t.leases[k], frame) :: t.leases[k])
  }

  /** A lease taken in this frame, for one lifetime. */
  function NewLease(s: Settings, control: string, caller: Caller, frame: uint32): Lease {
    Lease(control, caller.identity, caller.role, frame, frame, (frame + s.leaseTtl) % 0x1_0000_0000)
  }

  // ---- The controller ----

  class AdminController {
    const settings: Settings
    var leases: map<string, Lease>
    var auditLog: seq<Event>
    var nextAuditId: nat

    function Now(): State
      reads this
    {
      State(leases, auditLog, nextAuditId)
    }

    constructor (settings: Settings)
      ensures this.settings == settings && Now() == State(map[], [], 1)
    {
      this.settings := settings;
      leases, auditLog, nextAuditId := map[], [], 1;
    }

    /** The checks, in the order in which they reject. */
    method Validate(caller: Caller, a: Action, frame: uint32) returns (verdict: Verdict)
      ensures verdict == Validated(settings, leases, caller, a, frame)
      ensures Explains(settings, leases, caller, a, frame, verdict)
    {
      ValidationExplains(settings, leases, caller, a, frame);
      hide Explains;
      if !RoleCanExecute(caller.role) {
        return Rejected(PermissionDenied, MissingPermission);
      }
      if !settings.enabled {
        return Rejected(Disabled, ActionDisabled);
      }
      if a.intent.CheatPolicy? && !settings.cheatsAllowed {
        return Rejected(RunMode, RunModeForbidsCheats);
      }
      if a.intent.UnitTransfer? && !settings.unitTransferEnabled {
        return Rejected(RunMode, ActionDisabled);
      }
      verdict := IntentVerdict(settings, a.intent);
      if verdict != ACCEPTED {
        return;
      }
      if a.basedOnFrame != 0 && Plus(a.basedOnFrame, STALE_AFTER) < frame {
        return Rejected(StaleBasis, StaleSnapshotEpoch);
      }
      var control := ControlName(a.intent);
      if control in leases && leases[control].owner != caller.identity && !a.releaseExisting {
        return Rejected(Conflict, ControlConflict);
      }
    }

    method Execute(caller: Caller, a: Action, frame: uint32, stateSeq: nat) returns (verdict: Verdict)
      modifies this
      ensures verdict.status == Outcome(settings, old(Now()), Op.Execute(caller, a, frame, stateSeq))
      ensures verdict.issue == Validated(settings, old(leases), caller, a, frame).issue
      ensures Now() == Next(settings, old(Now()), Op.Execute(caller, a, frame, stateSeq))
      ensures Explains(settings, old(leases), caller, a, frame,
                       if verdict.status.Executed? then verdict.(status := Accepted) else verdict)
      ensures leases ==
        if !verdict.status.Executed? || !(a.intent.Pause? || a.intent.GlobalSpeed?) then old(leases)
        else
          var control := if a.intent.Pause? then "pause" else "global_speed";
          old(leases)[control := NewLease(settings, control, caller, frame)]
      ensures auditLog == old(auditLog) + [
        Event(old(nextAuditId), caller.identity, caller.role, ControlName(a.intent), frame, stateSeq, verdict.status,
              a.reason, settings.cheatsAllowed)]
    {
      hide Explains;
      verdict := Validate(caller, a, frame);
      OnlyExecutionExecutes(settings, leases, caller, a, frame);
      hide Validated;
      if !verdict.status.Accepted? {
        Audit(caller, a, frame, stateSeq, verdict.status);
        return;
      }
      verdict := verdict.(status := Executed);
      var control := ControlName(a.intent);
      if control == "pause" || control == "global_speed" {
        var lease := Lease(control, caller.identity, caller.role, frame, frame, Plus(frame, settings.leaseTtl));
        leases := leases[control := lease];
      }
      Audit(caller, a, frame, stateSeq, verdict.status);
    }

    method Audit(caller: Caller, a: Action, frame: uint32, stateSeq: nat, status: Status)
      modifies this`auditLog, this`nextAuditId
      ensures Now() == Audited(settings, old(Now()), caller, a, frame, stateSeq, status)
    {
      var control := ControlName(a.intent);
      var event := Event(nextAuditId, caller.identity, caller.role, control, frame, stateSeq, status, a.reason,
                         settings.cheatsAllowed);
      auditLog := auditLog + [event];
      nextAuditId := nextAuditId + 1;
    }

    method Heartbeat(control: string, caller: Caller, frame: uint32)
      modifies this`leases
      ensures Now() == Next(settings, old(Now()), Op.Heartbeat(control, caller, frame))
      ensures leases.Keys == old(leases).Keys && forall k | k in leases ::
        if k == control && old(leases)[k].owner == caller.identity then
          leases[k] == old(leases)[k].(heartbeat := frame, expires := (frame + settings.leaseTtl) % 0x1_0000_0000)
        else leases[k] == old(leases)[k]
    {
      if control !in leases {
        return;
      }
      if leases[control].owner != caller.identity {
        return;
      }
      leases := leases[control := leases[control].(heartbeat := frame, expires := Plus(frame, settings.leaseTtl))];
    }

    /** The sweep erases while it walks over the leases, in any order. */
    method ExpireLeases(frame: uint32)
      modifies this`leases
      ensures Now() == Next(settings, old(Now()), Op.ExpireLeases(frame))
      ensures forall k ::
        k in leases <==> k in old(leases) && (old(leases)[k].expires == 0 || old(leases)[k].expires > frame)
      ensures forall k | k in leases :: leases[k] == old(leases)[k]
    {
      var ahead := leases.Keys;
      while ahead != {}
        invariant ahead <= leases.Keys <= old(leases).Keys
        invariant forall k | k in leases :: leases[k] == old(leases)[k]
        invariant forall k | k in old(leases) && k !in ahead :: k in leases <==> !Expired(old(leases)[k], frame)
        decreases |ahead|
      {
        var k :| k in ahead;
        if leases[k].expires != 0 && leases[k].expires <= frame {
          leases := leases - {k};
        }
        ahead := ahead - {k};
      }
      assert leases == Next(settings, old(Now()), Op.ExpireLeases(frame)).leases;
    }
  }

  // ---- What every run keeps ----

  ghost predicate LeaseHolds(s: Settings, k: string, lease: Lease) {
    && IsLeased(k) && lease.control == k && RoleCanExecute(lease.role)
    && lease.expires == Plus(lease.heartbeat, s.leaseTtl)
  }

  /** Leases exist on the leased controls only and run out one lifetime after the last heartbeat;
      audit ids count from 1. */
  ghost predicate Inv(s: Settings, t: State) {
    && (forall k | k in t.leases :: LeaseHolds(s, k, t.leases[k]))
    && t.nextAuditId == |t.log| + 1
    && (forall i | 0 <= i < |t.log| :: t.log[i].id == i + 1)
  }

  lemma NextKeepsInv(s: Settings, t: State, op: Op)
    requires Inv(s, t)
    ensures Inv(s, Next(s, t, op))
  {
    hide Validated;
    hide Plus;
    if op.Execute? && Outcome(s, t, op).Executed? {
      ExecutedMeansAllowed(s, t, op);
    }
  }

  lemma ExecutedMeansAllowed(s: Settings, t: State, op: Op)
    requires op.Execute? && Outcome(s, t, op).Executed?
    ensures RoleCanExecute(op.caller.role) && !Conflicts(t.leases, op.caller, op.action)
  {
  }

  /** A rejected action changes the audit log only. */
  lemma RejectedOnlyAudits(s: Settings, t: State, op: Op)
    requires op.Execute? && !Outcome(s, t, op).Executed?
    ensures Next(s, t, op).leases == t.leases && t.log <= Next(s, t, op).log
  {
  }

  /** This step takes control k away from its owner: it is a sweep past the lease's end, or another
      caller's executed action that insists on release. */
  ghost predicate TakesAway(s: Settings, t: State, op: Op, k: string)
    requires k in t.leases
  {
    match op
    case Execute(caller, a, _, _) =>
      && Outcome(s, t, op).Executed? && ControlName(a.intent) == k
      && a.releaseExisting && caller.identity != t.leases[k].owner
    case Heartbeat(_, _, _) => false
    case ExpireLeases(frame) => Expired(t.leases[k], frame)
  }

  /** k still has the owner it had. */
  ghost predicate KeepsOwner(t: State, u: State, k: string)
    requires k in t.leases
  {
    k in u.leases && u.leases[k].owner == t.leases[k].owner
  }

  lemma OwnerChangesOnlyByTaking(s: Settings, t: State, op: Op, k: string)
    requires Inv(s, t) && k in t.leases
    ensures KeepsOwner(t, Next(s, t, op), k) <==> !TakesAway(s, t, op, k)
  {
    hide Plus;
    if op.Execute? && Outcome(s, t, op).Executed? {
      hide Validated;
      ExecutedMeansAllowed(s, t, op);
      assert LeaseHolds(s, k, t.leases[k]);
    }
  }

  ghost predicate IsRun(s: Settings, states: seq<State>, ops: seq<Op>) {
    && |states| == |ops| + 1 && states[0] == State(map[], [], 1)
    && forall i | 0 <= i < |ops| :: states[i + 1] == Next(s, states[i], ops[i])
  }

  lemma {:induction false} RunsKeepInv(s: Settings, states: seq<State>, ops: seq<Op>, n: nat)
    requires IsRun(s, states, ops) && n < |states|
    ensures Inv(s, states[n])
  {
    hide Next;
    if n > 0 {
      hide Inv;
      RunsKeepInv(s, states, ops, n - 1);
      assert states[n - 1 + 1] == Next(s, states[n - 1], ops[n - 1]);
      NextKeepsInv(s, states[n - 1], ops[n - 1]);
    }
  }

  /** Over every stretch of every run a control leaves its owner only through such a step. */
  lemma {:induction false} LeasesChangeHandsFairly(s: Settings, states: seq<State>, ops: seq<Op>, from: nat,
                                                   until: nat, k: string)
    requires IsRun(s, states, ops) && from <= until < |states| && k in states[from].leases
    ensures KeepsOwner(states[from], states[until], k) ||
      exists i | from <= i < until :: k in states[i].leases && TakesAway(s, states[i], ops[i], k)
    decreases until - from
  {
    hide TakesAway;
    hide Next;
    hide Inv;
    if from < until {
      LeasesChangeHandsFairly(s, states, ops, from, until - 1, k);
      var last := until - 1;
      if KeepsOwner(states[from], states[last], k) {
        RunsKeepInv(s, states, ops, last);
        OwnerChangesOnlyByTaking(s, states[last], ops[last], k);
        assert states[last + 1] == Next(s, states[last], ops[last]);
      }
    }
  }

  /** How many actions a run of operations contains. */
  function Actions(ops: seq<Op>): nat {
    if ops == [] then 0 else Actions(ops[..|ops| - 1]) + if ops[|ops| - 1].Execute? then 1 else 0
  }

  /** The event belongs to operation n, with the verdict that was given then. */
  ghost predicate Records(s: Settings, states: seq<State>, ops: seq<Op>, n: nat, e: Event)
    requires n < |ops| && n < |states|
  {
    && ops[n].Execute?
    && e == EventOf(s, e.id, ops[n].caller, ops[n].action, ops[n].frame, ops[n].stateSeq, Outcome(s, states[n], ops[n]))
  }

  /** The audit log has exactly one event per action, each with its verdict. */
  lemma {:induction false} EveryActionIsAudited(s: Settings, states: seq<State>, ops: seq<Op>, n: nat)
    requires IsRun(s, states, ops) && n <= |ops|
    ensures |states[n].log| == Actions(ops[..n])
    ensures forall i | 0 <= i < n && ops[i].Execute? ::
      Actions(ops[..i]) < |states[n].log| && Records(s, states, ops, i, states[n].log[Actions(ops[..i])])
  {
    hide Outcome;
    hide Granted;
    if n > 0 {
      EveryActionIsAudited(s, states, ops, n - 1);
      assert states[n - 1 + 1] == Next(s, states[n - 1], ops[n - 1]);
      assert ops[..n][..n - 1] == ops[..n - 1];
      LogGrows(s, states[n - 1], ops[n - 1]);
    }
  }

  lemma LogGrows(s: Settings, t: State, op: Op)
    ensures Next(s, t, op).log ==
      if !op.Execute? then t.log
      else t.log + [EventOf(s, t.nextAuditId, op.caller, op.action, op.frame, op.stateSeq, Outcome(s, t, op))]
  {
    hide Outcome;
  }

  /** A sweep removes a lease exactly when its lifetime has passed since the last heartbeat, as long as
      the end neither wraps past frame 2^32 nor is frame 0. */
  lemma SweepIsExact(s: Settings, lease: Lease, frame: uint32)
    requires lease.expires == Plus(lease.heartbeat, s.leaseTtl) && lease.heartbeat <= frame
    ensures (Expired(lease, frame) <==> frame - lease.heartbeat >= s.leaseTtl) <==>
            0 < lease.heartbeat + s.leaseTtl <= UINT32_LIMIT
  {
  }
}
