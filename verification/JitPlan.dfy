/** What the compile loop decides, as a function of the bytecode and the fusion policy: which groups it
    emits, where, and with how many stack bytes reserved in front of each. */
module JitPlan {
  import opened Basics
  import opened JitModel
  import opened JitLayout
  import opened JitLinking

  type Policy = (Op, Op, Option<Op>) -> Fusion

  /** The policy is asked about operations no branch goes to. */
  ghost function FusionAt(bc: Bytecode, policy: Policy, p: int): Fusion
    requires p in bc
  {
    var next := After(bc, p);
    if next in bc && !IsTarget(bc, next) then
      var third := After(bc, next);
      var k := if third in bc && !IsTarget(bc, third) then Some(bc[third].op) else None;
      var choice := policy(bc[p].op, bc[next].op, k);
      if Fits(choice, bc[p].op, Some(bc[next].op), k) then choice else NoFusion
    else NoFusion
  }

  datatype Plan = Plan(groups: map<int, Group>, size: nat, waiting: bool, reserved: int)

  ghost function GroupAt(bc: Bytecode, policy: Policy, p: int, plan: Plan): Group
    requires p in bc
  {
    Group(plan.size, plan.reserved, plan.waiting,
          if NeedsStub(bc, p, plan.waiting) then Stub else Code(FusionAt(bc, policy, p)))
  }

  lemma PlannedKindFits(bc: Bytecode, policy: Policy, p: int, plan: Plan)
    requires p in bc
    ensures KindFits(bc, p, GroupAt(bc, policy, p, plan).kind)
  {
  }

  ghost function WithGroup(bc: Bytecode, length: nat, p: int, g: Group, plan: Plan): Plan
    requires Sized(bc, length) && KindFits(bc, p, g.kind)
  {
    Plan(plan.groups[p := g],
         plan.size + |Body(bc, length, p, g.kind, g.reserved)|,
         WaitingAfter(bc, p, g.kind, plan.waiting),
         ReservedAfter(bc, length, p, g.kind, g.reserved))
  }

  /** The plan once everything from p on is handled. */
  ghost function PlanFrom(bc: Bytecode, length: nat, policy: Policy, p: int, plan: Plan): Plan
    requires Sized(bc, length)
    decreases length - p
  {
    if p !in bc then plan
    else
      var g := GroupAt(bc, policy, p, plan);
      PlannedKindFits(bc, policy, p, plan);
      NextIsLater(bc, length, p, g.kind);
      PlanFrom(bc, length, policy, NextPos(bc, p, g.kind), WithGroup(bc, length, p, g, plan))
  }

  ghost function PlanOf(bc: Bytecode, length: nat, policy: Policy): Plan
    requires Sized(bc, length)
  {
    PlanFrom(bc, length, policy, 0, Plan(map[], 0, true, 0))
  }

  /** A plan under way leads to the plan of the function. While no stub has bytes reserved the reserves are
      right; stubs have none when no branch enters a run. */
  ghost predicate Kept(bc: Bytecode, length: nat, policy: Policy, p: int, plan: Plan) {
    && Sized(bc, length)
    && (StubsReserveNothing(plan.groups) ==>
          ReserveHolds(bc, length, p, plan.reserved) && GroupReservesHold(bc, length, plan.groups))
    && (RunsUnbroken(bc) ==> StubsReserveNothing(plan.groups))
    && PlanFrom(bc, length, policy, p, plan) == PlanOf(bc, length, policy)
  }

  lemma KeptAdvances(bc: Bytecode, length: nat, policy: Policy, p: int, plan: Plan, g: Group)
    requires Kept(bc, length, policy, p, plan) && p in bc && p !in plan.groups && g == GroupAt(bc, policy, p, plan)
    ensures KindFits(bc, p, g.kind)
    ensures Kept(bc, length, policy, NextPos(bc, p, g.kind), WithGroup(bc, length, p, g, plan))
  {
    PlannedKindFits(bc, policy, p, plan);
    hide ReserveHolds;
    hide GroupReservesHold;
    hide FusionAt;
    hide RunsUnbroken;
    if RunsUnbroken(bc) && g.kind.Stub? {
      TargetsReserveNothing(bc, length, p, g.reserved);
    }
    if StubsReserveNothing(plan.groups[p := g]) {
      ReservesAdvance(bc, length, p, plan.groups, g);
    }
  }
}
