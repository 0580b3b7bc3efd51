/** Functions whose compiled code goes wrong. */
module JitExamples {
  import opened Basics
  import opened JitModel
  import opened JitLayout
  import opened JitLinking
  import opened JitPlan
  import opened JitControl
  import opened JitSimulation
  import opened JitExactness
  import opened JitCompilation

  /** Every operation by itself. */
  const ALONE: Policy := (i: Op, j: Op, k: Option<Op>) => NoFusion

  /** One position of a function compiled without fusion. */
  lemma AloneStep(bc: Bytecode, length: nat, p: int, plan: Plan) returns (plan': Plan)
    requires Sized(bc, length) && p in bc
    ensures var g := GroupAt(bc, ALONE, p, plan);
      && g.addr == plan.size && g.reserved == plan.reserved && plan'.groups == plan.groups[p := g]
      && g.kind == (if IsTarget(bc, p) && plan.waiting && !bc[p].op.Entry? then Stub else Code(NoFusion))
      && (g.kind.Stub? ==> plan' == Plan(plan.groups[p := g], plan.size + 1, true, plan.reserved))
      && (g.kind.Code? ==> plan' == Emits(bc[p].op, RunBytes(bc, length, p), plan).(groups := plan.groups[p := g]))
    ensures PlanFrom(bc, length, ALONE, p, plan) == PlanFrom(bc, length, ALONE, After(bc, p), plan')
  {
    var g := GroupAt(bc, ALONE, p, plan);
    PlannedKindFits(bc, ALONE, p, plan);
    plan' := WithGroup(bc, length, p, g, plan);
    assert PlanFrom(bc, length, ALONE, p, plan) == PlanFrom(bc, length, ALONE, After(bc, p), plan');
    hide PlanFrom;
    hide Sized;
    hide IsTarget;
    hide RunBytes;
  }

  /** What compiling an operation by itself does to a plan. */
  function Emits(op: Op, run: nat, plan: Plan): Plan {
    match op
    case Push(bytes, _) =>
      if plan.reserved == 0 then plan.(size := plan.size + 2, reserved := run - bytes)
      else plan.(size := plan.size + 1, reserved := plan.reserved - bytes)
    case Branch(_, _, _) => plan.(size := plan.size + 1)
    case Entry => plan.(waiting := false)
    case Leave(_) => plan.(size := plan.size + 1, waiting := true)
    case Plain(_, _) => plan.(size := plan.size + 1, waiting := Marked(Some(op), plan.waiting))
  }

  lemma PlanEnds(bc: Bytecode, length: nat, plan: Plan)
    requires Sized(bc, length) && length !in bc
    ensures PlanFrom(bc, length, ALONE, length, plan) == plan
  {
  }

  /** Two pushes in a row. */
  lemma TwoPushes(bc: Bytecode, length: nat, p: int, b: nat)
    requires Sized(bc, length) && p in bc && bc[p].op.Push? && After(bc, p) in bc && bc[After(bc, p)].op.Push?
    requires bc[p].op.bytes == bc[After(bc, p)].op.bytes == b
    requires var end := After(bc, After(bc, p)); end in bc && !bc[end].op.Push?
    ensures RunBytes(bc, length, p) == 2 * b
  {
    hide Sized;
    var q := After(bc, p);
    assert RunBytes(bc, length, After(bc, q)) == 0;
    assert RunBytes(bc, length, q) == b;
  }

  // ---- Bytes reserved for a run outlive it ----

  /** A branch from 1 goes to the second push of a run that cannot be reached otherwise. Its stub leaves the bytes
      reserved by the first push behind, and the push at 7, a run of its own, takes them for its own. */
  const STALE: Bytecode := map[
    0 := Instr(Entry, 1),
    1 := Instr(Branch(false, 0, 2), 2),
    3 := Instr(Leave(1), 1),
    4 := Instr(Push(4, 2), 1),
    5 := Instr(Push(4, 3), 1),
    6 := Instr(Entry, 1),
    7 := Instr(Push(4, 4), 1),
    8 := Instr(Leave(5), 1)
  ]

  ghost predicate IsStale(bc: Bytecode) {
    bc == STALE
  }

  lemma StaleOps(bc: Bytecode)
    requires IsStale(bc)
    ensures 0 in bc && bc[0] == Instr(Entry, 1)
    ensures 1 in bc && bc[1] == Instr(Branch(false, 0, 2), 2)
    ensures 3 in bc && bc[3] == Instr(Leave(1), 1)
    ensures 4 in bc && bc[4] == Instr(Push(4, 2), 1)
    ensures 5 in bc && bc[5] == Instr(Push(4, 3), 1)
    ensures 6 in bc && bc[6] == Instr(Entry, 1)
    ensures 7 in bc && bc[7] == Instr(Push(4, 4), 1)
    ensures 8 in bc && bc[8] == Instr(Leave(5), 1)
    ensures forall p :: p in bc <==> 0 <= p < 9 && p != 2
  {
  }

  lemma StaleIsWellFormed(bc: Bytecode)
    requires IsStale(bc)
    ensures WellFormed(bc, 9) && Sized(bc, 9)
    ensures forall t :: IsTarget(bc, t) <==> t == 5
  {
    StaleOps(bc);
    hide IsStale;
    assert Target(bc, 1) == 5;
  }

  lemma StalePlan(bc: Bytecode)
    requires IsStale(bc)
    ensures Sized(bc, 9)
    ensures var groups := PlanOf(bc, 9, ALONE).groups;
      && 6 in groups && 7 in groups && groups[6].kind == groups[7].kind == Code(NoFusion)
      && groups[7].reserved == 4 && groups[7].addr == 5
  {
    hide IsStale;
    hide WellFormed;
    hide Sized;
    hide IsTarget;
    hide RunBytes;
    hide GroupAt;
    hide PlanFrom;
    StaleOps(bc);
    StaleIsWellFormed(bc);
    TwoPushes(bc, 9, 4, 4);
    var p0 := Plan(map[], 0, true, 0);
    var p1 := AloneStep(bc, 9, 0, p0);
    var p3 := AloneStep(bc, 9, 1, p1);
    var p4 := AloneStep(bc, 9, 3, p3);
    var p5 := AloneStep(bc, 9, 4, p4);
    var p6 := AloneStep(bc, 9, 5, p5);
    var p7 := AloneStep(bc, 9, 6, p6);
    var p8 := AloneStep(bc, 9, 7, p7);
    var p9 := AloneStep(bc, 9, 8, p8);
    PlanEnds(bc, 9, p9);
  }

  lemma StaleUnsound(bc: Bytecode, groups: map<int, Group>, waiting: bool)
    requires IsStale(bc) && Sized(bc, 9) && groups == PlanOf(bc, 9, ALONE).groups
    ensures !Sound(bc, 9, groups, waiting)
  {
    hide PlanFrom;
    StalePlan(bc);
    StaleOps(bc);
    hide IsStale;
    var entry, push := Arrival(6, false), Arrival(7, false);
    assert [entry, push][..1] == [entry];
    assert IsPath(bc, 9, groups, [entry]);
    assert Leads(bc, 9, groups, entry, push);
    assert IsPath(bc, 9, groups, [entry, push]);
    assert !Expected(bc, 9, groups, waiting, push);
  }

  lemma StaleCode(bc: Bytecode, out: Output, code: seq<Native>)
    requires IsStale(bc) && Compiled(bc, 9, out, code) && out.groups == PlanOf(bc, 9, ALONE).groups
    ensures 5 < |code| && code[5] == Store(0, 4, 4)
  {
    StalePlan(bc);
    StaleOps(bc);
    GroupIsPlaced(bc, 9, out, code, 7);
    hide IsStale;
    hide Compiled;
    hide PlanFrom;
    var body := Body(bc, 9, 7, Code(NoFusion), 4);
    assert body == [Store(0, 4, 4)];
    assert Alike(code[5 + 0], body[0]);
  }

  /** Compiled, this function is not sound: from one of its entries some meaning makes native code and
      interpreter part for good. */
  lemma StaleRunIsMisplaced(out: Output, code: seq<Native>) returns (takes: set<int>, v: VmState<Log>, n: nat)
    requires Compiled(STALE, 9, out, code) && Sized(STALE, 9) && out.groups == PlanOf(STALE, 9, ALONE).groups
    ensures v.pc in STALE && STALE[v.pc].op.Entry? && v.pc in out.groups
    ensures !Follows(STALE, 9, out, code, Recording(takes), Running(out.groups[v.pc].addr, v.sp, v.x), v, n)
  {
    StaleUnsound(STALE, out.groups, out.waiting);
    hide Compiled;
    hide Sound;
    takes, v, n := UnsoundParts(STALE, 9, out, code);
  }

  /** The compiler does compile it so: the push at 7 has become a bare store, which moves no stack pointer. */
  method CompileStale() returns (code: seq<Native>, ghost out: Output)
    ensures Sized(STALE, 9) && Compiled(STALE, 9, out, code) && out.groups == PlanOf(STALE, 9, ALONE).groups
    ensures 7 in out.groups && out.groups[7].addr == 5 < |code| && code[5] == Store(0, 4, 4)
    ensures !Sound(STALE, 9, out.groups, out.waiting)
  {
    StaleIsWellFormed(STALE);
    var compiler := new JitCompiler(STALE, 9, ALONE);
    out := compiler.CompileFunction();
    code := compiler.code;
    StalePlan(STALE);
    StaleCode(STALE, out, code);
    StaleUnsound(STALE, out.groups, out.waiting);
  }

  // ---- A way out makes code look reachable ----

  /** The pushes at 5 and 6 follow an operation nothing leads to. Its way out makes them look reachable, so the push
      at 6, where the branch from 1 goes, gets no stub but a store into bytes that only 5 reserves. */
  const EXITS: Bytecode := map[
    0 := Instr(Entry, 1),
    1 := Instr(Branch(false, 0, 3), 2),
    3 := Instr(Leave(1), 1),
    4 := Instr(Plain(2, Reachable), 1),
    5 := Instr(Push(4, 3), 1),
    6 := Instr(Push(4, 4), 1),
    7 := Instr(Leave(5), 1)
  ]

  ghost predicate IsExits(bc: Bytecode) {
    bc == EXITS
  }

  lemma ExitsOps(bc: Bytecode)
    requires IsExits(bc)
    ensures 0 in bc && bc[0] == Instr(Entry, 1)
    ensures 1 in bc && bc[1] == Instr(Branch(false, 0, 3), 2)
    ensures 3 in bc && bc[3] == Instr(Leave(1), 1)
    ensures 4 in bc && bc[4] == Instr(Plain(2, Reachable), 1)
    ensures 5 in bc && bc[5] == Instr(Push(4, 3), 1)
    ensures 6 in bc && bc[6] == Instr(Push(4, 4), 1)
    ensures 7 in bc && bc[7] == Instr(Leave(5), 1)
    ensures forall p :: p in bc <==> 0 <= p < 8 && p != 2
  {
  }

  lemma ExitsIsWellFormed(bc: Bytecode)
    requires IsExits(bc)
    ensures WellFormed(bc, 8) && Sized(bc, 8)
    ensures forall t :: IsTarget(bc, t) <==> t == 6
  {
    ExitsOps(bc);
    hide IsExits;
    assert Target(bc, 1) == 6;
  }

  lemma ExitsPlan(bc: Bytecode)
    requires IsExits(bc)
    ensures Sized(bc, 8)
    ensures var groups := PlanOf(bc, 8, ALONE).groups;
      && 0 in groups && 1 in groups && 6 in groups && groups[6].reserved == 4 && groups[6].addr == 5
      && groups[0].kind == groups[1].kind == groups[6].kind == Code(NoFusion)
  {
    hide IsExits;
    hide WellFormed;
    hide Sized;
    hide IsTarget;
    hide RunBytes;
    hide GroupAt;
    hide PlanFrom;
    ExitsOps(bc);
    ExitsIsWellFormed(bc);
    TwoPushes(bc, 8, 5, 4);
    var p0 := Plan(map[], 0, true, 0);
    var p1 := AloneStep(bc, 8, 0, p0);
    var p3 := AloneStep(bc, 8, 1, p1);
    var p4 := AloneStep(bc, 8, 3, p3);
    var p5 := AloneStep(bc, 8, 4, p4);
    var p6 := AloneStep(bc, 8, 5, p5);
    var p7 := AloneStep(bc, 8, 6, p6);
    var p8 := AloneStep(bc, 8, 7, p7);
    PlanEnds(bc, 8, p8);
  }

  lemma ExitsUnsound(bc: Bytecode, groups: map<int, Group>, waiting: bool)
    requires IsExits(bc) && Sized(bc, 8) && groups == PlanOf(bc, 8, ALONE).groups
    ensures !Sound(bc, 8, groups, waiting)
  {
    hide PlanFrom;
    ExitsPlan(bc);
    ExitsOps(bc);
    hide IsExits;
    var path := [Arrival(0, false), Arrival(1, false), Arrival(6, false)];
    assert path[..1] == [path[0]] && path[..2][..1] == path[..1];
    assert IsPath(bc, 8, groups, path[..1]);
    assert Leads(bc, 8, groups, path[0], path[1]);
    assert IsPath(bc, 8, groups, path[..2]);
    assert Leads(bc, 8, groups, path[1], path[2]);
    assert IsPath(bc, 8, groups, path);
    assert !Expected(bc, 8, groups, waiting, path[2]);
  }

  lemma ExitsCode(bc: Bytecode, out: Output, code: seq<Native>)
    requires IsExits(bc) && Compiled(bc, 8, out, code) && out.groups == PlanOf(bc, 8, ALONE).groups
    ensures 5 < |code| && code[5] == Store(0, 4, 4)
  {
    ExitsPlan(bc);
    ExitsOps(bc);
    GroupIsPlaced(bc, 8, out, code, 6);
    hide IsExits;
    hide Compiled;
    hide PlanFrom;
    var body := Body(bc, 8, 6, Code(NoFusion), 4);
    assert body == [Store(0, 4, 4)];
    assert Alike(code[5 + 0], body[0]);
  }

  /** Nor is this one: after the branch the push at 6 writes above the stack pointer. */
  lemma ExitsRunIsMisplaced(out: Output, code: seq<Native>) returns (takes: set<int>, v: VmState<Log>, n: nat)
    requires Compiled(EXITS, 8, out, code) && Sized(EXITS, 8) && out.groups == PlanOf(EXITS, 8, ALONE).groups
    ensures v.pc in EXITS && EXITS[v.pc].op.Entry? && v.pc in out.groups
    ensures !Follows(EXITS, 8, out, code, Recording(takes), Running(out.groups[v.pc].addr, v.sp, v.x), v, n)
  {
    ExitsUnsound(EXITS, out.groups, out.waiting);
    hide Compiled;
    hide Sound;
    takes, v, n := UnsoundParts(EXITS, 8, out, code);
  }

  /** The push at 6 has become a bare store. */
  method CompileExits() returns (code: seq<Native>, ghost out: Output)
    ensures Sized(EXITS, 8) && Compiled(EXITS, 8, out, code) && out.groups == PlanOf(EXITS, 8, ALONE).groups
    ensures 6 in out.groups && out.groups[6].addr == 5 < |code| && code[5] == Store(0, 4, 4)
    ensures !Sound(EXITS, 8, out.groups, out.waiting)
  {
    ExitsIsWellFormed(EXITS);
    var compiler := new JitCompiler(EXITS, 8, ALONE);
    out := compiler.CompileFunction();
    code := compiler.code;
    ExitsPlan(EXITS);
    ExitsCode(EXITS, out, code);
    ExitsUnsound(EXITS, out.groups, out.waiting);
  }

  // ---- A call makes code look unreachable ----

  /** A call runs on into the push at 4, which reserves the bytes of 5 too. The compiler takes that for unreachable, so
      5, where the branch from 1 goes, is a stub that hands control back with the bytes still reserved. */
  const CALLS: Bytecode := map[
    0 := Instr(Entry, 1),
    1 := Instr(Branch(false, 0, 2), 2),
    3 := Instr(Plain(1, Unreachable), 1),
    4 := Instr(Push(4, 2), 1),
    5 := Instr(Push(4, 3), 1),
    6 := Instr(Leave(4), 1)
  ]

  ghost predicate IsCalls(bc: Bytecode) {
    bc == CALLS
  }

  lemma CallsOps(bc: Bytecode)
    requires IsCalls(bc)
    ensures 0 in bc && bc[0] == Instr(Entry, 1)
    ensures 1 in bc && bc[1] == Instr(Branch(false, 0, 2), 2)
    ensures 3 in bc && bc[3] == Instr(Plain(1, Unreachable), 1)
    ensures 4 in bc && bc[4] == Instr(Push(4, 2), 1)
    ensures 5 in bc && bc[5] == Instr(Push(4, 3), 1)
    ensures 6 in bc && bc[6] == Instr(Leave(4), 1)
    ensures forall p :: p in bc <==> 0 <= p < 7 && p != 2
  {
  }

  lemma CallsIsWellFormed(bc: Bytecode)
    requires IsCalls(bc)
    ensures WellFormed(bc, 7) && Sized(bc, 7)
    ensures forall t :: IsTarget(bc, t) <==> t == 5
  {
    CallsOps(bc);
    hide IsCalls;
    assert Target(bc, 1) == 5;
  }

  lemma CallsPlan(bc: Bytecode)
    requires IsCalls(bc)
    ensures Sized(bc, 7)
    ensures var groups := PlanOf(bc, 7, ALONE).groups;
      && 0 in groups && 1 in groups && 3 in groups && 4 in groups && 5 in groups
      && groups[0].kind == groups[1].kind == groups[3].kind == groups[4].kind == Code(NoFusion)
      && groups[5].kind == Stub && groups[5].reserved == 4 && groups[5].addr == 4
  {
    hide IsCalls;
    hide WellFormed;
    hide Sized;
    hide IsTarget;
    hide RunBytes;
    hide GroupAt;
    hide PlanFrom;
    CallsOps(bc);
    CallsIsWellFormed(bc);
    TwoPushes(bc, 7, 4, 4);
    var p0 := Plan(map[], 0, true, 0);
    var p1 := AloneStep(bc, 7, 0, p0);
    var p3 := AloneStep(bc, 7, 1, p1);
    var p4 := AloneStep(bc, 7, 3, p3);
    var p5 := AloneStep(bc, 7, 4, p4);
    var p6 := AloneStep(bc, 7, 5, p5);
    var p7 := AloneStep(bc, 7, 6, p6);
    PlanEnds(bc, 7, p7);
  }

  lemma CallsUnsound(bc: Bytecode, groups: map<int, Group>, waiting: bool)
    requires IsCalls(bc) && Sized(bc, 7) && groups == PlanOf(bc, 7, ALONE).groups
    ensures !Sound(bc, 7, groups, waiting)
  {
    hide PlanFrom;
    CallsPlan(bc);
    CallsOps(bc);
    hide IsCalls;
    var path := [Arrival(0, false), Arrival(1, false), Arrival(3, false), Arrival(4, false), Arrival(5, true)];
    assert path[..1] == [path[0]] && path[..2][..1] == path[..1];
    assert path[..3][..2] == path[..2] && path[..4][..3] == path[..3];
    assert IsPath(bc, 7, groups, path[..1]);
    assert Leads(bc, 7, groups, path[0], path[1]);
    assert IsPath(bc, 7, groups, path[..2]);
    assert Leads(bc, 7, groups, path[1], path[2]);
    assert IsPath(bc, 7, groups, path[..3]);
    assert Leads(bc, 7, groups, path[2], path[3]);
    assert IsPath(bc, 7, groups, path[..4]);
    assert Leads(bc, 7, groups, path[3], path[4]);
    assert IsPath(bc, 7, groups, path);
    assert !Expected(bc, 7, groups, waiting, path[4]);
  }

  lemma CallsCode(bc: Bytecode, out: Output, code: seq<Native>)
    requires IsCalls(bc) && Compiled(bc, 7, out, code) && out.groups == PlanOf(bc, 7, ALONE).groups
    ensures 4 < |code| && code[4] == Exit(5)
  {
    CallsPlan(bc);
    CallsOps(bc);
    GroupIsPlaced(bc, 7, out, code, 5);
    hide IsCalls;
    hide Compiled;
    hide PlanFrom;
    var body := Body(bc, 7, 5, Stub, 4);
    assert body == [Exit(5)];
    assert Alike(code[4 + 0], body[0]);
  }

  /** Nor is this one: past the branch, control is handed back with the stack pointer too low. */
  lemma CallsRunIsMisplaced(out: Output, code: seq<Native>) returns (takes: set<int>, v: VmState<Log>, n: nat)
    requires Compiled(CALLS, 7, out, code) && Sized(CALLS, 7) && out.groups == PlanOf(CALLS, 7, ALONE).groups
    ensures v.pc in CALLS && CALLS[v.pc].op.Entry? && v.pc in out.groups
    ensures !Follows(CALLS, 7, out, code, Recording(takes), Running(out.groups[v.pc].addr, v.sp, v.x), v, n)
  {
    CallsUnsound(CALLS, out.groups, out.waiting);
    hide Compiled;
    hide Sound;
    takes, v, n := UnsoundParts(CALLS, 7, out, code);
  }

  /** The push at 5 has become a stub. */
  method CompileCalls() returns (code: seq<Native>, ghost out: Output)
    ensures Sized(CALLS, 7) && Compiled(CALLS, 7, out, code) && out.groups == PlanOf(CALLS, 7, ALONE).groups
    ensures 5 in out.groups && out.groups[5].addr == 4 < |code| && code[4] == Exit(5)
    ensures !Sound(CALLS, 7, out.groups, out.waiting)
  {
    CallsIsWellFormed(CALLS);
    var compiler := new JitCompiler(CALLS, 7, ALONE);
    out := compiler.CompileFunction();
    code := compiler.code;
    CallsPlan(CALLS);
    CallsCode(CALLS, out, code);
    CallsUnsound(CALLS, out.groups, out.waiting);
  }
}
