/** Compiled code does what the interpreter does: every run of it, from any entry, keeps meeting the run
    of the interpreter, and hands control back in the interpreter's own state. */
module JitSimulation {
  import opened Basics
  import opened JitModel
  import opened JitLayout
  import opened JitLinking
  import opened JitControl

  /** What the compile loop establishes. */
  ghost predicate Compiled(bc: Bytecode, length: nat, out: Output, code: seq<Native>) {
    && WellFormed(bc, length)
    && Layout(bc, length, length, out) && Linked(bc, out) && EntriesHold(bc, length, out.groups)
    && code == out.code + if out.waiting then [] else [Exit(length)]
  }

  predicate Known(length: nat, out: Output, q: int) {
    q == length || q in out.groups
  }

  function AddrOf(length: nat, out: Output, q: int): nat
    requires Known(length, out, q)
  {
    if q == length then |out.code| else out.groups[q].addr
  }

  /** There is a place for the arrival, and inside a run it expects the rest of the run to be reserved. */
  ghost predicate HasCode(bc: Bytecode, length: nat, out: Output, a: Arrival)
    requires Sized(bc, length)
  {
    && Known(length, out, a.pos)
    && (a.inRun ==> a.pos in out.groups && out.groups[a.pos].reserved == RunBytes(bc, length, a.pos) > 0)
  }

  /** How far the native stack pointer is ahead. */
  function Ahead(bc: Bytecode, length: nat, a: Arrival): nat
    requires Sized(bc, length)
  {
    if a.inRun then RunBytes(bc, length, a.pos) else 0
  }

  /** The native state that corresponds to the interpreter's: same rest of the machine, and a stack pointer
      that is ahead by what is reserved. */
  function NativeAt<X>(bc: Bytecode, length: nat, out: Output, a: Arrival, v: VmState<X>): NativeState<X>
    requires Sized(bc, length) && Known(length, out, a.pos)
  {
    Running(AddrOf(length, out, a.pos), v.sp - Ahead(bc, length, a), v.x)
  }

  /** All that running the group of q depends on. */
  ghost predicate Placed(bc: Bytecode, length: nat, out: Output, code: seq<Native>, q: int) {
    && Sized(bc, length) && q in out.groups && q != length
    && var g := out.groups[q];
    && KindFits(bc, q, g.kind)
    && Shows(code, g.addr, Body(bc, length, q, g.kind, g.reserved))
    && var next := NextPos(bc, q, g.kind);
    && Known(length, out, next)
    && AddrOf(length, out, next) == g.addr + |Body(bc, length, q, g.kind, g.reserved)|
    && (next != length ==> out.groups[next].reserved == ReservedAfter(bc, length, q, g.kind, g.reserved))
  }

  lemma GroupIsPlaced(bc: Bytecode, length: nat, out: Output, code: seq<Native>, q: int)
    requires Compiled(bc, length, out, code) && q in out.groups
    ensures Placed(bc, length, out, code, q)
  {
    hide Body;
    hide ReservedAfter;
    hide NextPos;
    hide EndToEnd;
    hide Apart;
    hide Linked;
    hide OperandsHold;
    hide EntriesHold;
    hide WaitingAfter;
    hide NeedsStub;
    assert GroupHolds(bc, length, length, out, q) && q < length;
    hide Layout;
  }

  /** A jump lands where the interpreter's branch goes. */
  ghost predicate Lands(length: nat, out: Output, code: seq<Native>, k: nat) {
    k < |code| && code[k].Jump? ==>
      var t := code[k].target;
      t in out.groups && t != length && code[k].dest == Some(AddrOf(length, out, t))
  }

  lemma JumpLands(bc: Bytecode, length: nat, out: Output, code: seq<Native>, k: nat)
    requires Compiled(bc, length, out, code)
    ensures Lands(length, out, code, k)
  {
    hide EndToEnd;
    hide Apart;
    hide GroupHolds;
    if k < |code| && code[k].Jump? {
      assert code[k].target in bc;
    }
  }

  lemma NativeRuns<X>(code: seq<Native>, sem: Semantics<X>, s: NativeState<X>)
    ensures var s1 := NativeStep(code, sem, s);
      var s2 := NativeStep(code, sem, s1);
      var s3 := NativeStep(code, sem, s2);
      && NativeRun(code, sem, s, 0) == s && NativeRun(code, sem, s, 1) == s1 && NativeRun(code, sem, s, 2) == s2
      && NativeRun(code, sem, s, 3) == s3 && NativeRun(code, sem, s, 4) == NativeStep(code, sem, s3)
  {
    var s1 := NativeStep(code, sem, s);
    var s2 := NativeStep(code, sem, s1);
    var s3 := NativeStep(code, sem, s2);
    assert NativeRun(code, sem, s3, 1) == NativeRun(code, sem, NativeStep(code, sem, s3), 0);
    assert NativeRun(code, sem, s2, 2) == NativeRun(code, sem, s3, 1);
    assert NativeRun(code, sem, s1, 3) == NativeRun(code, sem, s2, 2);
    hide NativeStep;
  }

  lemma VmRuns<X>(bc: Bytecode, sem: Semantics<X>, s: VmState<X>)
    ensures var s1 := VmStep(bc, sem, s);
      var s2 := VmStep(bc, sem, s1);
      && VmRun(bc, sem, s, 0) == s && VmRun(bc, sem, s, 1) == s1 && VmRun(bc, sem, s, 2) == s2
      && VmRun(bc, sem, s, 3) == VmStep(bc, sem, s2)
  {
    var s1 := VmStep(bc, sem, s);
    var s2 := VmStep(bc, sem, s1);
    assert VmRun(bc, sem, s2, 1) == VmRun(bc, sem, VmStep(bc, sem, s2), 0);
    assert VmRun(bc, sem, s1, 2) == VmRun(bc, sem, s2, 1);
    hide VmStep;
  }

  /** Whether the branch of a group is taken. */
  predicate Decides<X>(bc: Bytecode, sem: Semantics<X>, q: int, kind: Kind, x: X) {
    && Branches(bc, q, kind)
    && var p := BranchPos(bc, q, kind);
    && p in bc && bc[p].op.Branch? && (bc[p].op.always || sem.taken(p, bc[p].op.cond, x))
  }

  /** Whether the first plain operation of a group takes its way out, without having run or having run. For a
      pointer push and two operations on the pointer only having run counts: see NullExitMisplaces. */
  predicate HandsBack<X>(bc: Bytecode, sem: Semantics<X>, q: int, kind: Kind, v: VmState<X>) {
    && KindFits(bc, q, kind) && kind.Code?
    && if kind.fusion.PushPlains? then
         LeavesAfterPush(bc, sem, q, v).Behind?
       else bc[q].op.Plain? && !sem.leaves(bc[q].op.id, v.sp, v.x).Stays?
  }

  /** What the operation behind a pointer push does with control. */
  function LeavesAfterPush<X>(bc: Bytecode, sem: Semantics<X>, q: int, v: VmState<X>): Handback
    requires KindFits(bc, q, Code(PushPlains))
  {
    sem.leaves(bc[Second(bc, q)].op.id, v.sp - 8, sem.write(v.x, v.sp - 8, 8, sem.value(bc[q].op.id, v.x)))
  }

  /** A pushed pointer that is used at once is not null. */
  predicate PointerHolds<X>(bc: Bytecode, groups: map<int, Group>, sem: Semantics<X>, v: VmState<X>) {
    v.pc in groups && groups[v.pc].kind == Code(PushPlains) && KindFits(bc, v.pc, Code(PushPlains)) ==>
      !LeavesAfterPush(bc, sem, v.pc, v).Before?
  }

  /** Nor in all the interpreter goes on to do. */
  ghost predicate PointersHold<X>(bc: Bytecode, groups: map<int, Group>, sem: Semantics<X>, v: VmState<X>) {
    forall n: nat :: PointerHolds(bc, groups, sem, VmRun(bc, sem, v, n))
  }

  predicate RunsOn<X>(bc: Bytecode, sem: Semantics<X>, q: int, kind: Kind, v: VmState<X>) {
    GoesOn(bc, q, kind) && !HandsBack(bc, sem, q, kind, v)
  }

  /** One group, a native steps and b steps of the interpreter: both machines move on to where control goes
      and correspond there again, or control goes back to the interpreter. */
  ghost predicate Advances<X>(bc: Bytecode, length: nat, out: Output, code: seq<Native>, sem: Semantics<X>,
                              here: Arrival, v: VmState<X>, a: nat, b: nat)
    requires Sized(bc, length) && HasCode(bc, length, out, here)
    requires here.pos in out.groups && KindFits(bc, here.pos, out.groups[here.pos].kind)
  {
    var kind := out.groups[here.pos].kind;
    var n', v' := NativeRun(code, sem, NativeAt(bc, length, out, here, v), a), VmRun(bc, sem, v, b);
    if RunsOn(bc, sem, here.pos, kind, v) then
      var next := Succ(bc, length, here.pos, kind, Decides(bc, sem, here.pos, kind, v'.x));
      && HasCode(bc, length, out, next) && next.pos == v'.pc && n' == NativeAt(bc, length, out, next, v')
      && a <= 2 * b && (a > 0 || next.pos > here.pos)
    else n' == Left(v'.pc, v'.sp, v'.x) && a > 0
  }

  /** All that is needed to run the group at an arrival. */
  ghost predicate Stands<X>(bc: Bytecode, length: nat, out: Output, code: seq<Native>, sem: Semantics<X>,
                            here: Arrival, v: VmState<X>) {
    && Placed(bc, length, out, code, here.pos) && HasCode(bc, length, out, here) && v.pc == here.pos
    && Expected(bc, length, out.groups, out.waiting, here) && PointerHolds(bc, out.groups, sem, v)
  }

  /** Operations emitted by themselves, pushes and branches apart. */
  lemma SimpleAdvances<X>(bc: Bytecode, length: nat, out: Output, code: seq<Native>, sem: Semantics<X>,
                          here: Arrival, v: VmState<X>)
    returns (a: nat, b: nat)
    requires Stands(bc, length, out, code, sem, here, v)
    requires var g := out.groups[here.pos];
      g.kind.Stub? || (g.kind == Code(NoFusion) && !bc[here.pos].op.Branch? && !bc[here.pos].op.Push?)
    ensures Advances(bc, length, out, code, sem, here, v, a, b)
  {
    var q, g := here.pos, out.groups[here.pos];
    NativeRuns(code, sem, NativeAt(bc, length, out, here, v));
    VmRuns(bc, sem, v);
    hide NativeRun;
    hide VmRun;
    var body := Body(bc, length, q, g.kind, g.reserved);
    assert body != [] ==> Alike(code[g.addr + 0], body[0]);
    if g.kind.Stub? || bc[q].op.Leave? {
      a, b := 1, 0;
    } else if bc[q].op.Entry? {
      a, b := 0, 1;
    } else {
      a, b := 1, if sem.leaves(bc[q].op.id, v.sp, v.x).Before? then 0 else 1;
    }
  }

  lemma PushAdvances<X>(bc: Bytecode, length: nat, out: Output, code: seq<Native>, sem: Semantics<X>,
                        here: Arrival, v: VmState<X>)
    returns (a: nat, b: nat)
    requires Stands(bc, length, out, code, sem, here, v)
    requires out.groups[here.pos].kind == Code(NoFusion) && bc[here.pos].op.Push?
    ensures Advances(bc, length, out, code, sem, here, v, a, b)
  {
    var q, g := here.pos, out.groups[here.pos];
    NativeRuns(code, sem, NativeAt(bc, length, out, here, v));
    VmRuns(bc, sem, v);
    hide NativeRun;
    hide VmRun;
    var body := Body(bc, length, q, g.kind, g.reserved);
    assert Alike(code[g.addr + 0], body[0]);
    assert |body| > 1 ==> Alike(code[g.addr + 1], body[1]);
    a, b := |body|, 1;
  }

  /** Plain operations compiled together, alone or in front of a push. */
  lemma FusedAdvances<X>(bc: Bytecode, length: nat, out: Output, code: seq<Native>, sem: Semantics<X>,
                         here: Arrival, v: VmState<X>)
    returns (a: nat, b: nat)
    requires Stands(bc, length, out, code, sem, here, v)
    requires var kind := out.groups[here.pos].kind;
      kind == Code(Pair) || kind == Code(Triple) || kind == Code(PlainPush)
    ensures Advances(bc, length, out, code, sem, here, v, a, b)
  {
    var q, g := here.pos, out.groups[here.pos];
    NativeRuns(code, sem, NativeAt(bc, length, out, here, v));
    VmRuns(bc, sem, v);
    hide NativeRun;
    hide VmRun;
    var body := Body(bc, length, q, g.kind, g.reserved);
    assert Alike(code[g.addr + 0], body[0]);
    assert Alike(code[g.addr + 1], body[1]);
    assert |body| > 2 ==> Alike(code[g.addr + 2], body[2]);
    if HandsBack(bc, sem, q, g.kind, v) {
      a, b := 1, if sem.leaves(bc[q].op.id, v.sp, v.x).Before? then 0 else 1;
    } else {
      a, b := |body|, if g.kind == Code(Triple) then 3 else 2;
    }
  }

  /** A pointer push that closes its run, and two operations on the pointer. */
  lemma PushPlainsAdvances<X>(bc: Bytecode, length: nat, out: Output, code: seq<Native>, sem: Semantics<X>,
                              here: Arrival, v: VmState<X>)
    returns (a: nat, b: nat)
    requires Stands(bc, length, out, code, sem, here, v)
    requires out.groups[here.pos].kind == Code(PushPlains)
    ensures Advances(bc, length, out, code, sem, here, v, a, b)
  {
    var q, g := here.pos, out.groups[here.pos];
    NativeRuns(code, sem, NativeAt(bc, length, out, here, v));
    VmRuns(bc, sem, v);
    hide NativeRun;
    hide VmRun;
    assert RunBytes(bc, length, q) == 8;
    var body := Body(bc, length, q, g.kind, g.reserved);
    assert Alike(code[g.addr + 0], body[0]);
    assert Alike(code[g.addr + 1], body[1]);
    assert Alike(code[g.addr + 2], body[2]);
    assert |body| > 3 ==> Alike(code[g.addr + 3], body[3]);
    if HandsBack(bc, sem, q, g.kind, v) {
      a, b := |body| - 1, 2;
    } else {
      a, b := |body|, 3;
    }
  }

  lemma BranchAdvances<X>(bc: Bytecode, length: nat, out: Output, code: seq<Native>, sem: Semantics<X>,
                          here: Arrival, v: VmState<X>)
    returns (a: nat, b: nat)
    requires Stands(bc, length, out, code, sem, here, v) && Branches(bc, here.pos, out.groups[here.pos].kind)
    requires Lands(length, out, code, out.groups[here.pos].addr)
    requires Lands(length, out, code, out.groups[here.pos].addr + 1)
    ensures Advances(bc, length, out, code, sem, here, v, a, b)
  {
    var q, g := here.pos, out.groups[here.pos];
    var body := Body(bc, length, q, g.kind, g.reserved);
    NativeRuns(code, sem, NativeAt(bc, length, out, here, v));
    VmRuns(bc, sem, v);
    hide NativeRun;
    hide VmRun;
    assert Alike(code[g.addr + 0], body[0]);
    assert |body| > 1 ==> Alike(code[g.addr + 1], body[1]);
    if HandsBack(bc, sem, q, g.kind, v) {
      a, b := 1, if sem.leaves(bc[q].op.id, v.sp, v.x).Before? then 0 else 1;
    } else {
      a, b := |body|, |body|;
    }
  }

  lemma GroupAdvances<X>(bc: Bytecode, length: nat, out: Output, code: seq<Native>, sem: Semantics<X>,
                         here: Arrival, v: VmState<X>)
    returns (a: nat, b: nat)
    requires Compiled(bc, length, out, code) && HasCode(bc, length, out, here) && here.pos != length
    requires v.pc == here.pos && Expected(bc, length, out.groups, out.waiting, here)
    requires PointerHolds(bc, out.groups, sem, v)
    ensures KindFits(bc, here.pos, out.groups[here.pos].kind) && Advances(bc, length, out, code, sem, here, v, a, b)
  {
    GroupIsPlaced(bc, length, out, code, here.pos);
    JumpLands(bc, length, out, code, out.groups[here.pos].addr);
    JumpLands(bc, length, out, code, out.groups[here.pos].addr + 1);
    hide Compiled;
    hide Lands;
    hide Advances;
    hide Expected;
    hide PointerHolds;
    match out.groups[here.pos].kind
    case Stub => a, b := SimpleAdvances(bc, length, out, code, sem, here, v);
    case Code(NoFusion) =>
      if bc[here.pos].op.Branch? {
        a, b := BranchAdvances(bc, length, out, code, sem, here, v);
      } else if bc[here.pos].op.Push? {
        a, b := PushAdvances(bc, length, out, code, sem, here, v);
      } else {
        a, b := SimpleAdvances(bc, length, out, code, sem, here, v);
      }
    case Code(Compare) => a, b := BranchAdvances(bc, length, out, code, sem, here, v);
    case Code(PushPlains) => a, b := PushPlainsAdvances(bc, length, out, code, sem, here, v);
    case _ => a, b := FusedAdvances(bc, length, out, code, sem, here, v);
  }

  // ---- Whole runs ----

  lemma {:induction false} NativeRunSplit<X>(code: seq<Native>, sem: Semantics<X>, s: NativeState<X>, a: nat, b: nat)
    ensures NativeRun(code, sem, s, a + b) == NativeRun(code, sem, NativeRun(code, sem, s, a), b)
    decreases a
  {
    if a > 0 {
      NativeRunSplit(code, sem, NativeStep(code, sem, s), a - 1, b);
    }
  }

  lemma {:induction false} VmRunSplit<X>(bc: Bytecode, sem: Semantics<X>, s: VmState<X>, a: nat, b: nat)
    ensures VmRun(bc, sem, s, a + b) == VmRun(bc, sem, VmRun(bc, sem, s, a), b)
    decreases a
  {
    if a > 0 {
      VmRunSplit(bc, sem, VmStep(bc, sem, s), a - 1, b);
    }
  }

  lemma {:induction false} StoppedStays<X>(code: seq<Native>, sem: Semantics<X>, s: NativeState<X>, n: nat)
    requires !s.Running?
    ensures NativeRun(code, sem, s, n) == s
    decreases n
  {
    if n > 0 {
      StoppedStays(code, sem, s, n - 1);
    }
  }

  /** Native code, after a steps from s, meets the interpreter after b steps from v: in corresponding states at
      an operation, or in the very state in which control was handed back. */
  ghost predicate Meets<X>(bc: Bytecode, length: nat, out: Output, code: seq<Native>, sem: Semantics<X>,
                           s: NativeState<X>, v: VmState<X>, a: nat, b: nat)
    requires Sized(bc, length)
  {
    var s', v' := NativeRun(code, sem, s, a), VmRun(bc, sem, v, b);
    || s' == Left(v'.pc, v'.sp, v'.x)
    || exists at: Arrival :: at.pos == v'.pc && HasCode(bc, length, out, at) && s' == NativeAt(bc, length, out, at, v')
  }

  /** However long the native code runs, it meets the interpreter then or later, and while it runs the
      interpreter moves too: at least one operation for every two native steps. */
  ghost predicate Follows<X>(bc: Bytecode, length: nat, out: Output, code: seq<Native>, sem: Semantics<X>,
                             s: NativeState<X>, v: VmState<X>, n: nat)
    requires Sized(bc, length)
  {
    exists a, b :: n <= a && InStep(bc, length, out, code, sem, s, v, a, b)
  }

  ghost predicate InStep<X>(bc: Bytecode, length: nat, out: Output, code: seq<Native>, sem: Semantics<X>,
                            s: NativeState<X>, v: VmState<X>, a: nat, b: nat)
    requires Sized(bc, length)
  {
    Meets(bc, length, out, code, sem, s, v, a, b) && (NativeRun(code, sem, s, a).Running? ==> a <= 2 * b)
  }

  /** Behind the last operation control goes back at once. */
  lemma EndLeaves<X>(bc: Bytecode, length: nat, out: Output, code: seq<Native>, sem: Semantics<X>,
                     here: Arrival, v: VmState<X>, n: nat)
    requires Compiled(bc, length, out, code) && HasCode(bc, length, out, here) && here.pos == v.pc == length && n > 0
    requires !out.waiting
    ensures InStep(bc, length, out, code, sem, NativeAt(bc, length, out, here, v), v, n, 0)
  {
    hide Layout;
    hide Linked;
    var s := NativeAt(bc, length, out, here, v);
    assert length !in bc;
    assert NativeStep(code, sem, s) == Left(v.pc, v.sp, v.x);
    StoppedStays(code, sem, NativeStep(code, sem, s), n - 1);
  }

  lemma KnownIsBounded(bc: Bytecode, length: nat, out: Output, code: seq<Native>, q: int)
    requires Compiled(bc, length, out, code)
    ensures Known(length, out, q) ==> q <= length
  {
  }

  /** Steps together, then in step: in step. */
  lemma StepsCompose<X>(bc: Bytecode, length: nat, out: Output, code: seq<Native>, sem: Semantics<X>,
                        s: NativeState<X>, v: VmState<X>, a1: nat, b1: nat, a2: nat, b2: nat)
    requires Sized(bc, length) && a1 <= 2 * b1
    requires InStep(bc, length, out, code, sem, NativeRun(code, sem, s, a1), VmRun(bc, sem, v, b1), a2, b2)
    ensures InStep(bc, length, out, code, sem, s, v, a1 + a2, b1 + b2)
  {
    hide NativeRun;
    hide VmRun;
    NativeRunSplit(code, sem, s, a1, a2);
    VmRunSplit(bc, sem, v, b1, b2);
  }

  /** The next arrival continues the path. */
  lemma PathGoesOn(bc: Bytecode, length: nat, groups: map<int, Group>, path: seq<Arrival>, take: bool)
    requires Sized(bc, length) && IsPath(bc, length, groups, path)
    requires var q := path[|path| - 1].pos;
      q in groups && KindFits(bc, q, groups[q].kind) && GoesOn(bc, q, groups[q].kind)
    ensures var q := path[|path| - 1].pos;
      IsPath(bc, length, groups, path + [Succ(bc, length, q, groups[q].kind, take)])
  {
    hide Succ;
    var q := path[|path| - 1].pos;
    var path' := path + [Succ(bc, length, q, groups[q].kind, take)];
    assert path'[..|path|] == path;
  }

  lemma StartsInStep<X>(bc: Bytecode, length: nat, out: Output, code: seq<Native>, sem: Semantics<X>,
                        here: Arrival, v: VmState<X>)
    requires Sized(bc, length) && HasCode(bc, length, out, here) && v.pc == here.pos
    ensures InStep(bc, length, out, code, sem, NativeAt(bc, length, out, here, v), v, 0, 0)
  {
    hide HasCode;
  }

  /** Control that has gone back stays there. */
  lemma LeftInStep<X>(bc: Bytecode, length: nat, out: Output, code: seq<Native>, sem: Semantics<X>,
                      here: Arrival, v: VmState<X>, a: nat, b: nat, n: nat)
    requires Sized(bc, length) && HasCode(bc, length, out, here) && here.pos in out.groups && a <= n
    requires KindFits(bc, here.pos, out.groups[here.pos].kind)
    requires !RunsOn(bc, sem, here.pos, out.groups[here.pos].kind, v)
    requires Advances(bc, length, out, code, sem, here, v, a, b)
    ensures InStep(bc, length, out, code, sem, NativeAt(bc, length, out, here, v), v, n, b)
  {
    hide NativeRun;
    hide VmRun;
    var s := NativeAt(bc, length, out, here, v);
    NativeRunSplit(code, sem, s, a, n - a);
    StoppedStays(code, sem, NativeRun(code, sem, s, a), n - a);
  }

  lemma PointersGoOnHolding<X>(bc: Bytecode, groups: map<int, Group>, sem: Semantics<X>, v: VmState<X>, b: nat)
    requires PointersHold(bc, groups, sem, v)
    ensures PointerHolds(bc, groups, sem, v) && PointersHold(bc, groups, sem, VmRun(bc, sem, v, b))
  {
    hide PointerHolds;
    assert VmRun(bc, sem, v, 0) == v;
    hide VmRun;
    forall n: nat
      ensures PointerHolds(bc, groups, sem, VmRun(bc, sem, VmRun(bc, sem, v, b), n))
    {
      VmRunSplit(bc, sem, v, b, n);
    }
  }

  lemma SoundMeansExpected(bc: Bytecode, length: nat, out: Output, path: seq<Arrival>)
    requires Sized(bc, length) && Sound(bc, length, out.groups, out.waiting) && IsPath(bc, length, out.groups, path)
    ensures Expected(bc, length, out.groups, out.waiting, path[|path| - 1])
    ensures path[|path| - 1].pos == length ==> !out.waiting
  {
  }

  /** From any arrival of a path where the machines correspond, native code stays in step. */
  lemma {:induction false} RunsFollow<X>(bc: Bytecode, length: nat, out: Output, code: seq<Native>, sem: Semantics<X>,
                                         path: seq<Arrival>, v: VmState<X>, n: nat) returns (a: nat, b: nat)
    requires Compiled(bc, length, out, code) && Sound(bc, length, out.groups, out.waiting)
    requires IsPath(bc, length, out.groups, path) && PointersHold(bc, out.groups, sem, v)
    requires HasCode(bc, length, out, path[|path| - 1]) && v.pc == path[|path| - 1].pos
    ensures n <= a && InStep(bc, length, out, code, sem, NativeAt(bc, length, out, path[|path| - 1], v), v, a, b)
    decreases n, length - v.pc
  {
    hide EndToEnd;
    hide Apart;
    hide OperandsHold;
    hide Layout;
    hide Linked;
    hide EntriesHold;
    var here := path[|path| - 1];
    assert Sized(bc, length);
    hide Sized;
    hide Compiled;
    hide IsPath;
    hide InStep;
    hide NativeRun;
    hide VmRun;
    hide PointersHold;
    hide PointerHolds;
    hide Sound;
    hide Expected;
    hide HandsBack;
    hide Decides;
    hide Succ;
    hide GoesOn;
    KnownIsBounded(bc, length, out, code, v.pc);
    SoundMeansExpected(bc, length, out, path);
    if n == 0 {
      StartsInStep(bc, length, out, code, sem, here, v);
      a, b := 0, 0;
    } else if v.pc == length {
      EndLeaves(bc, length, out, code, sem, here, v, n);
      a, b := n, 0;
    } else {
      var kind := out.groups[here.pos].kind;
      PointersGoOnHolding(bc, out.groups, sem, v, 0);
      a, b := GroupAdvances(bc, length, out, code, sem, here, v);
      if !RunsOn(bc, sem, here.pos, kind, v) {
        LeftInStep(bc, length, out, code, sem, here, v, a, b, if n > a then n else a);
        a := if n > a then n else a;
      } else {
        var v' := VmRun(bc, sem, v, b);
        var next := Succ(bc, length, here.pos, kind, Decides(bc, sem, here.pos, kind, v'.x));
        PathGoesOn(bc, length, out.groups, path, Decides(bc, sem, here.pos, kind, v'.x));
        KnownIsBounded(bc, length, out, code, v'.pc);
        PointersGoOnHolding(bc, out.groups, sem, v, b);
        var a2, b2 := RunsFollow(bc, length, out, code, sem, path + [next], v', if n > a then n - a else 0);
        StepsCompose(bc, length, out, code, sem, NativeAt(bc, length, out, here, v), v, a, b, a2, b2);
        a, b := a + a2, b + b2;
      }
    }
  }

  /** The interpreter may enter compiled code wherever an entry is, with its own stack pointer and machine:
      native code then follows it for as long as it runs. */
  lemma EntryFollows<X>(bc: Bytecode, length: nat, out: Output, code: seq<Native>, sem: Semantics<X>, v: VmState<X>,
                        n: nat)
    requires Compiled(bc, length, out, code) && Sound(bc, length, out.groups, out.waiting)
    requires v.pc in bc && bc[v.pc].op.Entry? && PointersHold(bc, out.groups, sem, v)
    ensures v.pc in out.groups
    ensures Follows(bc, length, out, code, sem, Running(out.groups[v.pc].addr, v.sp, v.x), v, n)
  {
    hide EndToEnd;
    hide Apart;
    hide Linked;
    hide Layout;
    hide InStep;
    hide NativeRun;
    hide VmRun;
    hide PointersHold;
    var here := Arrival(v.pc, false);
    assert IsPath(bc, length, out.groups, [here]);
    var a, b := RunsFollow(bc, length, out, code, sem, [here], v, n);
    assert NativeAt(bc, length, out, here, v) == Running(out.groups[v.pc].addr, v.sp, v.x);
  }

  lemma NullExit<X>(bc: Bytecode, length: nat, out: Output, code: seq<Native>, sem: Semantics<X>, here: Arrival,
                    v: VmState<X>) returns (a: nat)
    requires Placed(bc, length, out, code, here.pos) && HasCode(bc, length, out, here) && v.pc == here.pos
    requires Expected(bc, length, out.groups, out.waiting, here) && !PointerHolds(bc, out.groups, sem, v)
    ensures NativeRun(code, sem, NativeAt(bc, length, out, here, v), a)
      == Left(v.pc, v.sp - 8, VmStep(bc, sem, v).x)
  {
    var q, g := here.pos, out.groups[here.pos];
    NativeRuns(code, sem, NativeAt(bc, length, out, here, v));
    hide NativeRun;
    assert RunBytes(bc, length, q) == 8;
    var body := Body(bc, length, q, g.kind, g.reserved);
    assert Alike(code[g.addr + 0], body[0]);
    assert Alike(code[g.addr + 1], body[1]);
    assert Alike(code[g.addr + 2], body[2]);
    a := |body| - 1;
  }

  /** When the pushed pointer is null, control goes back in front of the push with the push already done: the
      interpreter, which then pushes again, is left with a stack pointer 8 too low. */
  lemma NullExitMisplaces<X>(bc: Bytecode, length: nat, out: Output, code: seq<Native>, sem: Semantics<X>,
                             here: Arrival, v: VmState<X>) returns (a: nat)
    requires Compiled(bc, length, out, code) && HasCode(bc, length, out, here) && here.pos != length
    requires v.pc == here.pos && Expected(bc, length, out.groups, out.waiting, here)
    requires !PointerHolds(bc, out.groups, sem, v)
    ensures NativeRun(code, sem, NativeAt(bc, length, out, here, v), a)
      == Left(v.pc, v.sp - 8, VmStep(bc, sem, v).x)
  {
    GroupIsPlaced(bc, length, out, code, here.pos);
    hide Compiled;
    hide PointerHolds;
    hide Expected;
    a := NullExit(bc, length, out, code, sem, here, v);
  }
}
