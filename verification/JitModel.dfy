/** Script bytecode, the native code the compiler emits for it, and what both of them do. */
module JitModel {
  import opened Basics

  /** What compiling an operation makes the compiler believe of the code behind it. An operation with a way
      out of its own marks it as reachable, a script call, although it runs on, as unreachable. */
  datatype Mark = Keeps | Reachable | Unreachable

  /** The kinds of bytecode operations the compiler tells apart. id names the operation together
      with its operands. Some branches are always taken. */
  datatype Op =
    | Push(bytes: nat, id: nat)
    | Branch(always: bool, cond: nat, arg: int)
    | Entry
    | Leave(id: nat)
    | Plain(id: nat, mark: Mark)

  datatype Instr = Instr(op: Op, size: nat)

  /** Operations by the position, in words, where they start. */
  type Bytecode = map<int, Instr>

  const BRANCH_SIZE := 2

  function After(bc: Bytecode, p: int): int
    requires p in bc
  {
    p + bc[p].size
  }

  function Target(bc: Bytecode, p: int): int
    requires p in bc && bc[p].op.Branch?
  {
    p + bc[p].op.arg + BRANCH_SIZE
  }

  ghost predicate IsTarget(bc: Bytecode, t: int) {
    exists p :: p in bc && bc[p].op.Branch? && Target(bc, p) == t
  }

  ghost predicate Sized(bc: Bytecode, length: nat) {
    forall q | q in bc :: 0 <= q && bc[q].size > 0 && After(bc, q) <= length
  }

  ghost predicate EndToEnd(bc: Bytecode, length: nat) {
    && (length > 0 ==> 0 in bc)
    && forall p | p in bc :: After(bc, p) == length || After(bc, p) in bc
  }

  ghost predicate Apart(bc: Bytecode) {
    forall p, q | p in bc && q in bc && p < q :: After(bc, p) <= q
  }

  ghost predicate OperandsHold(bc: Bytecode) {
    forall p | p in bc ::
      && (bc[p].op.Push? ==> bc[p].op.bytes > 0)
      && (bc[p].op.Branch? ==> bc[p].size == BRANCH_SIZE && Target(bc, p) in bc)
  }

  /** Operations lie end to end from 0 to length, and branches go to operations. */
  ghost predicate WellFormed(bc: Bytecode, length: nat) {
    Sized(bc, length) && EndToEnd(bc, length) && Apart(bc) && OperandsHold(bc)
  }

  // ---- Machines ----

  /** Whether compiled code of an operation goes back to the interpreter: not, instead of running it (a null
      pointer, a division by zero), or right after (a system call that suspends). */
  datatype Handback = Stays | Before | Behind

  /** What operations do, left open: exec runs a plain operation on the stack pointer and the
      rest of the machine, leaves is where its compiled code goes back, value is what a push pushes, write
      stores at an address, taken decides the branch at a position. */
  datatype Semantics<!X> = Semantics(
    exec: (nat, int, X) -> (int, X),
    leaves: (nat, int, X) -> Handback,
    value: (nat, X) -> int,
    write: (X, int, nat, int) -> X,
    taken: (int, nat, X) -> bool
  )

  /** The interpreter, between two operations. */
  datatype VmState<X> = VmState(pc: int, sp: int, x: X)

  /** It stops in front of an operation the compiler hands back, and at the end. */
  function VmStep<X>(bc: Bytecode, sem: Semantics<X>, s: VmState<X>): VmState<X>
  {
    if s.pc !in bc then s
    else
      match bc[s.pc].op
      case Push(bytes, id) =>
        VmState(After(bc, s.pc), s.sp - bytes, sem.write(s.x, s.sp - bytes, bytes, sem.value(id, s.x)))
      case Branch(always, cond, _) =>
        s.(pc := if always || sem.taken(s.pc, cond, s.x) then Target(bc, s.pc) else After(bc, s.pc))
      case Entry => s.(pc := After(bc, s.pc))
      case Leave(_) => s
      case Plain(id, _) =>
        var (sp, x) := sem.exec(id, s.sp, s.x);
        VmState(After(bc, s.pc), sp, x)
  }

  function VmRun<X>(bc: Bytecode, sem: Semantics<X>, s: VmState<X>, n: nat): VmState<X>
    decreases n
  {
    if n == 0 then s else VmRun(bc, sem, VmStep(bc, sem, s), n - 1)
  }

  /** Emitted code. Exec runs an operation and goes on, or goes back in front of it or behind it; Run always
      goes on. A jump carries the bytecode positions it stands for, of the branch and of its target; dest is
      patched in later when the target has no code yet. */
  datatype Native =
    | SubSp(amount: int)
    | Store(offset: int, bytes: nat, id: nat)
    | Exec(id: nat, at: int, next: int)
    | Run(id: nat)
    | Jump(from: int, always: bool, cond: nat, target: int, dest: Option<nat>)
    | LeaveIf(from: int, always: bool, cond: nat, at: int)
    | Exit(at: int)

  datatype NativeState<X> =
    | Running(pc: nat, sp: int, x: X)
    | Left(at: int, sp: int, x: X)
    | Stuck

  function NativeStep<X>(code: seq<Native>, sem: Semantics<X>, s: NativeState<X>): NativeState<X> {
    if !s.Running? then s
    else if s.pc >= |code| then Stuck
    else
      match code[s.pc]
      case SubSp(n) => Running(s.pc + 1, s.sp - n, s.x)
      case Store(offset, bytes, id) =>
        Running(s.pc + 1, s.sp, sem.write(s.x, s.sp + offset, bytes, sem.value(id, s.x)))
      case Exec(id, at, next) =>
        var (sp, x) := sem.exec(id, s.sp, s.x);
        (match sem.leaves(id, s.sp, s.x)
         case Stays => Running(s.pc + 1, sp, x)
         case Before => Left(at, s.sp, s.x)
         case Behind => Left(next, sp, x))
      case Run(id) =>
        var (sp, x) := sem.exec(id, s.sp, s.x);
        Running(s.pc + 1, sp, x)
      case Jump(from, always, cond, _, dest) =>
        if !always && !sem.taken(from, cond, s.x) then s.(pc := s.pc + 1)
        else if dest.Some? then s.(pc := dest.value)
        else Stuck
      case LeaveIf(from, always, cond, at) =>
        if always || sem.taken(from, cond, s.x) then Left(at, s.sp, s.x) else s.(pc := s.pc + 1)
      case Exit(at) => Left(at, s.sp, s.x)
  }

  function NativeRun<X>(code: seq<Native>, sem: Semantics<X>, s: NativeState<X>, n: nat): NativeState<X>
    decreases n
  {
    if n == 0 then s else NativeRun(code, sem, NativeStep(code, sem, s), n - 1)
  }

  // ---- Push runs ----

  /** The bytes pushed from p on, until the next operation that does not push. */
  function RunBytes(bc: Bytecode, length: nat, p: int): nat
    requires Sized(bc, length)
    decreases length - p
  {
    if p in bc && bc[p].op.Push? then bc[p].op.bytes + RunBytes(bc, length, After(bc, p)) else 0
  }

  /** The loop that adds up a run. */
  method FindTotalPushBatchSize(bc: Bytecode, length: nat, first: int) returns (bytes: nat)
    requires Sized(bc, length)
    ensures bytes == RunBytes(bc, length, first)
  {
    bytes := 0;
    var p := first;
    while p in bc && bc[p].op.Push?
      invariant bytes + RunBytes(bc, length, p) == RunBytes(bc, length, first)
      decreases length - p
    {
      bytes := bytes + bc[p].op.bytes;
      p := After(bc, p);
    }
  }
}
