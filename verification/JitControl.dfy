/** How control can move through compiled code, and when every push finds the stack reserved as its
    code expects. */
module JitControl {
  import opened JitModel
  import opened JitLayout
  import opened JitLinking

  /** Control at a position: inside a run of pushes whose bytes are reserved, or with nothing reserved. */
  datatype Arrival = Arrival(pos: int, inRun: bool)

  predicate EndsInPush(bc: Bytecode, q: int, kind: Kind) {
    q in bc && (kind == Code(PlainPush) || (kind == Code(NoFusion) && bc[q].op.Push?))
  }

  predicate Branches(bc: Bytecode, q: int, kind: Kind) {
    q in bc && (kind == Code(Compare) || (kind == Code(NoFusion) && bc[q].op.Branch?))
  }

  /** Where the branch of a group is. */
  function BranchPos(bc: Bytecode, q: int, kind: Kind): int {
    if kind == Code(Compare) then Second(bc, q) else q
  }

  predicate AlwaysBranches(bc: Bytecode, q: int, kind: Kind) {
    q in bc && kind == Code(NoFusion) && bc[q].op.Branch? && bc[q].op.always
  }

  /** Where control goes from a group when its branch, if it has one, is taken or not. */
  function Succ(bc: Bytecode, length: nat, q: int, kind: Kind, take: bool): Arrival
    requires Sized(bc, length) && KindFits(bc, q, kind)
  {
    if (take || AlwaysBranches(bc, q, kind)) && Branches(bc, q, kind) then
      Arrival(Target(bc, BranchPos(bc, q, kind)), false)
    else
      var next := NextPos(bc, q, kind);
      Arrival(next, EndsInPush(bc, q, kind) && RunBytes(bc, length, next) > 0)
  }

  ghost predicate Leads(bc: Bytecode, length: nat, groups: map<int, Group>, a: Arrival, b: Arrival)
    requires Sized(bc, length)
  {
    && a.pos in groups
    && var kind := groups[a.pos].kind;
    && KindFits(bc, a.pos, kind) && GoesOn(bc, a.pos, kind)
    && (b == Succ(bc, length, a.pos, kind, true) || b == Succ(bc, length, a.pos, kind, false))
  }

  /** A way control can take from an entry. */
  ghost predicate IsPath(bc: Bytecode, length: nat, groups: map<int, Group>, path: seq<Arrival>)
    requires Sized(bc, length)
  {
    var n := |path| - 1;
    if n <= 0 then n == 0 && path[0].pos in bc && bc[path[0].pos].op.Entry? && !path[0].inRun
    else IsPath(bc, length, groups, path[..n]) && Leads(bc, length, groups, path[n - 1], path[n])
  }

  /** Control that comes to a push with nothing reserved finds code that expects nothing reserved, control that
      comes to a stub has nothing reserved, and behind the last operation there is a closing return. */
  predicate Expected(bc: Bytecode, length: nat, groups: map<int, Group>, waiting: bool, a: Arrival) {
    && (a.pos == length ==> !waiting)
    && (a.pos in bc && a.pos in groups ==>
          if groups[a.pos].kind.Stub? then !a.inRun
          else !a.inRun && bc[a.pos].op.Push? ==> groups[a.pos].reserved == 0)
  }

  /** The condition for compiled code to do what the interpreter does. waiting: no closing return was emitted. */
  ghost predicate Sound(bc: Bytecode, length: nat, groups: map<int, Group>, waiting: bool)
    requires Sized(bc, length)
  {
    forall path | IsPath(bc, length, groups, path) :: Expected(bc, length, groups, waiting, path[|path| - 1])
  }

  // ---- Sufficient conditions ----

  /** No branch arrives at code that expects bytes to be reserved. */
  ghost predicate TargetsReserveNone(bc: Bytecode, groups: map<int, Group>) {
    forall t | t in groups && groups[t].kind.Code? && IsTarget(bc, t) :: groups[t].reserved == 0
  }

  /** The last operation of a group. */
  function LastOf(bc: Bytecode, q: int, kind: Kind): int {
    match kind
    case Stub => q
    case Code(NoFusion) => q
    case Code(Triple) => Third(bc, q)
    case Code(PushPlains) => Third(bc, q)
    case _ => Second(bc, q)
  }

  lemma LastIsJustBefore(bc: Bytecode, q: int, kind: Kind)
    requires KindFits(bc, q, kind) && kind.Code?
    ensures var last := LastOf(bc, q, kind);
      last in bc && After(bc, last) == NextPos(bc, q, kind) && (bc[last].op.Push? ==> EndsInPush(bc, q, kind))
  {
  }

  /** Falling into a push from a group that does not end in one, or into a stub. */
  lemma FallExpected(bc: Bytecode, length: nat, out: Output, q: int)
    requires WellFormed(bc, length) && Layout(bc, length, length, out) && q in out.groups && out.groups[q].kind.Code?
    requires GroupReservesHold(bc, length, out.groups) && StubsReserveNothing(out.groups)
    ensures KindFits(bc, q, out.groups[q].kind)
    ensures var b := Succ(bc, length, q, out.groups[q].kind, false);
      b.pos != length && b.pos == NextPos(bc, q, out.groups[q].kind) ==>
        Expected(bc, length, out.groups, out.waiting, b)
  {
    hide EndToEnd;
    hide Shows;
    hide Body;
    assert GroupHolds(bc, length, length, out, q);
    var g := out.groups[q];
    LastIsJustBefore(bc, q, g.kind);
    ReservedBehindPush(bc, length, q, g.kind, g.reserved);
    var b := Succ(bc, length, q, g.kind, false);
    assert b.pos in out.groups ==> ReserveHolds(bc, length, b.pos, out.groups[b.pos].reserved);
    hide EndsInPush;
    hide ReservedAfter;
    hide NextPos;
  }

  lemma ReservedBehindPush(bc: Bytecode, length: nat, q: int, kind: Kind, r: int)
    requires Sized(bc, length) && KindFits(bc, q, kind) && ReserveHolds(bc, length, q, r)
    ensures EndsInPush(bc, q, kind) ==>
      ReservedAfter(bc, length, q, kind, r) == RunBytes(bc, length, NextPos(bc, q, kind))
  {
  }

  // ---- Running off the end ----

  /** The last operation leaves, or always branches. */
  ghost predicate LastGoesAway(bc: Bytecode, length: nat) {
    forall p | p in bc && After(bc, p) == length :: bc[p].op.Leave? || (bc[p].op.Branch? && bc[p].op.always)
  }

  ghost predicate NoCalls(bc: Bytecode) {
    forall p | p in bc && bc[p].op.Plain? :: !bc[p].op.mark.Unreachable?
  }

  /** Control cannot run off the end, or a return is emitted there. */
  ghost predicate EndIsClosed(bc: Bytecode, length: nat, waiting: bool) {
    !waiting || LastGoesAway(bc, length) || NoCalls(bc)
  }

  lemma NoCallsStayAwake(bc: Bytecode, q: int, kind: Kind, waiting: bool)
    requires NoCalls(bc) && GoesOn(bc, q, kind) && (waiting ==> bc[q].op.Entry?) && KindFits(bc, q, kind)
    ensures !WaitingAfter(bc, q, kind, waiting)
  {
  }

  /** The compiler takes the code at an arrival for reachable, or control is at a stub or an entry. */
  predicate Awake(bc: Bytecode, length: nat, out: Output, a: Arrival) {
    && (a.pos == length ==> !out.waiting)
    && (a.pos in out.groups && out.groups[a.pos].waiting ==>
          a.pos in bc && (out.groups[a.pos].kind.Stub? || bc[a.pos].op.Entry?))
  }

  lemma TargetIsAwake(bc: Bytecode, length: nat, out: Output, t: int)
    requires Layout(bc, length, length, out) && Linked(bc, out) && IsTarget(bc, t)
    ensures t in out.groups && Awake(bc, length, out, Arrival(t, false))
  {
    hide Joins;
    hide Shows;
    assert GroupHolds(bc, length, length, out, t);
  }

  lemma FallIsAwake(bc: Bytecode, length: nat, out: Output, q: int)
    requires Layout(bc, length, length, out) && NoCalls(bc) && q in out.groups
    requires GoesOn(bc, q, out.groups[q].kind) && Awake(bc, length, out, Arrival(q, false))
    ensures forall inRun :: Awake(bc, length, out, Arrival(NextPos(bc, q, out.groups[q].kind), inRun))
  {
    hide Shows;
    hide Body;
    hide NeedsStub;
    hide ReservedAfter;
    assert GroupHolds(bc, length, length, out, q);
    NoCallsStayAwake(bc, q, out.groups[q].kind, out.groups[q].waiting);
    hide NoCalls;
    hide WaitingAfter;
    hide NextPos;
  }

  lemma StepIsAwake(bc: Bytecode, length: nat, out: Output, a: Arrival, b: Arrival)
    requires Sized(bc, length) && Layout(bc, length, length, out) && Linked(bc, out) && NoCalls(bc)
    requires Leads(bc, length, out.groups, a, b) && Awake(bc, length, out, a)
    ensures Awake(bc, length, out, b)
  {
    hide Layout;
    hide Linked;
    hide NoCalls;
    FallIsAwake(bc, length, out, a.pos);
    if b.pos != NextPos(bc, a.pos, out.groups[a.pos].kind) {
      assert IsTarget(bc, b.pos);
      TargetIsAwake(bc, length, out, b.pos);
    }
  }

  /** Without script calls, every arrival is awake. */
  lemma {:induction false} PathsAreAwake(bc: Bytecode, length: nat, out: Output, path: seq<Arrival>)
    requires Sized(bc, length) && Layout(bc, length, length, out) && Linked(bc, out) && NoCalls(bc)
    requires IsPath(bc, length, out.groups, path)
    ensures Awake(bc, length, out, path[|path| - 1])
  {
    hide Layout;
    hide Linked;
    hide NoCalls;
    hide Leads;
    var n := |path| - 1;
    if n > 0 {
      hide Awake;
      PathsAreAwake(bc, length, out, path[..n]);
      StepIsAwake(bc, length, out, path[n - 1], path[n]);
    }
  }

  lemma ClosedEndExpected(bc: Bytecode, length: nat, out: Output, path: seq<Arrival>)
    requires WellFormed(bc, length) && Layout(bc, length, length, out) && Linked(bc, out)
    requires EndIsClosed(bc, length, out.waiting) && IsPath(bc, length, out.groups, path)
    ensures path[|path| - 1].pos == length ==> !out.waiting
  {
    hide Layout;
    hide Linked;
    hide EndToEnd;
    hide Apart;
    var n := |path| - 1;
    if NoCalls(bc) {
      PathsAreAwake(bc, length, out, path);
    } else if out.waiting && n > 0 {
      var a, b := path[n - 1], path[n];
      assert Leads(bc, length, out.groups, a, b);
      LastIsJustBefore(bc, a.pos, out.groups[a.pos].kind);
      LastBranches(bc, a.pos, out.groups[a.pos].kind);
    }
  }

  lemma LastBranches(bc: Bytecode, q: int, kind: Kind)
    requires KindFits(bc, q, kind) && GoesOn(bc, q, kind)
    ensures var last := LastOf(bc, q, kind);
      last in bc && !bc[last].op.Leave? && (bc[last].op.Branch? && bc[last].op.always ==> AlwaysBranches(bc, q, kind))
  {
  }

  // ---- Together ----

  /** With the reserves right in front of every group, none in front of branch targets, and a closed end, every
      arrival is as expected. */
  lemma SoundWhenTargetsReserveNone(bc: Bytecode, length: nat, out: Output)
    requires WellFormed(bc, length) && Layout(bc, length, length, out) && Linked(bc, out)
    requires GroupReservesHold(bc, length, out.groups) && StubsReserveNothing(out.groups)
    requires TargetsReserveNone(bc, out.groups) && EndIsClosed(bc, length, out.waiting)
    ensures Sound(bc, length, out.groups, out.waiting)
  {
    forall path | IsPath(bc, length, out.groups, path)
      ensures Expected(bc, length, out.groups, out.waiting, path[|path| - 1])
    {
      ClosedEndExpected(bc, length, out, path);
      StepExpected(bc, length, out, path);
    }
  }

  lemma StepExpected(bc: Bytecode, length: nat, out: Output, path: seq<Arrival>)
    requires WellFormed(bc, length) && Layout(bc, length, length, out)
    requires GroupReservesHold(bc, length, out.groups) && StubsReserveNothing(out.groups)
    requires TargetsReserveNone(bc, out.groups) && IsPath(bc, length, out.groups, path)
    requires path[|path| - 1].pos == length ==> !out.waiting
    ensures Expected(bc, length, out.groups, out.waiting, path[|path| - 1])
  {
    hide EndToEnd;
    hide Apart;
    hide Layout;
    hide GroupReservesHold;
    var n := |path| - 1;
    if n > 0 {
      var a, b := path[n - 1], path[n];
      assert Leads(bc, length, out.groups, a, b);
      FallExpected(bc, length, out, a.pos);
      var kind := out.groups[a.pos].kind;
      if b != Succ(bc, length, a.pos, kind, false) || b.pos != NextPos(bc, a.pos, kind) {
        assert IsTarget(bc, b.pos);
      }
    }
  }

  /** Runs that no branch enters behind their first push, and a closed end, are enough. */
  lemma SoundWhenUnbroken(bc: Bytecode, length: nat, out: Output)
    requires WellFormed(bc, length) && Layout(bc, length, length, out) && Linked(bc, out)
    requires GroupReservesHold(bc, length, out.groups) && StubsReserveNothing(out.groups)
    requires RunsUnbroken(bc) && EndIsClosed(bc, length, out.waiting)
    ensures Sound(bc, length, out.groups, out.waiting)
  {
    hide Layout;
    hide Linked;
    forall t | t in out.groups && out.groups[t].kind.Code? && IsTarget(bc, t)
      ensures out.groups[t].reserved == 0
    {
      TargetsReserveNothing(bc, length, t, out.groups[t].reserved);
    }
    SoundWhenTargetsReserveNone(bc, length, out);
  }

  /** A push inside a run whose code expects the rest of the run to be reserved, reached with nothing
      reserved. This is what a branch into a run meets. */
  lemma BranchIntoRunIsUnsound(bc: Bytecode, length: nat, groups: map<int, Group>, waiting: bool,
                               path: seq<Arrival>, q: int)
    requires WellFormed(bc, length) && IsPath(bc, length, groups, path) && q in bc && q in groups
    requires var t := path[|path| - 1].pos;
      && !path[|path| - 1].inRun && t == After(bc, q) && t in bc && t in groups
      && bc[q].op.Push? && bc[t].op.Push? && groups[q].kind == Code(NoFusion) && groups[t].kind.Code?
      && ReserveHolds(bc, length, q, groups[q].reserved)
      && groups[t].reserved == ReservedAfter(bc, length, q, groups[q].kind, groups[q].reserved)
    ensures !Sound(bc, length, groups, waiting)
  {
    hide EndToEnd;
    hide Apart;
    var t := path[|path| - 1].pos;
    assert RunBytes(bc, length, t) > 0;
    assert !Expected(bc, length, groups, waiting, path[|path| - 1]);
  }
}
