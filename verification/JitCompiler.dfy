/** The compile loop: one pass marks the branch targets, a second emits code, patches the jumps
    that waited for each position and fuses operations where no branch arrives. */
module JitCompilation {
  import opened Basics
  import opened JitModel
  import opened JitLayout
  import opened JitLinking
  import opened JitPlan
  import opened JitControl
  import JitSimulation

  class JitCompiler {
    const bc: Bytecode
    const length: nat
    /** Which operations to compile together; it is asked only about operations no branch goes to. */
    const policy: Policy
    var table: seq<Entry>
    var code: seq<Native>
    /** No code behind this point can be reached until an entry or a branch target. */
    var waiting: bool
    var reserved: int
    ghost var groups: map<int, Group>

    constructor (bc: Bytecode, length: nat, policy: Policy)
      ensures this.bc == bc && this.length == length && this.policy == policy
    {
      this.bc, this.length, this.policy := bc, length, policy;
      table, code, waiting, reserved, groups := [], [], true, 0, map[];
    }

    ghost function Out(): Output
      reads this
    {
      Output(code, groups, waiting, reserved)
    }

    ghost predicate Valid(p: int)
      reads this
    {
      && WellFormed(bc, length)
      && Layout(bc, length, p, Out())
      && TableHolds(bc, length, p, table, groups)
      && JumpsHold(bc, code, table)
      && EntriesHold(bc, p, groups)
      && Kept(bc, length, policy, p, Plan(groups, |code|, waiting, reserved))
    }

    /** First pass: marks every position a branch goes to. */
    method MarkTargets()
      requires WellFormed(bc, length)
      modifies this`table
      ensures |table| == length
      ensures forall q | 0 <= q < length :: table[q] == if IsTarget(bc, q) then Waiting([]) else Empty
    {
      table := seq(length, _ => Empty);
      var p := 0;
      while p < length
        invariant 0 <= p <= length && (p < length ==> p in bc) && |table| == length
        invariant forall q | 0 <= q < length :: table[q] == if MarkedBefore(bc, p, q) then Waiting([]) else Empty
        decreases length - p
      {
        if bc[p].op.Branch? {
          table := table[Target(bc, p) := Waiting([])];
        }
        MarksAdvance(bc, length, p);
        p := After(bc, p);
      }
      forall q | 0 <= q < length
        ensures MarkedBefore(bc, length, q) <==> IsTarget(bc, q)
      {
      }
    }

    /** Records the address of p and patches the jumps waiting for it. */
    method Resolve(p: int)
      requires 0 <= p < |table| && !table[p].At? && JumpsHold(bc, code, table)
      modifies this`table, this`code
      ensures table == old(table)[p := At(|code|)] && |code| == |old(code)|
      ensures code == Patched(old(code), Sites(old(table)[p]), |code|)
      ensures JumpsHold(bc, code, table)
    {
      ResolvedJumpsHold(bc, code, table, p, |code|);
      var sites := Sites(table[p]);
      assert SitesHold(code, p, sites);
      table := table[p := At(|code|)];
      for i := 0 to |sites|
        invariant code == Patched(old(code), sites[..i], |old(code)|) && table == old(table)[p := At(|old(code)|)]
      {
        assert code[sites[i]].Jump?;
        code := code[sites[i] := code[sites[i]].(dest := Some(|code|))];
        assert sites[..i + 1] == sites[..i] + [sites[i]];
      }
      assert sites[..|sites|] == sites;
    }

    /** Emits the branch at position from: ahead, it waits; back, it goes to code that exists; and
        to an unknown place, control leaves for the interpreter. */
    method DoJump(always: bool, cond: nat, from: int, t: int)
      requires JumpsHold(bc, code, table) && 0 <= t < |table| && IsTarget(bc, t)
      requires t > from ==> !table[t].At?
      modifies this`table, this`code
      ensures |code| == |old(code)| + 1 && old(code) <= code
      ensures t > from || old(table)[t].At? ==>
        JumpsHold(bc, code, table) && Alike(code[|old(code)|], Jump(from, always, cond, t, None))
      ensures t <= from && !old(table)[t].At? ==> code[|old(code)|] == LeaveIf(from, always, cond, t)
      ensures t > from ==> table == old(table)[t := Waiting([|old(code)|] + Sites(old(table)[t]))]
      ensures t <= from ==> table == old(table)
    {
      JumpAdded(bc, code, table, from, always, cond, t);
      if t > from {
        table := table[t := Waiting([|code|] + Sites(table[t]))];
        code := code + [Jump(from, always, cond, t, None)];
      } else if table[t].At? {
        code := code + [Jump(from, always, cond, t, Some(table[t].addr))];
      } else {
        code := code + [LeaveIf(from, always, cond, t)];
      }
    }

    /** Targets up to p have code, later ones do not. */
    ghost predicate Ready(p: int)
      reads this
    {
      && WellFormed(bc, length) && JumpsHold(bc, code, table) && |table| == length
      && (forall t | IsTarget(bc, t) :: 0 <= t < length && !table[t].Empty? && (table[t].At? <==> t <= p))
      && (forall q | 0 <= q < length && p < q :: table[q].Empty? <==> !IsTarget(bc, q))
    }

    /** Stores the value of a push, reserving the bytes of its whole run first if none are left. */
    method PushPrep(p: int, bytes: nat, id: nat)
      requires p in bc && Sized(bc, length) && JumpsHold(bc, code, table)
      modifies this`code, this`reserved
      ensures code == old(code) + PushBody(old(reserved), RunBytes(bc, length, p), bytes, id)
      ensures reserved == (if old(reserved) == 0 then RunBytes(bc, length, p) else old(reserved)) - bytes
      ensures JumpsHold(bc, code, table)
    {
      PlainCodeHolds(bc, code, table, PushBody(reserved, RunBytes(bc, length, p), bytes, id));
      if reserved == 0 {
        reserved := FindTotalPushBatchSize(bc, length, p);
        code := code + [SubSp(reserved)];
      }
      reserved := reserved - bytes;
      code := code + [Store(reserved, bytes, id)];
    }

    /** Emits one operation by itself. */
    method EmitSingle(p: int)
      requires Ready(p) && p in bc
      modifies this`code, this`table, this`waiting, this`reserved
      ensures JumpsHold(bc, code, table) && OnlySitesAdded(old(table), table)
      ensures old(code) <= code && Shows(code, |old(code)|, Body(bc, length, p, Code(NoFusion), old(reserved)))
      ensures |code| == |old(code)| + |Body(bc, length, p, Code(NoFusion), old(reserved))|
      ensures reserved == ReservedAfter(bc, length, p, Code(NoFusion), old(reserved))
      ensures waiting == WaitingAfter(bc, p, Code(NoFusion), old(waiting))
    {
      hide EndToEnd;
      hide Apart;
      match bc[p].op
      case Push(bytes, id) =>
        PushPrep(p, bytes, id);
      case Branch(always, cond, _) =>
        assert IsTarget(bc, Target(bc, p));
        DoJump(always, cond, p, Target(bc, p));
      case Entry =>
        waiting := false;
      case Leave(_) =>
        PlainCodeHolds(bc, code, table, [Exit(p)]);
        code := code + [Exit(p)];
        waiting := true;
      case Plain(id, mark) =>
        PlainCodeHolds(bc, code, table, [Exec(id, p, After(bc, p))]);
        code := code + [Exec(id, p, After(bc, p))];
        if mark.Reachable? {
          waiting := false;
        } else if mark.Unreachable? {
          waiting := true;
        }
    }

    /** Emits a comparison and the branch on it, at the position behind. */
    method EmitCompare(p: int)
      requires Ready(p) && KindFits(bc, p, Code(Compare)) && !IsTarget(bc, Second(bc, p))
      modifies this`code, this`table, this`waiting
      ensures JumpsHold(bc, code, table) && OnlySitesAdded(old(table), table)
      ensures old(code) <= code && Shows(code, |old(code)|, Body(bc, length, p, Code(Compare), reserved))
      ensures |code| == |old(code)| + |Body(bc, length, p, Code(Compare), reserved)|
      ensures waiting == WaitingAfter(bc, p, Code(Compare), old(waiting))
    {
      hide EndToEnd;
      var q := Second(bc, p);
      PlainCodeHolds(bc, code, table, [First(bc, p)]);
      code := code + [First(bc, p)];
      waiting := Marked(Some(bc[p].op), waiting);
      assert IsTarget(bc, Target(bc, q));
      DoJump(false, bc[q].op.cond, q, Target(bc, q));
    }

    /** Stores the result of a plain operation and pushes it, reserving the whole run. */
    method EmitPlainPush(p: int)
      requires Sized(bc, length) && KindFits(bc, p, Code(PlainPush))
      modifies this`code, this`reserved
      ensures code == old(code) + Body(bc, length, p, Code(PlainPush), old(reserved))
      ensures reserved == ReservedAfter(bc, length, p, Code(PlainPush), old(reserved))
    {
      var q := Second(bc, p);
      var exec := First(bc, p);
      reserved := FindTotalPushBatchSize(bc, length, q);
      var sub := SubSp(reserved);
      reserved := reserved - 4;
      code := code + [exec] + [sub, Store(reserved, 4, bc[q].op.id)];
    }

    /** Pushes a pointer, into reserved bytes if there are any, and works on it in place. */
    method EmitPushPlains(p: int)
      requires Sized(bc, length) && KindFits(bc, p, Code(PushPlains))
      modifies this`code, this`reserved, this`waiting
      ensures code == old(code) + Body(bc, length, p, Code(PushPlains), old(reserved))
      ensures reserved == 0 && !waiting
    {
      var q, third := Second(bc, p), Third(bc, p);
      if reserved != 0 {
        reserved := 0;
      } else {
        code := code + [SubSp(8)];
      }
      waiting := false;
      code := code + [Store(0, 8, bc[p].op.id), Exec(bc[q].op.id, p, third), Run(bc[third].op.id)];
    }

    /** Emits operations compiled together, a comparison and branch apart. */
    method EmitFused(p: int, f: Fusion)
      requires Ready(p) && KindFits(bc, p, Code(f)) && !f.NoFusion? && !f.Compare?
      modifies this`code, this`reserved, this`waiting
      ensures code == old(code) + Body(bc, length, p, Code(f), old(reserved))
      ensures reserved == ReservedAfter(bc, length, p, Code(f), old(reserved))
      ensures waiting == WaitingAfter(bc, p, Code(f), old(waiting))
      ensures JumpsHold(bc, code, table)
    {
      PlainCodeHolds(bc, code, table, Body(bc, length, p, Code(f), reserved));
      hide JumpsHold;
      hide EndToEnd;
      hide Apart;
      hide RunBytes;
      var q, third := Second(bc, p), Third(bc, p);
      match f
      case Pair =>
        code := code + [First(bc, p), Run(bc[q].op.id)];
        waiting := Marked(Some(bc[q].op), Marked(Some(bc[p].op), waiting));
      case Triple =>
        code := code + [First(bc, p), Run(bc[q].op.id), Run(bc[third].op.id)];
        waiting := Marked(Some(bc[third].op), Marked(Some(bc[q].op), Marked(Some(bc[p].op), waiting)));
      case PlainPush =>
        EmitPlainPush(p);
        waiting := Marked(Some(bc[p].op), waiting);
      case PushPlains =>
        EmitPushPlains(p);
    }

    /** What to compile together at p: never an operation with an entry in the table. */
    method Choose(p: int) returns (f: Fusion)
      requires WellFormed(bc, length) && p in bc && |table| == length
      requires forall q | 0 <= q < length && p < q :: table[q].Empty? <==> !IsTarget(bc, q)
      ensures KindFits(bc, p, Code(f)) && f == FusionAt(bc, policy, p)
      ensures var next := After(bc, p);
        if next !in bc || IsTarget(bc, next) then f == NoFusion
        else
          var third := After(bc, next);
          var k := if third in bc && !IsTarget(bc, third) then Some(bc[third].op) else None;
          var choice := policy(bc[p].op, bc[next].op, k);
          f == if Fits(choice, bc[p].op, Some(bc[next].op), k) then choice else NoFusion
      ensures PassedAreEmpty(bc, table, p, Code(f))
    {
      f := NoFusion;
      var next := After(bc, p);
      if next < length && table[next].Empty? {
        var third := After(bc, next);
        var k := if third < length && table[third].Empty? then Some(bc[third].op) else None;
        var choice := policy(bc[p].op, bc[next].op, k);
        if Fits(choice, bc[p].op, Some(bc[next].op), k) {
          f := choice;
        }
      }
    }

    /** Emits the group of p, whose address is already in the table. */
    method EmitGroup(p: int, stub: bool) returns (kind: Kind)
      requires Ready(p) && p in bc
      modifies this`code, this`table, this`waiting, this`reserved
      ensures KindFits(bc, p, kind) && kind == (if stub then Stub else Code(FusionAt(bc, policy, p)))
      ensures PassedAreEmpty(bc, old(table), p, kind)
      ensures Emitted(old(code), code, Body(bc, length, p, kind, old(reserved)))
      ensures reserved == ReservedAfter(bc, length, p, kind, old(reserved))
      ensures waiting == WaitingAfter(bc, p, kind, old(waiting))
      ensures JumpsHold(bc, code, table) && OnlySitesAdded(old(table), table)
    {
      hide JumpsHold;
      hide EndToEnd;
      kind := Stub;
      if stub {
        PlainCodeHolds(bc, code, table, [Exit(p)]);
        code := code + [Exit(p)];
        waiting := true;
      } else {
        var f := Choose(p);
        kind := Code(f);
        hide Body;
        hide ReservedAfter;
        if f.NoFusion? {
          EmitSingle(p);
        } else if f.Compare? {
          EmitCompare(p);
        } else {
          EmitFused(p, f);
        }
      }
    }

    /** Compiles the operation, or fused operations, at p. */
    method CompileOp(p: int) returns (p': int)
      requires Valid(p) && p in bc
      modifies this`code, this`table, this`waiting, this`reserved, this`groups
      ensures Valid(p') && p < p' <= length && (p' == length || p' in bc)
    {
      hide JumpsHold;
      hide GroupHolds;
      hide EndToEnd;
      hide Apart;
      hide EntriesHold;
      hide Kept;
      hide FusionAt;
      hide WaitingAfter;
      hide OnlySitesAdded;
      hide PassedAreEmpty;
      hide Patched;
      hide Body;
      hide ReservedAfter;
      hide NextPos;
      var stub := table[p].Waiting? && waiting && !bc[p].op.Entry?;
      ghost var out := Out();
      PatchedAlike(code, Sites(table[p]), |code|);
      Resolve(p);
      PatchKeepsLayout(bc, length, p, out, code);
      out := out.(code := code);
      var kind := EmitGroup(p, stub);
      ghost var g := Group(|out.code|, out.reserved, out.waiting, kind);
      NextIsLater(bc, length, p, kind);
      NextIsBoundary(bc, length, p, kind);
      assert code == out.code + code[|out.code|..];
      GroupAdded(bc, length, p, out, kind, code[|out.code|..]);
      TableAdvances(bc, length, p, old(table), table, groups, g);
      EntriesAdvance(bc, p, groups, g);
      KeptAdvances(bc, length, policy, p, Plan(groups, |out.code|, out.waiting, out.reserved), g);
      groups := groups[p := g];
      p' := NextPos(bc, p, kind);
    }

    /** The whole function, as planned: afterwards no jump waits and each goes to the code of its own target.
        If no stub is emitted with bytes reserved, the reserves are right everywhere and none are left over.
        out is what was emitted before the closing return. */
    method CompileFunction() returns (ghost out: Output)
      requires WellFormed(bc, length)
      modifies this
      ensures JitSimulation.Compiled(bc, length, out, code)
      ensures Plan(out.groups, |out.code|, out.waiting, out.reserved) == PlanOf(bc, length, policy)
      ensures |table| == length && forall q | 0 <= q < length :: !table[q].Waiting?
      ensures StubsReserveNothing(out.groups) ==> out.reserved == 0 && GroupReservesHold(bc, length, out.groups)
      ensures RunsUnbroken(bc) ==> StubsReserveNothing(out.groups)
      ensures RunsUnbroken(bc) && EndIsClosed(bc, length, out.waiting) ==> Sound(bc, length, out.groups, out.waiting)
    {
      hide JumpsHold;
      hide Linked;
      hide Apart;
      MarkTargets();
      code, waiting, reserved, groups := [], true, 0, map[];
      TableStarts(bc, length, table);
      var p := 0;
      while p < length
        invariant Valid(p) && 0 <= p <= length && (p == length || p in bc)
        decreases length - p
      {
        p := CompileOp(p);
      }
      AllLinked(bc, length, table, Out());
      out := Out();
      if RunsUnbroken(bc) && EndIsClosed(bc, length, waiting) {
        SoundWhenUnbroken(bc, length, out);
      }
      if !waiting {
        code := code + [Exit(length)];
      }
    }
  }

  ghost predicate MarkedBefore(bc: Bytecode, p: int, t: int) {
    exists q :: q in bc && q < p && bc[q].op.Branch? && Target(bc, q) == t
  }

  lemma MarksAdvance(bc: Bytecode, length: nat, p: int)
    requires WellFormed(bc, length) && p in bc
    ensures forall t :: MarkedBefore(bc, After(bc, p), t) <==>
      MarkedBefore(bc, p, t) || (bc[p].op.Branch? && Target(bc, p) == t)
  {
    hide EndToEnd;
    hide OperandsHold;
    forall t
      ensures MarkedBefore(bc, After(bc, p), t) <==> MarkedBefore(bc, p, t) || (bc[p].op.Branch? && Target(bc, p) == t)
    {
      if q :| q in bc && q < p && bc[q].op.Branch? && Target(bc, q) == t {
        assert q < After(bc, p);
      }
    }
  }

  ghost predicate Emitted(before: seq<Native>, code: seq<Native>, body: seq<Native>) {
    before <= code && |code| == |before| + |body| && Shows(code, |before|, body)
  }
}
