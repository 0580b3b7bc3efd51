/** How emitted code is laid out: one group of native instructions for every operation, or fused
    pair or triple of operations, placed end to end. */
module JitLayout {
  import opened Basics
  import opened JitModel

  /** Sets of operations compiled together. Plain operations of a group keep their joint effect. */
  datatype Fusion =
    | NoFusion
    | Pair          // two plain operations
    | Triple        // three plain operations
    | PlainPush     // a plain operation and the 4-byte push of its result
    | PushPlains    // a pointer push and two plain operations on the pushed pointer
    | Compare       // a comparison and the branch on it

  /** Script calls are never compiled together with others. */
  predicate Fusible(o: Op) {
    o.Plain? && !o.mark.Unreachable?
  }

  predicate Fits(f: Fusion, i: Op, j: Option<Op>, k: Option<Op>) {
    match f
    case NoFusion => true
    case Pair => Fusible(i) && j.Some? && Fusible(j.value)
    case Triple => Fusible(i) && j.Some? && Fusible(j.value) && k.Some? && Fusible(k.value)
    case PlainPush => Fusible(i) && j.Some? && j.value.Push? && j.value.bytes == 4
    case PushPlains => i.Push? && i.bytes == 8 && j.Some? && Fusible(j.value) && k.Some? && Fusible(k.value)
    case Compare => Fusible(i) && j.Some? && j.value.Branch? && !j.value.always
  }

  function OpAt(bc: Bytecode, p: int): Option<Op> {
    if p in bc then Some(bc[p].op) else None
  }

  function Second(bc: Bytecode, p: int): int {
    if p in bc then After(bc, p) else p
  }

  function Third(bc: Bytecode, p: int): int {
    Second(bc, Second(bc, p))
  }

  /** A group is the code for the operations fused at a position, or a stub that leaves at once. */
  datatype Kind = Stub | Code(fusion: Fusion)

  predicate KindFits(bc: Bytecode, p: int, kind: Kind) {
    p in bc && (kind.Code? ==> Fits(kind.fusion, bc[p].op, OpAt(bc, Second(bc, p)), OpAt(bc, Third(bc, p))))
  }

  /** The position after the operations of a group. */
  function NextPos(bc: Bytecode, p: int, kind: Kind): int {
    match kind
    case Stub => Second(bc, p)
    case Code(NoFusion) => Second(bc, p)
    case Code(Triple) => Second(bc, Third(bc, p))
    case Code(PushPlains) => Second(bc, Third(bc, p))
    case _ => Third(bc, p)
  }

  /** With r bytes still reserved, a push stores below the previous one; with none, the whole run
      starting here is reserved first. */
  function PushBody(r: int, run: nat, bytes: nat, id: nat): seq<Native> {
    if r == 0 then [SubSp(run), Store(run - bytes, bytes, id)] else [Store(r - bytes, bytes, id)]
  }

  function Body(bc: Bytecode, length: nat, p: int, kind: Kind, r: int): seq<Native>
    requires Sized(bc, length) && KindFits(bc, p, kind)
  {
    match kind
    case Stub => [Exit(p)]
    case Code(NoFusion) =>
      (match bc[p].op
       case Push(bytes, id) => PushBody(r, RunBytes(bc, length, p), bytes, id)
       case Branch(always, cond, _) => [Jump(p, always, cond, Target(bc, p), None)]
       case Entry => []
       case Leave(_) => [Exit(p)]
       case Plain(_, _) => [First(bc, p)])
    case Code(Pair) => [First(bc, p), Run(bc[Second(bc, p)].op.id)]
    case Code(Triple) => [First(bc, p), Run(bc[Second(bc, p)].op.id), Run(bc[Third(bc, p)].op.id)]
    case Code(PlainPush) =>
      var q := Second(bc, p);
      [First(bc, p)] + PushBody(0, RunBytes(bc, length, q), 4, bc[q].op.id)
    case Code(PushPlains) =>
      var q, third := Second(bc, p), Third(bc, p);
      (if r == 0 then [SubSp(8)] else []) +
      [Store(0, 8, bc[p].op.id), Exec(bc[q].op.id, p, third), Run(bc[third].op.id)]
    case Code(Compare) =>
      var q := Second(bc, p);
      [First(bc, p), Jump(q, false, bc[q].op.cond, Target(bc, q), None)]
  }

  /** A plain operation with its ways out. */
  function First(bc: Bytecode, p: int): Native
    requires p in bc && bc[p].op.Plain?
  {
    Exec(bc[p].op.id, p, After(bc, p))
  }

  /** The bytes still reserved behind a group. */
  function ReservedAfter(bc: Bytecode, length: nat, p: int, kind: Kind, r: int): int
    requires Sized(bc, length) && KindFits(bc, p, kind)
  {
    match kind
    case Stub => r
    case Code(NoFusion) =>
      if bc[p].op.Push? then (if r == 0 then RunBytes(bc, length, p) else r) - bc[p].op.bytes else r
    case Code(PlainPush) => RunBytes(bc, length, Second(bc, p)) - 4
    case Code(PushPlains) => 0
    case _ => r
  }

  /** Whether control goes on in compiled code. */
  predicate GoesOn(bc: Bytecode, p: int, kind: Kind) {
    p in bc && kind.Code? && !(kind.fusion.NoFusion? && bc[p].op.Leave?)
  }

  function Marked(o: Option<Op>, waiting: bool): bool {
    if o.None? || !o.value.Plain? then waiting
    else
      match o.value.mark
      case Keeps => waiting
      case Reachable => false
      case Unreachable => true
  }

  /** Whether the compiler takes the code behind a group for unreachable, until an entry or a branch target. */
  function WaitingAfter(bc: Bytecode, p: int, kind: Kind, waiting: bool): bool {
    match kind
    case Stub => true
    case Code(PushPlains) => false
    case Code(NoFusion) =>
      if p in bc && bc[p].op.Entry? then false
      else if p in bc && bc[p].op.Leave? then true
      else Marked(OpAt(bc, p), waiting)
    case Code(Pair) => Marked(OpAt(bc, Second(bc, p)), Marked(OpAt(bc, p), waiting))
    case Code(Triple) =>
      Marked(OpAt(bc, Third(bc, p)), Marked(OpAt(bc, Second(bc, p)), Marked(OpAt(bc, p), waiting)))
    case _ => Marked(OpAt(bc, p), waiting)
  }

  /** A branch target in code taken for unreachable gets a stub. */
  ghost predicate NeedsStub(bc: Bytecode, p: int, waiting: bool) {
    p in bc && IsTarget(bc, p) && waiting && !bc[p].op.Entry?
  }

  /** Instructions that differ in nothing but where a jump goes. */
  predicate Alike(a: Native, b: Native) {
    if a.Jump? && b.Jump? then
      a.from == b.from && a.always == b.always && a.cond == b.cond && a.target == b.target
    else a == b
  }

  ghost predicate Shows(code: seq<Native>, at: nat, body: seq<Native>) {
    at + |body| <= |code| && forall i | 0 <= i < |body| :: Alike(code[at + i], body[i])
  }

  /** What the compiler knew in front of a group, and what it made of it. */
  datatype Group = Group(addr: nat, reserved: int, waiting: bool, kind: Kind)

  /** What has been emitted, up to some position. */
  datatype Output = Output(code: seq<Native>, groups: map<int, Group>, waiting: bool, reserved: int)

  ghost predicate GroupHolds(bc: Bytecode, length: nat, p: int, out: Output, q: int)
    requires Sized(bc, length) && q in out.groups
  {
    var g := out.groups[q];
    && KindFits(bc, q, g.kind) && NextPos(bc, q, g.kind) <= p
    && (forall x | x in out.groups && q < x :: NextPos(bc, q, g.kind) <= x)
    && (g.kind.Stub? <==> NeedsStub(bc, q, g.waiting))
    && Shows(out.code, g.addr, Body(bc, length, q, g.kind, g.reserved))
    && Joins(bc, length, p, out, q, g)
  }

  /** The code behind a group is the next group, or not emitted yet. */
  ghost predicate Joins(bc: Bytecode, length: nat, p: int, out: Output, q: int, g: Group)
    requires Sized(bc, length) && KindFits(bc, q, g.kind)
  {
    var next := NextPos(bc, q, g.kind);
    var end := g.addr + |Body(bc, length, q, g.kind, g.reserved)|;
    var r := ReservedAfter(bc, length, q, g.kind, g.reserved);
    var w := WaitingAfter(bc, q, g.kind, g.waiting);
    if next == p then end == |out.code| && r == out.reserved && w == out.waiting
    else
      && next in out.groups && end == out.groups[next].addr
      && r == out.groups[next].reserved && w == out.groups[next].waiting
  }

  ghost predicate Layout(bc: Bytecode, length: nat, p: int, out: Output) {
    Sized(bc, length) && forall q | q in out.groups :: q < p && GroupHolds(bc, length, p, out, q)
  }

  lemma PatchKeepsLayout(bc: Bytecode, length: nat, p: int, out: Output, code: seq<Native>)
    requires Layout(bc, length, p, out)
    requires |code| == |out.code| && forall i | 0 <= i < |code| :: Alike(code[i], out.code[i])
    ensures Layout(bc, length, p, out.(code := code))
  {
    hide Body;
    hide ReservedAfter;
    hide NextPos;
    hide WaitingAfter;
    forall q | q in out.groups
      ensures GroupHolds(bc, length, p, out.(code := code), q)
    {
      assert GroupHolds(bc, length, p, out, q);
    }
  }

  lemma LaterGroupHolds(bc: Bytecode, length: nat, p: int, p': int, out: Output, out': Output, q: int)
    requires Sized(bc, length) && q in out.groups && q < p < p' && GroupHolds(bc, length, p, out, q)
    requires out.code <= out'.code
    requires p !in out.groups && p in out'.groups && out'.groups == out.groups[p := out'.groups[p]]
    requires var g := out'.groups[p];
      g.addr == |out.code| && g.reserved == out.reserved && g.waiting == out.waiting
    ensures GroupHolds(bc, length, p', out', q)
  {
    hide Body;
    hide ReservedAfter;
    hide NextPos;
    hide KindFits;
  }

  /** Emitting the group of position p. */
  lemma GroupAdded(bc: Bytecode, length: nat, p: int, out: Output, kind: Kind, body: seq<Native>)
    requires Layout(bc, length, p, out) && KindFits(bc, p, kind)
    requires |body| == |Body(bc, length, p, kind, out.reserved)|
    requires forall i | 0 <= i < |body| :: Alike(body[i], Body(bc, length, p, kind, out.reserved)[i])
    requires kind.Stub? <==> NeedsStub(bc, p, out.waiting)
    ensures var g := Group(|out.code|, out.reserved, out.waiting, kind);
      Layout(bc, length, NextPos(bc, p, kind),
             Output(out.code + body, out.groups[p := g], WaitingAfter(bc, p, kind, out.waiting),
                    ReservedAfter(bc, length, p, kind, out.reserved)))
  {
    var g := Group(|out.code|, out.reserved, out.waiting, kind);
    var out' := Output(out.code + body, out.groups[p := g], WaitingAfter(bc, p, kind, out.waiting),
                       ReservedAfter(bc, length, p, kind, out.reserved));
    var p' := NextPos(bc, p, kind);
    NextIsLater(bc, length, p, kind);
    hide Body;
    hide ReservedAfter;
    hide NextPos;
    hide WaitingAfter;
    hide NeedsStub;
    forall q | q in out'.groups
      ensures q < p' && GroupHolds(bc, length, p', out', q)
    {
      if q != p {
        assert GroupHolds(bc, length, p, out, q);
        LaterGroupHolds(bc, length, p, p', out, out', q);
      }
    }
  }

  lemma NextIsLater(bc: Bytecode, length: nat, p: int, kind: Kind)
    requires Sized(bc, length) && KindFits(bc, p, kind)
    ensures p < NextPos(bc, p, kind) <= length
  {
  }

  lemma NextIsBoundary(bc: Bytecode, length: nat, p: int, kind: Kind)
    requires Sized(bc, length) && EndToEnd(bc, length) && KindFits(bc, p, kind)
    ensures NextPos(bc, p, kind) == length || NextPos(bc, p, kind) in bc
  {
    var q := After(bc, p);
    assert q == length || q in bc;
    if q in bc {
      var r := After(bc, q);
      assert r == length || r in bc;
      if r in bc {
        assert After(bc, r) == length || After(bc, r) in bc;
      }
    }
    hide EndToEnd;
  }

  /** Every jump goes to the code of its own target. */
  ghost predicate Linked(bc: Bytecode, out: Output) {
    && (forall t | IsTarget(bc, t) :: t in out.groups)
    && forall k | 0 <= k < |out.code| ::
         && !out.code[k].LeaveIf?
         && (out.code[k].Jump? ==>
               IsTarget(bc, out.code[k].target) && out.code[k].dest == Some(out.groups[out.code[k].target].addr))
  }

  /** The places where the interpreter enters compiled code all have some. */
  ghost predicate EntriesHold(bc: Bytecode, p: int, groups: map<int, Group>) {
    forall q | q in bc && q < p && bc[q].op.Entry? :: q in groups
  }

  lemma EntriesAdvance(bc: Bytecode, p: int, groups: map<int, Group>, g: Group)
    requires Apart(bc) && EntriesHold(bc, p, groups) && KindFits(bc, p, g.kind)
    ensures EntriesHold(bc, NextPos(bc, p, g.kind), groups[p := g])
  {
    forall q | q in bc && p < q < NextPos(bc, p, g.kind)
      ensures !bc[q].op.Entry?
    {
      assert After(bc, p) <= q;
      if After(bc, p) < q {
        assert After(bc, p) in bc ==> After(bc, After(bc, p)) <= q;
      }
    }
  }
}
