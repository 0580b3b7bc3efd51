/** The condition for compiled code is exact: where it fails, some program meaning makes native code and
    interpreter part for good. */
module JitExactness {
  import opened JitModel
  import opened JitLayout
  import opened JitLinking
  import opened JitControl
  import opened JitSimulation

  // ---- A meaning that records everything ----

  datatype Deed = Ran(id: nat, sp: int) | Wrote(at: int, bytes: nat, value: int)

  type Log = seq<Deed>

  /** Operations only leave a record, and never take a way out; the branches at the given positions are taken. */
  function Recording(takes: set<int>): Semantics<Log> {
    Semantics((id: nat, sp: int, x: Log) => (sp, x + [Ran(id, sp)]),
              (id: nat, sp: int, x: Log) => Stays,
              (id: nat, x: Log) => id as int,
              (x: Log, at: int, bytes: nat, value: int) => x + [Wrote(at, bytes, value)],
              (p: int, cond: nat, x: Log) => p in takes)
  }

  lemma {:induction false} NativeRecordGrows(code: seq<Native>, takes: set<int>, s: NativeState<Log>, n: nat)
    requires !s.Stuck?
    ensures var s' := NativeRun(code, Recording(takes), s, n);
      s'.Stuck? || s.x <= s'.x
    decreases n
  {
    if n > 0 {
      var s1 := NativeStep(code, Recording(takes), s);
      if s1.Stuck? {
        StoppedStays(code, Recording(takes), s1, n - 1);
      } else {
        NativeRecordGrows(code, takes, s1, n - 1);
      }
    }
  }

  lemma {:induction false} VmRecordGrows(bc: Bytecode, takes: set<int>, v: VmState<Log>, n: nat)
    ensures v.x <= VmRun(bc, Recording(takes), v, n).x
    decreases n
  {
    if n > 0 {
      VmRecordGrows(bc, takes, VmStep(bc, Recording(takes), v), n - 1);
    }
  }

  lemma RecordingRunsOn(bc: Bytecode, groups: map<int, Group>, takes: set<int>, q: int, kind: Kind, v: VmState<Log>)
    ensures PointerHolds(bc, groups, Recording(takes), v)
    ensures RunsOn(bc, Recording(takes), q, kind, v) <==> GoesOn(bc, q, kind)
  {
  }

  function Written(x: Log): nat {
    if x == [] then 0 else Written(x[..|x| - 1]) + if x[|x| - 1].Wrote? then x[|x| - 1].bytes else 0
  }

  /** The interpreter's stack pointer can be told from the record. */
  lemma {:induction false} RecordTellsStack(bc: Bytecode, takes: set<int>, v: VmState<Log>, n: nat)
    ensures var v' := VmRun(bc, Recording(takes), v, n);
      v'.sp + Written(v'.x) == v.sp + Written(v.x)
    decreases n
  {
    if n > 0 {
      var v1 := VmStep(bc, Recording(takes), v);
      assert |v1.x| > |v.x| ==> v1.x[..|v1.x| - 1] == v.x;
      RecordTellsStack(bc, takes, v1, n - 1);
    }
  }

  // ---- Paths without detours ----

  ghost predicate NoRepeats(path: seq<Arrival>) {
    forall i, j | 0 <= i < j < |path| :: path[i] != path[j]
  }

  lemma {:induction false} PathPrefix(bc: Bytecode, length: nat, groups: map<int, Group>, path: seq<Arrival>, i: nat)
    requires Sized(bc, length) && IsPath(bc, length, groups, path) && i < |path|
    ensures IsPath(bc, length, groups, path[..i + 1])
  {
    hide Leads;
    var n := |path| - 1;
    if i < n {
      PathPrefix(bc, length, groups, path[..n], i);
      assert path[..n][..i + 1] == path[..i + 1];
    } else {
      assert path[..i + 1] == path;
    }
  }

  lemma PathStep(bc: Bytecode, length: nat, groups: map<int, Group>, path: seq<Arrival>, i: nat)
    requires Sized(bc, length) && IsPath(bc, length, groups, path) && i + 1 < |path|
    ensures Leads(bc, length, groups, path[i], path[i + 1])
  {
    hide Leads;
    PathPrefix(bc, length, groups, path, i + 1);
    assert IsPath(bc, length, groups, path[..i + 2]);
  }

  /** A loop can be left out. */
  lemma {:induction false} LoopLeftOut(bc: Bytecode, length: nat, groups: map<int, Group>, path: seq<Arrival>,
                                       i: nat, j: nat)
    requires Sized(bc, length) && IsPath(bc, length, groups, path) && i < j < |path| && path[i] == path[j]
    ensures IsPath(bc, length, groups, path[..i + 1] + path[j + 1..])
  {
    hide Leads;
    var n := |path| - 1;
    var short := path[..i + 1] + path[j + 1..];
    if j == n {
      PathPrefix(bc, length, groups, path, i);
      assert short == path[..i + 1];
    } else {
      LoopLeftOut(bc, length, groups, path[..n], i, j);
      assert short[..|short| - 1] == path[..n][..i + 1] + path[..n][j + 1..];
      assert short[|short| - 1] == path[n] && short[|short| - 2] == path[n - 1];
    }
  }

  /** If some arrival is not as expected, a path without loops leads to the first such one. */
  lemma {:induction false} DirectPath(bc: Bytecode, length: nat, groups: map<int, Group>, waiting: bool,
                                      path: seq<Arrival>) returns (short: seq<Arrival>)
    requires Sized(bc, length) && IsPath(bc, length, groups, path)
    requires !Expected(bc, length, groups, waiting, path[|path| - 1])
    ensures IsPath(bc, length, groups, short) && NoRepeats(short)
    ensures !Expected(bc, length, groups, waiting, short[|short| - 1])
    ensures forall i | 0 <= i < |short| - 1 :: Expected(bc, length, groups, waiting, short[i])
    decreases |path|
  {
    hide IsPath;
    hide Expected;
    assert |path| > 0 by {
      NotEmpty(bc, length, groups, path);
    }
    if i :| 0 <= i < |path| - 1 && !Expected(bc, length, groups, waiting, path[i]) {
      PathPrefix(bc, length, groups, path, i);
      short := DirectPath(bc, length, groups, waiting, path[..i + 1]);
    } else if i, j :| 0 <= i < j < |path| && path[i] == path[j] {
      LoopLeftOut(bc, length, groups, path, i, j);
      var cut := path[..i + 1] + path[j + 1..];
      assert cut[|cut| - 1] == path[|path| - 1];
      short := DirectPath(bc, length, groups, waiting, cut);
    } else {
      short := path;
    }
  }

  lemma NotEmpty(bc: Bytecode, length: nat, groups: map<int, Group>, path: seq<Arrival>)
    requires Sized(bc, length) && IsPath(bc, length, groups, path)
    ensures |path| > 0
  {
  }

  // ---- Making both machines take a path ----

  ghost predicate TakesAt(bc: Bytecode, length: nat, groups: map<int, Group>, path: seq<Arrival>, i: nat)
    requires Sized(bc, length) && i + 1 < |path|
  {
    && path[i].pos in groups
    && var kind := groups[path[i].pos].kind;
    && KindFits(bc, path[i].pos, kind) && Branches(bc, path[i].pos, kind)
    && path[i + 1] == Succ(bc, length, path[i].pos, kind, true)
  }

  function BranchOf(bc: Bytecode, groups: map<int, Group>, a: Arrival): int {
    if a.pos in groups then BranchPos(bc, a.pos, groups[a.pos].kind) else a.pos
  }

  /** The branches that have to be taken. */
  ghost function Takes(bc: Bytecode, length: nat, groups: map<int, Group>, path: seq<Arrival>): set<int>
    requires Sized(bc, length)
  {
    set i | 0 <= i < |path| - 1 && TakesAt(bc, length, groups, path, i) :: BranchOf(bc, groups, path[i])
  }

  /** Every branch belongs to one group. */
  lemma BranchesApart(bc: Bytecode, length: nat, out: Output, q: int, r: int)
    requires WellFormed(bc, length) && Layout(bc, length, length, out) && q in out.groups && r in out.groups
    requires Branches(bc, q, out.groups[q].kind) && Branches(bc, r, out.groups[r].kind)
    requires BranchPos(bc, q, out.groups[q].kind) == BranchPos(bc, r, out.groups[r].kind)
    ensures q == r
  {
    hide EndToEnd;
    hide Joins;
    hide Shows;
    assert GroupHolds(bc, length, length, out, q) && GroupHolds(bc, length, length, out, r);
  }

  /** In a run only pushes are met. */
  lemma InRunIsPush(bc: Bytecode, length: nat, groups: map<int, Group>, path: seq<Arrival>, i: nat)
    requires Sized(bc, length) && IsPath(bc, length, groups, path) && i < |path|
    ensures path[i].inRun ==> path[i].pos in bc && bc[path[i].pos].op.Push?
  {
    if i > 0 {
      PathStep(bc, length, groups, path, i - 1);
    } else {
      PathPrefix(bc, length, groups, path, 0);
    }
  }

  lemma DecisionsMatch(bc: Bytecode, length: nat, out: Output, path: seq<Arrival>, i: nat, x: Log)
    requires WellFormed(bc, length) && Layout(bc, length, length, out)
    requires IsPath(bc, length, out.groups, path) && NoRepeats(path) && i + 1 < |path|
    ensures Leads(bc, length, out.groups, path[i], path[i + 1])
    ensures var q, kind := path[i].pos, out.groups[path[i].pos].kind;
      Succ(bc, length, q, kind, Decides(bc, Recording(Takes(bc, length, out.groups, path)), q, kind, x)) == path[i + 1]
  {
    hide EndToEnd;
    hide Apart;
    hide OperandsHold;
    hide Layout;
    hide IsPath;
    PathStep(bc, length, out.groups, path, i);
    var q, kind := path[i].pos, out.groups[path[i].pos].kind;
    var takes := Takes(bc, length, out.groups, path);
    if Branches(bc, q, kind) {
      if TakesAt(bc, length, out.groups, path, i) {
        assert BranchOf(bc, out.groups, path[i]) in takes;
      } else if BranchPos(bc, q, kind) in takes {
        var j :| 0 <= j < |path| - 1 && TakesAt(bc, length, out.groups, path, j)
              && BranchOf(bc, out.groups, path[j]) == BranchPos(bc, q, kind);
        BranchesApart(bc, length, out, path[j].pos, q);
        InRunIsPush(bc, length, out.groups, path, i);
        InRunIsPush(bc, length, out.groups, path, j);
      }
    }
  }

  lemma EntryIsAt(bc: Bytecode, length: nat, out: Output, code: seq<Native>, path: seq<Arrival>)
    requires Compiled(bc, length, out, code) && IsPath(bc, length, out.groups, path)
    ensures HasCode(bc, length, out, path[0]) && !path[0].inRun && path[0].pos in bc && bc[path[0].pos].op.Entry?
  {
    hide EndToEnd;
    hide Apart;
    hide Layout;
    hide Linked;
    PathPrefix(bc, length, out.groups, path, 0);
  }

  lemma GroupIsInside(bc: Bytecode, length: nat, out: Output, code: seq<Native>, q: int)
    requires Compiled(bc, length, out, code) && q in out.groups
    ensures q < length
  {
  }

  /** Both machines get to every arrival of the path. */
  lemma {:induction false} PathIsTaken(bc: Bytecode, length: nat, out: Output, code: seq<Native>, path: seq<Arrival>,
                                       v: VmState<Log>, i: nat) returns (a: nat, b: nat)
    requires Compiled(bc, length, out, code) && IsPath(bc, length, out.groups, path) && NoRepeats(path) && i < |path|
    requires forall j | 0 <= j < |path| - 1 :: Expected(bc, length, out.groups, out.waiting, path[j])
    requires HasCode(bc, length, out, path[0]) && v.pc == path[0].pos
    ensures HasCode(bc, length, out, path[i])
    ensures var sem := Recording(Takes(bc, length, out.groups, path));
      && VmRun(bc, sem, v, b).pc == path[i].pos
      && NativeRun(code, sem, NativeAt(bc, length, out, path[0], v), a)
         == NativeAt(bc, length, out, path[i], VmRun(bc, sem, v, b))
  {
    hide EndToEnd;
    hide Apart;
    hide OperandsHold;
    hide Layout;
    hide Linked;
    hide EntriesHold;
    hide IsPath;
    hide Recording;
    hide Takes;
    hide NoRepeats;
    if i == 0 {
      a, b := 0, 0;
    } else {
      hide NativeRun;
      hide VmRun;
      hide Expected;
      hide HasCode;
      hide Succ;
      var sem := Recording(Takes(bc, length, out.groups, path));
      a, b := PathIsTaken(bc, length, out, code, path, v, i - 1);
      var v' := VmRun(bc, sem, v, b);
      PathStep(bc, length, out.groups, path, i - 1);
      GroupIsInside(bc, length, out, code, path[i - 1].pos);
      RecordingRunsOn(bc, out.groups, Takes(bc, length, out.groups, path), v'.pc, out.groups[v'.pc].kind, v');
      hide PointerHolds;
      hide RunsOn;
      var a1, b1 := GroupAdvances(bc, length, out, code, sem, path[i - 1], v');
      DecisionsMatch(bc, length, out, path, i - 1, VmRun(bc, sem, v', b1).x);
      NativeRunSplit(code, sem, NativeAt(bc, length, out, path[0], v), a, a1);
      VmRunSplit(bc, sem, v, b, b1);
      a, b := a + a1, b + b1;
    }
  }

  // ---- Parting ----

  /** Two records that can never become equal: they differ where both are settled. */
  ghost predicate Parted(x: Log, y: Log) {
    exists i | 0 <= i < |x| && i < |y| :: x[i] != y[i]
  }

  /** Without a closing return nothing is left to run behind the last operation. */
  lemma EndIsStuck(bc: Bytecode, length: nat, out: Output, code: seq<Native>, takes: set<int>, here: Arrival,
                   v: VmState<Log>)
    requires Compiled(bc, length, out, code) && HasCode(bc, length, out, here) && here.pos == length && out.waiting
    ensures NativeStep(code, Recording(takes), NativeAt(bc, length, out, here, v)).Stuck?
  {
    hide Layout;
    hide Linked;
  }

  /** A stub met with bytes reserved hands back a stack pointer that is too low. */
  lemma StubMisplaces(bc: Bytecode, length: nat, out: Output, code: seq<Native>, takes: set<int>, here: Arrival,
                      v: VmState<Log>)
    requires Placed(bc, length, out, code, here.pos) && HasCode(bc, length, out, here) && v.pc == here.pos
    requires out.groups[here.pos].kind.Stub? && here.inRun
    ensures var n' := NativeStep(code, Recording(takes), NativeAt(bc, length, out, here, v));
      n'.Left? && n'.sp < v.sp && n'.x == v.x
  {
    var g := out.groups[here.pos];
    var body := Body(bc, length, here.pos, g.kind, g.reserved);
    assert Alike(code[g.addr + 0], body[0]);
  }

  /** A push that finds less reserved than its code expects writes elsewhere than the interpreter. */
  lemma WrongPushParts(bc: Bytecode, length: nat, out: Output, code: seq<Native>, takes: set<int>, here: Arrival,
                       v: VmState<Log>)
    requires Placed(bc, length, out, code, here.pos) && HasCode(bc, length, out, here) && v.pc == here.pos
    requires out.groups[here.pos].kind.Code? && !Expected(bc, length, out.groups, out.waiting, here)
    ensures var n' := NativeStep(code, Recording(takes), NativeAt(bc, length, out, here, v));
      var v' := VmStep(bc, Recording(takes), v);
      n'.Running? && |n'.x| == |v'.x| == |v.x| + 1 && Parted(n'.x, v'.x)
  {
    var g := out.groups[here.pos];
    var body := Body(bc, length, here.pos, g.kind, g.reserved);
    assert Alike(code[g.addr + 0], body[0]);
    var n' := NativeStep(code, Recording(takes), NativeAt(bc, length, out, here, v));
    var v' := VmStep(bc, Recording(takes), v);
    assert n'.x[|v.x|] != v'.x[|v.x|];
  }

  /** From then on nothing the native code does agrees with anything the interpreter ever does. */
  lemma PartedForGood(bc: Bytecode, code: seq<Native>, takes: set<int>, s: NativeState<Log>, v: VmState<Log>, a: nat,
                      b: nat)
    requires s.Running? && v.x < s.x && |s.x| == |v.x| + 1
    requires |VmStep(bc, Recording(takes), v).x| == |s.x| && Parted(s.x, VmStep(bc, Recording(takes), v).x)
    ensures var s' := NativeRun(code, Recording(takes), s, a);
      s'.Stuck? || s'.x != VmRun(bc, Recording(takes), v, b).x
  {
    NativeRecordGrows(code, takes, s, a);
    if b > 0 {
      VmRecordGrows(bc, takes, VmStep(bc, Recording(takes), v), b - 1);
    }
  }

  lemma EarlierRecordIsShorter(bc: Bytecode, takes: set<int>, v: VmState<Log>, b: nat, b': nat)
    requires b' <= b
    ensures VmRun(bc, Recording(takes), v, b').x <= VmRun(bc, Recording(takes), v, b).x
  {
    hide VmStep;
    VmRunSplit(bc, Recording(takes), v, b', b - b');
    VmRecordGrows(bc, takes, VmRun(bc, Recording(takes), v, b'), b - b');
  }

  lemma InStepAgrees(bc: Bytecode, length: nat, out: Output, code: seq<Native>, takes: set<int>,
                     s: NativeState<Log>, v: VmState<Log>, a: nat, b: nat)
    requires Sized(bc, length) && InStep(bc, length, out, code, Recording(takes), s, v, a, b)
    ensures var s' := NativeRun(code, Recording(takes), s, a);
      !s'.Stuck? && s'.x == VmRun(bc, Recording(takes), v, b).x
  {
    hide NativeRun;
    hide VmRun;
    hide Recording;
  }

  lemma NeverInStepAgain(bc: Bytecode, length: nat, out: Output, code: seq<Native>, takes: set<int>,
                         s: NativeState<Log>, v: VmState<Log>, a: nat, b: nat, a': nat, b': nat)
    requires Sized(bc, length) && a + 1 <= a'
    requires var sem := Recording(takes);
      var s1, v1 := NativeStep(code, sem, NativeRun(code, sem, s, a)), VmRun(bc, sem, v, b);
      && s1.Running? && v1.x < s1.x && |s1.x| == |v1.x| + 1
      && |VmStep(bc, sem, v1).x| == |s1.x| && Parted(s1.x, VmStep(bc, sem, v1).x)
    ensures !InStep(bc, length, out, code, Recording(takes), s, v, a', b')
  {
    hide InStep;
    hide NativeStep;
    hide VmStep;
    hide Recording;
    var sem := Recording(takes);
    var s0, v1 := NativeRun(code, sem, s, a), VmRun(bc, sem, v, b);
    var s1 := NativeStep(code, sem, s0);
    NativeRunSplit(code, sem, s, a, a' - a);
    assert NativeRun(code, sem, s0, a' - a) == NativeRun(code, sem, s1, a' - a - 1);
    if b' <= b {
      EarlierRecordIsShorter(bc, takes, v, b, b');
      PartedForGood(bc, code, takes, s1, v1, a' - a - 1, 0);
      NativeRecordGrows(code, takes, s1, a' - a - 1);
    } else {
      VmRunSplit(bc, sem, v, b, b' - b);
      PartedForGood(bc, code, takes, s1, v1, a' - a - 1, b' - b);
    }
    if InStep(bc, length, out, code, sem, s, v, a', b') {
      InStepAgrees(bc, length, out, code, takes, s, v, a', b');
    }
  }

  lemma StepRecords(code: seq<Native>, takes: set<int>, s: NativeState<Log>)
    requires s.Running?
    ensures var s' := NativeStep(code, Recording(takes), s);
      s'.Stuck? || s.x <= s'.x
  {
  }

  /** Once the native code has stopped in a state that is not the interpreter's, or got stuck. */
  lemma StoppedForGood(bc: Bytecode, length: nat, out: Output, code: seq<Native>, takes: set<int>,
                       s: NativeState<Log>, v: VmState<Log>, a: nat, b: nat, a': nat, b': nat)
    requires Sized(bc, length) && a + 1 <= a'
    requires var sem := Recording(takes);
      var s1, v1 := NativeStep(code, sem, NativeRun(code, sem, s, a)), VmRun(bc, sem, v, b);
      s1.Stuck? || (s1.Left? && s1.sp != v1.sp && s1.x == v1.x)
    ensures !InStep(bc, length, out, code, Recording(takes), s, v, a', b')
  {
    hide NativeStep;
    hide VmStep;
    hide VmRun;
    var sem := Recording(takes);
    var s0 := NativeRun(code, sem, s, a);
    NativeRunSplit(code, sem, s, a, a' - a);
    assert NativeRun(code, sem, s0, a' - a) == NativeRun(code, sem, NativeStep(code, sem, s0), a' - a - 1);
    hide NativeRun;
    StoppedStays(code, sem, NativeStep(code, sem, s0), a' - a - 1);
    RecordTellsStack(bc, takes, v, b);
    RecordTellsStack(bc, takes, v, b');
    hide Recording;
  }

  /** From an arrival that is not as expected, native code never again meets the interpreter. */
  lemma UnexpectedParts(bc: Bytecode, length: nat, out: Output, code: seq<Native>, takes: set<int>, here: Arrival,
                        s: NativeState<Log>, v: VmState<Log>, a: nat, b: nat, a': nat, b': nat)
    requires Compiled(bc, length, out, code) && HasCode(bc, length, out, here) && a + 1 <= a'
    requires !Expected(bc, length, out.groups, out.waiting, here)
    requires var v1 := VmRun(bc, Recording(takes), v, b);
      v1.pc == here.pos && NativeRun(code, Recording(takes), s, a) == NativeAt(bc, length, out, here, v1)
    ensures !InStep(bc, length, out, code, Recording(takes), s, v, a', b')
  {
    hide EndToEnd;
    hide Apart;
    hide OperandsHold;
    hide Layout;
    hide Linked;
    hide EntriesHold;
    hide NativeRun;
    hide VmRun;
    hide NativeStep;
    hide VmStep;
    hide Recording;
    hide InStep;
    hide Parted;
    var v1 := VmRun(bc, Recording(takes), v, b);
    if here.pos == length {
      EndIsStuck(bc, length, out, code, takes, here, v1);
      StoppedForGood(bc, length, out, code, takes, s, v, a, b, a', b');
    } else {
      GroupIsPlaced(bc, length, out, code, here.pos);
      hide Compiled;
      if out.groups[here.pos].kind.Stub? {
        StubMisplaces(bc, length, out, code, takes, here, v1);
        StoppedForGood(bc, length, out, code, takes, s, v, a, b, a', b');
      } else {
        WrongPushParts(bc, length, out, code, takes, here, v1);
        StepRecords(code, takes, NativeAt(bc, length, out, here, v1));
        NeverInStepAgain(bc, length, out, code, takes, s, v, a, b, a', b');
      }
    }
  }

  /** Where the condition fails there is an entry, a meaning and a time from which on the native code never
      again meets the interpreter. */
  lemma UnsoundParts(bc: Bytecode, length: nat, out: Output, code: seq<Native>)
    returns (takes: set<int>, v: VmState<Log>, n: nat)
    requires Compiled(bc, length, out, code) && !Sound(bc, length, out.groups, out.waiting)
    ensures v.pc in bc && bc[v.pc].op.Entry? && v.pc in out.groups
    ensures !Follows(bc, length, out, code, Recording(takes), Running(out.groups[v.pc].addr, v.sp, v.x), v, n)
  {
    hide EndToEnd;
    hide Apart;
    hide OperandsHold;
    hide Layout;
    hide Linked;
    hide EntriesHold;
    var any :| IsPath(bc, length, out.groups, any)
            && !Expected(bc, length, out.groups, out.waiting, any[|any| - 1]);
    var path := DirectPath(bc, length, out.groups, out.waiting, any);
    EntryIsAt(bc, length, out, code, path);
    hide IsPath;
    hide Expected;
    hide NativeRun;
    hide VmRun;
    hide InStep;
    hide Recording;
    takes := Takes(bc, length, out.groups, path);
    v := VmState(path[0].pos, 0, []);
    var a, b := PathIsTaken(bc, length, out, code, path, v, |path| - 1);
    var s := NativeAt(bc, length, out, path[0], v);
    n := a + 1;
    forall a', b' | n <= a'
      ensures !InStep(bc, length, out, code, Recording(takes), s, v, a', b')
    {
      UnexpectedParts(bc, length, out, code, takes, path[|path| - 1], s, v, a, b, a', b');
    }
  }

  lemma RecordingPointersHold(bc: Bytecode, groups: map<int, Group>, takes: set<int>, v: VmState<Log>)
    ensures PointersHold(bc, groups, Recording(takes), v)
  {
  }

  /** Compiled code follows the interpreter from every entry, for every choice of branches and for ever, if and
      only if everything control can come to finds the stack reserved as it expects. */
  lemma SoundIsExact(bc: Bytecode, length: nat, out: Output, code: seq<Native>)
    requires Compiled(bc, length, out, code)
    ensures Sound(bc, length, out.groups, out.waiting) <==>
      forall takes: set<int>, v: VmState<Log>, n: nat | v.pc in bc && bc[v.pc].op.Entry? && v.pc in out.groups ::
        Follows(bc, length, out, code, Recording(takes), Running(out.groups[v.pc].addr, v.sp, v.x), v, n)
  {
    hide EndToEnd;
    hide Apart;
    hide OperandsHold;
    hide Layout;
    hide Linked;
    hide EntriesHold;
    hide Sound;
    hide Follows;
    hide PointersHold;
    hide Recording;
    if Sound(bc, length, out.groups, out.waiting) {
      forall takes: set<int>, v: VmState<Log>, n: nat | v.pc in bc && bc[v.pc].op.Entry? && v.pc in out.groups
        ensures Follows(bc, length, out, code, Recording(takes), Running(out.groups[v.pc].addr, v.sp, v.x), v, n)
      {
        RecordingPointersHold(bc, out.groups, takes, v);
        EntryFollows(bc, length, out, code, Recording(takes), v, n);
      }
    } else {
      var takes, v, n := UnsoundParts(bc, length, out, code);
    }
  }
}
