/** The jump table: which positions have code, and which jumps still wait for theirs. */
module JitLinking {
  import opened Basics
  import opened JitModel
  import opened JitLayout

  /** One word of the table: nothing, a marker or list of jump sites to patch, or a code address.
      The bare marker is the empty list. */
  datatype Entry = Empty | Waiting(sites: seq<nat>) | At(addr: nat)

  /** Positions with code are the emitted groups; branch targets are never passed over. */
  ghost predicate TableHolds(bc: Bytecode, length: nat, p: int, table: seq<Entry>, groups: map<int, Group>) {
    && |table| == length
    && (forall q | q in groups :: 0 <= q < length)
    && (forall q | 0 <= q < length :: if q in groups then table[q] == At(groups[q].addr) else !table[q].At?)
    && (forall q | 0 <= q < length && table[q].Waiting? :: IsTarget(bc, q))
    && (forall t | IsTarget(bc, t) :: 0 <= t < length)
    && (forall t | IsTarget(bc, t) :: if t < p then t in groups else !table[t].Empty?)
  }

  /** A jump goes to the code recorded for its target, or is listed there to be patched. */
  ghost predicate JumpHolds(bc: Bytecode, code: seq<Native>, table: seq<Entry>, k: nat)
    requires k < |code|
  {
    && !code[k].LeaveIf?
    && (code[k].Jump? ==>
          && 0 <= code[k].target < |table| && IsTarget(bc, code[k].target)
          && match code[k].dest
             case Some(a) => table[code[k].target] == At(a)
             case None => table[code[k].target].Waiting? && k in table[code[k].target].sites)
  }

  ghost predicate JumpsHold(bc: Bytecode, code: seq<Native>, table: seq<Entry>) {
    && (forall k | 0 <= k < |code| :: JumpHolds(bc, code, table, k))
    && (forall t | 0 <= t < |table| && table[t].Waiting? :: SitesHold(code, t, table[t].sites))
  }

  ghost predicate SitesHold(code: seq<Native>, t: int, sites: seq<nat>) {
    forall i | 0 <= i < |sites| :: sites[i] < |code| && code[sites[i]].Jump? && code[sites[i]].target == t
  }

  /** The code once every site in the list jumps to dest. */
  function Patched(code: seq<Native>, sites: seq<nat>, dest: nat): seq<Native> {
    seq(|code|, k requires 0 <= k < |code| =>
      if k in sites && code[k].Jump? then code[k].(dest := Some(dest)) else code[k])
  }

  function Sites(e: Entry): seq<nat> {
    if e.Waiting? then e.sites else []
  }

  /** Recording the address of position p and patching the jumps that wait for it. */
  lemma ResolvedJumpsHold(bc: Bytecode, code: seq<Native>, table: seq<Entry>, p: int, addr: nat)
    requires JumpsHold(bc, code, table) && 0 <= p < |table| && !table[p].At?
    ensures JumpsHold(bc, Patched(code, Sites(table[p]), addr), table[p := At(addr)])
  {
    var code', table' := Patched(code, Sites(table[p]), addr), table[p := At(addr)];
    forall k | 0 <= k < |code'|
      ensures JumpHolds(bc, code', table', k)
    {
      assert JumpHolds(bc, code, table, k);
    }
    forall t | 0 <= t < |table'| && table'[t].Waiting?
      ensures SitesHold(code', t, table'[t].sites)
    {
      assert SitesHold(code, t, table[t].sites);
    }
  }

  lemma PatchedAlike(code: seq<Native>, sites: seq<nat>, dest: nat)
    ensures forall k | 0 <= k < |code| :: Alike(Patched(code, sites, dest)[k], code[k])
  {
  }

  /** Appending instructions that are not jumps. */
  lemma PlainCodeHolds(bc: Bytecode, code: seq<Native>, table: seq<Entry>, more: seq<Native>)
    requires JumpsHold(bc, code, table) && forall i | 0 <= i < |more| :: !more[i].Jump? && !more[i].LeaveIf?
    ensures JumpsHold(bc, code + more, table)
  {
    forall k | 0 <= k < |code + more|
      ensures JumpHolds(bc, code + more, table, k)
    {
      assert k < |code| ==> JumpHolds(bc, code, table, k);
    }
    forall t | 0 <= t < |table| && table[t].Waiting?
      ensures SitesHold(code + more, t, table[t].sites)
    {
      assert SitesHold(code, t, table[t].sites);
    }
  }

  /** Appending a jump: to known code, or listed at its target. */
  lemma JumpAdded(bc: Bytecode, code: seq<Native>, table: seq<Entry>, from: int, always: bool,
                  cond: nat, t: int)
    requires JumpsHold(bc, code, table) && 0 <= t < |table| && IsTarget(bc, t)
    ensures table[t].At? ==> JumpsHold(bc, code + [Jump(from, always, cond, t, Some(table[t].addr))], table)
    ensures !table[t].At? ==>
      JumpsHold(bc, code + [Jump(from, always, cond, t, None)], table[t := Waiting([|code|] + Sites(table[t]))])
  {
    var code' := code + [Jump(from, always, cond, t, if table[t].At? then Some(table[t].addr) else None)];
    var table' := if table[t].At? then table else table[t := Waiting([|code|] + Sites(table[t]))];
    forall k | 0 <= k < |code'|
      ensures JumpHolds(bc, code', table', k)
    {
      assert k < |code| ==> JumpHolds(bc, code, table, k);
    }
    forall u | 0 <= u < |table'| && table'[u].Waiting?
      ensures SitesHold(code', u, table'[u].sites)
    {
      assert table[u].Waiting? ==> SitesHold(code, u, table[u].sites);
    }
  }

  // ---- Reserved stack bytes ----

  ghost predicate AfterPush(bc: Bytecode, p: int) {
    exists q :: q in bc && bc[q].op.Push? && After(bc, q) == p
  }

  /** No branch goes into a run of pushes behind its first operation. */
  ghost predicate RunsUnbroken(bc: Bytecode) {
    forall p | p in bc && bc[p].op.Push? && AfterPush(bc, p) :: !IsTarget(bc, p)
  }

  /** Nothing is reserved, or exactly the pushes still to come in a run. */
  ghost predicate ReserveHolds(bc: Bytecode, length: nat, p: int, r: int)
    requires Sized(bc, length)
  {
    r == 0 || (r == RunBytes(bc, length, p) && AfterPush(bc, p))
  }

  ghost predicate GroupReservesHold(bc: Bytecode, length: nat, groups: map<int, Group>)
    requires Sized(bc, length)
  {
    forall q | q in groups :: ReserveHolds(bc, length, q, groups[q].reserved)
  }

  /** A stub stands in the middle of nothing: no bytes are reserved in front of it. */
  ghost predicate StubsReserveNothing(groups: map<int, Group>) {
    forall q | q in groups && groups[q].kind.Stub? :: groups[q].reserved == 0
  }

  lemma TargetsReserveNothing(bc: Bytecode, length: nat, p: int, r: int)
    requires Sized(bc, length) && RunsUnbroken(bc) && ReserveHolds(bc, length, p, r) && IsTarget(bc, p)
    ensures r == 0
  {
  }

  lemma ReserveStep(bc: Bytecode, length: nat, p: int, kind: Kind, r: int)
    requires Sized(bc, length) && KindFits(bc, p, kind) && ReserveHolds(bc, length, p, r)
    requires kind.Stub? ==> r == 0
    ensures ReserveHolds(bc, length, NextPos(bc, p, kind), ReservedAfter(bc, length, p, kind, r))
  {
  }

  /** As long as no stub is emitted with bytes reserved, one group more keeps the reserves right. */
  lemma ReservesAdvance(bc: Bytecode, length: nat, p: int, groups: map<int, Group>, g: Group)
    requires Sized(bc, length) && KindFits(bc, p, g.kind) && p !in groups && StubsReserveNothing(groups[p := g])
    requires StubsReserveNothing(groups) ==>
      GroupReservesHold(bc, length, groups) && ReserveHolds(bc, length, p, g.reserved)
    ensures GroupReservesHold(bc, length, groups[p := g])
    ensures ReserveHolds(bc, length, NextPos(bc, p, g.kind), ReservedAfter(bc, length, p, g.kind, g.reserved))
  {
    hide ReserveHolds;
    assert groups[p := g][p] == g;
    assert forall q | q in groups :: groups[p := g][q] == groups[q];
    ReserveStep(bc, length, p, g.kind, g.reserved);
  }

  // ---- One position further ----

  /** The operations a group passes over have no entry in the table. */
  ghost predicate PassedAreEmpty(bc: Bytecode, table: seq<Entry>, p: int, kind: Kind) {
    forall q | q in bc && p < q < NextPos(bc, p, kind) :: 0 <= q < |table| && table[q].Empty?
  }

  /** Entries change only by jumps being listed where jumps can wait. */
  ghost predicate OnlySitesAdded(table: seq<Entry>, table': seq<Entry>) {
    && |table'| == |table|
    && forall q | 0 <= q < |table| :: table'[q] == table[q] || (table[q].Waiting? && table'[q].Waiting?)
  }

  lemma TableAdvances(bc: Bytecode, length: nat, p: int, table: seq<Entry>, table': seq<Entry>,
                      groups: map<int, Group>, g: Group)
    requires TableHolds(bc, length, p, table, groups) && 0 <= p < length && p !in groups && p < NextPos(bc, p, g.kind)
    requires OperandsHold(bc)
    requires PassedAreEmpty(bc, table[p := At(g.addr)], p, g.kind) && OnlySitesAdded(table[p := At(g.addr)], table')
    ensures TableHolds(bc, length, NextPos(bc, p, g.kind), table', groups[p := g])
  {
    hide NextPos;
    forall t | IsTarget(bc, t)
      ensures 0 <= t < length
      ensures if t < NextPos(bc, p, g.kind) then t in groups[p := g] else !table'[t].Empty?
    {
      assert t in bc;
    }
  }

  lemma TableStarts(bc: Bytecode, length: nat, table: seq<Entry>)
    requires WellFormed(bc, length) && |table| == length
    requires forall q | 0 <= q < length :: table[q] == if IsTarget(bc, q) then Waiting([]) else Empty
    ensures TableHolds(bc, length, 0, table, map[]) && JumpsHold(bc, [], table)
  {
    hide EndToEnd;
    hide Apart;
  }

  /** Past the last operation no jump is left waiting. */
  lemma AllLinked(bc: Bytecode, length: nat, table: seq<Entry>, out: Output)
    requires TableHolds(bc, length, length, table, out.groups) && JumpsHold(bc, out.code, table)
    ensures Linked(bc, out) && |table| == length && forall q | 0 <= q < length :: !table[q].Waiting?
  {
    forall k | 0 <= k < |out.code|
      ensures !out.code[k].LeaveIf?
      ensures out.code[k].Jump? ==>
        IsTarget(bc, out.code[k].target) && out.code[k].dest == Some(out.groups[out.code[k].target].addr)
    {
      assert JumpHolds(bc, out.code, table, k);
    }
  }
}
