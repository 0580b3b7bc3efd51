/** Renumbering the grown areas: big ones become 1, 2, 3, ..., tiny zones -2, -3, -4, ... */
module AreaNumbering {
  import opened Connectivity
  import opened AreaModel

  predicate Big(t: TempArea, minTiles: int) {
    t.valid && t.size >= minTiles
  }

  predicate Tiny(t: TempArea, minTiles: int) {
    t.valid && t.size < minTiles
  }

  function BigCount(temps: seq<TempArea>, minTiles: int, k: nat): nat
    requires k <= |temps|
  {
    if k == 0 then 0 else BigCount(temps, minTiles, k - 1) + if Big(temps[k - 1], minTiles) then 1 else 0
  }

  function TinyCount(temps: seq<TempArea>, minTiles: int, k: nat): nat
    requires k <= |temps|
  {
    if k == 0 then 0 else TinyCount(temps, minTiles, k - 1) + if Tiny(temps[k - 1], minTiles) then 1 else 0
  }

  /** The id area k ends up with. */
  function FinalId(temps: seq<TempArea>, minTiles: int, k: nat): int
    requires k < |temps|
  {
    if temps[k].size >= minTiles then 1 + BigCount(temps, minTiles, k) else -2 - TinyCount(temps, minTiles, k)
  }

  /** The id of an area once the first k entries of the list have been handled. */
  function IdAfter(temps: seq<TempArea>, minTiles: int, k: nat, a: int): int {
    if 0 < a < k && a < |temps| then FinalId(temps, minTiles, a) else a
  }

  ghost function IdsAfter(ids: Ids, temps: seq<TempArea>, minTiles: int, k: nat): Ids {
    map p | p in ids :: IdAfter(temps, minTiles, k, ids[p])
  }

  lemma {:induction false} CountsGrow(temps: seq<TempArea>, minTiles: int, i: nat, j: nat)
    requires i <= j <= |temps|
    ensures BigCount(temps, minTiles, i) <= BigCount(temps, minTiles, j) <= BigCount(temps, minTiles, i) + j - i
    ensures TinyCount(temps, minTiles, i) <= TinyCount(temps, minTiles, j)
  {
    if i < j {
      CountsGrow(temps, minTiles, i, j - 1);
    }
  }

  /** No valid area below k was given the id that area k is about to get. */
  lemma TargetsDiffer(temps: seq<TempArea>, minTiles: int, j: nat, k: nat)
    requires 0 < j < k < |temps| && !temps[0].valid && temps[j].valid
    ensures FinalId(temps, minTiles, j) != FinalId(temps, minTiles, k)
    ensures 0 < FinalId(temps, minTiles, j) <= j || FinalId(temps, minTiles, j) <= -2
  {
    CountsGrow(temps, minTiles, j + 1, k);
    CountsGrow(temps, minTiles, 1, j);
  }

  /** a is 0 or the id of a valid area. */
  predicate Live(temps: seq<TempArea>, a: int) {
    a == 0 || (0 < a < |temps| && temps[a].valid)
  }

  ghost predicate AllLive(ids: Ids, temps: seq<TempArea>) {
    forall p | p in ids :: Live(temps, ids[p])
  }

  /** Handling area k maps the ids after k areas to the ids after k + 1. */
  lemma IdStep(temps: seq<TempArea>, minTiles: int, k: nat, a: int)
    requires 0 < k < |temps| && !temps[0].valid && Live(temps, a)
    ensures temps[k].valid ==>
      IdAfter(temps, minTiles, k + 1, a) == Rename(IdAfter(temps, minTiles, k, a), k, FinalId(temps, minTiles, k))
    ensures IdAfter(temps, minTiles, k, a) == k <==> a == k
    ensures !temps[k].valid ==> IdAfter(temps, minTiles, k + 1, a) == IdAfter(temps, minTiles, k, a)
    ensures temps[k].valid && FinalId(temps, minTiles, k) != k ==>
      IdAfter(temps, minTiles, k, a) != FinalId(temps, minTiles, k)
  {
    CountsGrow(temps, minTiles, 1, k);
    if 0 < a < k {
      TargetsDiffer(temps, minTiles, a, k);
    }
  }

  /** The new id of area k is on no tile when it is assigned, and renaming area k to it
      is what handling area k has to do. */
  lemma RenumberOne(ids: Ids, temps: seq<TempArea>, minTiles: int, k: nat)
    requires 0 < k < |temps| && !temps[0].valid && AllLive(ids, temps)
    ensures Members(IdsAfter(ids, temps, minTiles, k), k) == Members(ids, k)
    ensures temps[k].valid && FinalId(temps, minTiles, k) != k ==>
      Members(IdsAfter(ids, temps, minTiles, k), FinalId(temps, minTiles, k)) == {}
    ensures temps[k].valid ==>
      IdsAfter(ids, temps, minTiles, k + 1)
      == Recolour(IdsAfter(ids, temps, minTiles, k), Members(ids, k), FinalId(temps, minTiles, k))
    ensures !temps[k].valid ==> IdsAfter(ids, temps, minTiles, k + 1) == IdsAfter(ids, temps, minTiles, k)
  {
    forall p | p in ids {
      IdStep(temps, minTiles, k, ids[p]);
    }
    hide FinalId;
  }

  // ---- The frontier follows ----

  function EntryAfter(f: Frontier, temps: seq<TempArea>, minTiles: int, k: nat): Frontier {
    Frontier(IdAfter(temps, minTiles, k, f.areaId1), IdAfter(temps, minTiles, k, f.areaId2), f.pos)
  }

  predicate BetweenAreas(f: Frontier) {
    f.areaId1 > 0 && f.areaId2 > 0
  }

  function EntriesAfter(fs: seq<Frontier>, temps: seq<TempArea>, minTiles: int, k: nat): seq<Frontier> {
    seq(|fs|, i requires 0 <= i < |fs| => EntryAfter(fs[i], temps, minTiles, k))
  }

  /** Entries renumbered; those that name a zone found tiny are gone. */
  function FrontierAfter(fs: seq<Frontier>, temps: seq<TempArea>, minTiles: int, k: nat): seq<Frontier> {
    Kept(EntriesAfter(fs, temps, minTiles, k), BetweenAreas)
  }

  predicate EntryLive(f: Frontier, temps: seq<TempArea>) {
    BetweenAreas(f) && Live(temps, f.areaId1) && Live(temps, f.areaId2)
  }

  lemma EntriesStep(fs: seq<Frontier>, temps: seq<TempArea>, minTiles: int, k: nat)
    requires 0 < k < |temps| && !temps[0].valid && forall i | 0 <= i < |fs| :: EntryLive(fs[i], temps)
    ensures EntriesAfter(fs, temps, minTiles, k + 1) ==
      if temps[k].valid then Renamed(EntriesAfter(fs, temps, minTiles, k), k, FinalId(temps, minTiles, k))
      else EntriesAfter(fs, temps, minTiles, k)
  {
    forall i | 0 <= i < |fs|
      ensures EntryAfter(fs[i], temps, minTiles, k + 1) ==
        var e := EntryAfter(fs[i], temps, minTiles, k);
        if temps[k].valid then RenameEntry(e, k, FinalId(temps, minTiles, k)) else e
    {
      IdStep(temps, minTiles, k, fs[i].areaId1);
      IdStep(temps, minTiles, k, fs[i].areaId2);
    }
  }

  lemma RenamedCons(f: Frontier, rest: seq<Frontier>, a: int, b: int)
    ensures Renamed([f] + rest, a, b) == [RenameEntry(f, a, b)] + Renamed(rest, a, b)
  {
  }

  lemma KeptCons(f: Frontier, rest: seq<Frontier>, keep: Frontier -> bool)
    ensures Kept([f] + rest, keep) == (if keep(f) then [f] else []) + Kept(rest, keep)
  {
    assert ([f] + rest)[1..] == rest;
  }

  lemma WithoutCons(f: Frontier, rest: seq<Frontier>, a: int)
    ensures Without([f] + rest, a) == (if Mentions(f, a) then [] else [f]) + Without(rest, a)
  {
    assert ([f] + rest)[1..] == rest;
  }

  /** Renaming k to another area commutes with dropping; renaming it to a tiny id drops it. */
  lemma {:induction false} KeptRenamed(fs: seq<Frontier>, k: int, target: int)
    requires k > 0
    ensures target > 0 ==> Kept(Renamed(fs, k, target), BetweenAreas) == Renamed(Kept(fs, BetweenAreas), k, target)
    ensures target < 0 ==> Kept(Renamed(fs, k, target), BetweenAreas) == Without(Kept(fs, BetweenAreas), k)
  {
    if fs != [] {
      var f, rest := fs[0], Kept(fs[1..], BetweenAreas);
      KeptRenamed(fs[1..], k, target);
      assert fs == [f] + fs[1..];
      RenamedCons(f, fs[1..], k, target);
      RenamedCons(f, rest, k, target);
      KeptCons(f, fs[1..], BetweenAreas);
      KeptCons(RenameEntry(f, k, target), Renamed(fs[1..], k, target), BetweenAreas);
      WithoutCons(f, rest, k);
      assert [] + rest == rest;
      hide Renamed;
      hide Kept;
      hide Without;
    }
  }

  /** No entry names the id area k is about to get. */
  lemma TargetIsNotNamed(fs: seq<Frontier>, temps: seq<TempArea>, minTiles: int, k: nat, i: nat)
    requires 0 < k < |temps| && !temps[0].valid && forall i | 0 <= i < |fs| :: EntryLive(fs[i], temps)
    requires temps[k].valid && FinalId(temps, minTiles, k) != k && i < |FrontierAfter(fs, temps, minTiles, k)|
    ensures !Mentions(FrontierAfter(fs, temps, minTiles, k)[i], FinalId(temps, minTiles, k))
  {
    var es := EntriesAfter(fs, temps, minTiles, k);
    var e := FrontierAfter(fs, temps, minTiles, k)[i];
    KeptMembers(es, BetweenAreas, e);
    var j :| 0 <= j < |es| && es[j] == e;
    assert EntryLive(fs[j], temps);
    IdStep(temps, minTiles, k, fs[j].areaId1);
    IdStep(temps, minTiles, k, fs[j].areaId2);
  }

  /** Handling area k does to the frontier what renaming or removing area k does, and the new id is in no entry
      when it is assigned. */
  lemma RenumberFrontier(fs: seq<Frontier>, temps: seq<TempArea>, minTiles: int, k: nat)
    requires 0 < k < |temps| && !temps[0].valid && forall i | 0 <= i < |fs| :: EntryLive(fs[i], temps)
    ensures temps[k].valid && FinalId(temps, minTiles, k) != k ==>
      var before := FrontierAfter(fs, temps, minTiles, k);
      forall i | 0 <= i < |before| :: !Mentions(before[i], FinalId(temps, minTiles, k))
    ensures FrontierAfter(fs, temps, minTiles, k + 1) ==
      var before := FrontierAfter(fs, temps, minTiles, k);
      if !temps[k].valid then before
      else if temps[k].size >= minTiles then Renamed(before, k, FinalId(temps, minTiles, k))
      else Without(before, k)
  {
    EntriesStep(fs, temps, minTiles, k);
    KeptRenamed(EntriesAfter(fs, temps, minTiles, k), k, FinalId(temps, minTiles, k));
    hide FrontierAfter;
    hide FinalId;
    if temps[k].valid && FinalId(temps, minTiles, k) != k {
      forall i | 0 <= i < |FrontierAfter(fs, temps, minTiles, k)|
        ensures !Mentions(FrontierAfter(fs, temps, minTiles, k)[i], FinalId(temps, minTiles, k))
      {
        TargetIsNotNamed(fs, temps, minTiles, k, i);
      }
    }
  }

  // ---- The result ----

  /** Top and size of the big areas among the first k, in order. */
  function AreasList(temps: seq<TempArea>, minTiles: int, k: nat): seq<(Pos, int)>
    requires k <= |temps|
  {
    if k == 0 then []
    else
      var t := temps[k - 1];
      AreasList(temps, minTiles, k - 1) + if Big(t, minTiles) then [(t.top, t.size)] else []
  }

  lemma {:induction false} ListedAt(temps: seq<TempArea>, minTiles: int, k: nat, j: nat)
    requires j < k <= |temps|
    ensures |AreasList(temps, minTiles, k)| == BigCount(temps, minTiles, k)
    ensures Big(temps[j], minTiles) ==>
      && BigCount(temps, minTiles, j) < BigCount(temps, minTiles, k)
      && AreasList(temps, minTiles, k)[BigCount(temps, minTiles, j)] == (temps[j].top, temps[j].size)
  {
    if k > 1 {
      ListedAt(temps, minTiles, k - 1, if j < k - 1 then j else 0);
    }
  }

  lemma {:induction false} AreaWithId(temps: seq<TempArea>, minTiles: int, k: nat, a: int) returns (j: nat)
    requires k <= |temps| && 0 < a <= BigCount(temps, minTiles, k)
    ensures j < k && Big(temps[j], minTiles) && FinalId(temps, minTiles, j) == a
  {
    if a == 1 + BigCount(temps, minTiles, k - 1) {
      j := k - 1;
    } else {
      j := AreaWithId(temps, minTiles, k - 1, a);
    }
  }

  /** Positive ids are exactly 1..|list| and each names one connected area of the listed size;
      every other walkable tile is in a connected zone of its own id <= -2, too small to be listed. */
  ghost predicate Numbered(ids: Ids, list: seq<(Pos, int)>, minTiles: int) {
    && (forall p | p in ids :: ids[p] <= -2 || 0 <= ids[p] <= |list|)
    && (forall i | 0 <= i < |list| :: ListedAreaHolds(ids, list[i], i + 1, minTiles))
    && (forall p | p in ids && ids[p] <= -2 ::
          Connected(Members(ids, ids[p])) && |Members(ids, ids[p])| < minTiles)
  }

  ghost predicate ListedAreaHolds(ids: Ids, entry: (Pos, int), a: int, minTiles: int) {
    && entry.0 in Members(ids, a)
    && Connected(Members(ids, a))
    && |Members(ids, a)| == entry.1 >= minTiles
  }

  /** Renumbering fuses no two areas: tiles share an id after it exactly when they did before. */
  lemma RenumberingIsInjective(temps: seq<TempArea>, minTiles: int, i: nat, j: nat)
    requires 0 < i < |temps| && 0 < j < |temps| && !temps[0].valid && temps[i].valid && temps[j].valid
    ensures FinalId(temps, minTiles, i) == FinalId(temps, minTiles, j) <==> i == j
    ensures 0 < FinalId(temps, minTiles, i) <= BigCount(temps, minTiles, |temps|) || FinalId(temps, minTiles, i) <= -2
  {
    CountsGrow(temps, minTiles, i + 1, |temps|);
    if i < j {
      TargetsDiffer(temps, minTiles, i, j);
    } else if j < i {
      TargetsDiffer(temps, minTiles, j, i);
    }
  }

  lemma MembersAfter(ids: Ids, temps: seq<TempArea>, minTiles: int, j: nat)
    requires |temps| > 0 && !temps[0].valid && AllLive(ids, temps) && 0 < j < |temps| && temps[j].valid
    ensures Members(IdsAfter(ids, temps, minTiles, |temps|), FinalId(temps, minTiles, j)) == Members(ids, j)
  {
    forall p | p in ids
      ensures IdAfter(temps, minTiles, |temps|, ids[p]) == FinalId(temps, minTiles, j) <==> ids[p] == j
    {
      if ids[p] != 0 {
        RenumberingIsInjective(temps, minTiles, ids[p], j);
      } else {
        RenumberingIsInjective(temps, minTiles, j, j);
      }
    }
  }

  /** Two tiles share an id in both grids or in neither. */
  ghost predicate SameAreas(ids: Ids, ids': Ids) {
    ids'.Keys == ids.Keys && forall p, q | p in ids && q in ids :: ids'[p] == ids'[q] <==> ids[p] == ids[q]
  }

  lemma RenumberingKeepsAreas(ids: Ids, temps: seq<TempArea>, minTiles: int)
    requires |temps| > 0 && !temps[0].valid && AllLive(ids, temps)
    ensures SameAreas(ids, IdsAfter(ids, temps, minTiles, |temps|))
  {
    var ids' := IdsAfter(ids, temps, minTiles, |temps|);
    forall p, q | p in ids && q in ids
      ensures ids'[p] == ids'[q] <==> ids[p] == ids[q]
    {
      var i, j := if ids[p] != 0 then ids[p] else ids[q], if ids[q] != 0 then ids[q] else ids[p];
      if i != 0 {
        RenumberingIsInjective(temps, minTiles, i, j);
      }
    }
  }

  lemma RenumberedIsNumbered(ids: Ids, temps: seq<TempArea>, minTiles: int)
    requires AreasHold(ids, temps) && AllLive(ids, temps)
    ensures Numbered(IdsAfter(ids, temps, minTiles, |temps|), AreasList(temps, minTiles, |temps|), minTiles)
  {
    var n := |temps|;
    var ids', list := IdsAfter(ids, temps, minTiles, n), AreasList(temps, minTiles, n);
    ListedAt(temps, minTiles, n, 0);
    forall i | 0 <= i < |list|
      ensures ListedAreaHolds(ids', list[i], i + 1, minTiles)
    {
      var j := AreaWithId(temps, minTiles, n, i + 1);
      MembersAfter(ids, temps, minTiles, j);
      ListedAt(temps, minTiles, n, j);
      assert AreaHolds(ids, temps[j]);
    }
    forall p | p in ids
      ensures ids'[p] <= -2 || 0 <= ids'[p] <= |list|
      ensures ids'[p] <= -2 ==> Connected(Members(ids', ids'[p])) && |Members(ids', ids'[p])| < minTiles
    {
      if ids[p] != 0 {
        RenumberingIsInjective(temps, minTiles, ids[p], ids[p]);
        MembersAfter(ids, temps, minTiles, ids[p]);
        assert AreaHolds(ids, temps[ids[p]]);
      }
    }
  }

  /** Every entry names two different areas, lies in one of them and touches both. */
  ghost predicate FrontierNumbered(ids: Ids, altitude: Ids, fs: seq<Frontier>) {
    && EntriesHold(ids, fs)
    && Ordered(altitude, fs)
    && forall i | 0 <= i < |fs| :: fs[i].areaId1 != fs[i].areaId2
  }

  lemma EntryStaysGood(ids: Ids, temps: seq<TempArea>, minTiles: int, f: Frontier)
    requires |temps| > 0 && !temps[0].valid && AllLive(ids, temps)
    requires EntryHolds(ids, f) && f.areaId1 != f.areaId2 && BetweenAreas(EntryAfter(f, temps, minTiles, |temps|))
    ensures EntryHolds(IdsAfter(ids, temps, minTiles, |temps|), EntryAfter(f, temps, minTiles, |temps|))
    ensures EntryAfter(f, temps, minTiles, |temps|).areaId1 != EntryAfter(f, temps, minTiles, |temps|).areaId2
  {
    var n := |temps|;
    var ids' := IdsAfter(ids, temps, minTiles, n);
    TouchSurvives(ids, ids', f.pos, f.areaId1, IdAfter(temps, minTiles, n, f.areaId1));
    TouchSurvives(ids, ids', f.pos, f.areaId2, IdAfter(temps, minTiles, n, f.areaId2));
    RenumberingIsInjective(temps, minTiles, f.areaId1, f.areaId2);
  }

  lemma RenumberedFrontierIsNumbered(ids: Ids, altitude: Ids, temps: seq<TempArea>, minTiles: int, fs: seq<Frontier>)
    requires |temps| > 0 && !temps[0].valid && AllLive(ids, temps) && FrontierNumbered(ids, altitude, fs)
    ensures var n := |temps|;
      FrontierNumbered(IdsAfter(ids, temps, minTiles, n), altitude, FrontierAfter(fs, temps, minTiles, n))
  {
    var es := EntriesAfter(fs, temps, minTiles, |temps|);
    var fs' := Kept(es, BetweenAreas);
    KeptIsOrdered(altitude, es, BetweenAreas);
    forall i | 0 <= i < |fs'|
      ensures EntryHolds(IdsAfter(ids, temps, minTiles, |temps|), fs'[i]) && fs'[i].areaId1 != fs'[i].areaId2
    {
      KeptMembers(es, BetweenAreas, fs'[i]);
      var j :| 0 <= j < |es| && es[j] == fs'[i];
      EntryStaysGood(ids, temps, minTiles, fs[j]);
    }
  }

  lemma ObsoleteDropped(ids: Ids, altitude: Ids, fs: seq<Frontier>)
    requires EntriesHold(ids, fs) && Ordered(altitude, fs)
    ensures FrontierNumbered(ids, altitude, WithoutObsolete(fs))
  {
    var keep := (f: Frontier) => f.areaId1 != f.areaId2;
    KeptIsOrdered(altitude, fs, keep);
    forall i | 0 <= i < |Kept(fs, keep)|
      ensures EntryHolds(ids, Kept(fs, keep)[i]) && keep(Kept(fs, keep)[i])
    {
      KeptMembers(fs, keep, Kept(fs, keep)[i]);
    }
  }

  lemma NothingHandled(ids: Ids, fs: seq<Frontier>, temps: seq<TempArea>, minTiles: int)
    requires |temps| > 0 && !temps[0].valid && EntriesHold(ids, fs)
    ensures IdsAfter(ids, temps, minTiles, 1) == ids && FrontierAfter(fs, temps, minTiles, 1) == fs
    ensures AreasList(temps, minTiles, 1) == [] && BigCount(temps, minTiles, 1) == TinyCount(temps, minTiles, 1) == 0
  {
    assert EntriesAfter(fs, temps, minTiles, 1) == fs;
    AllKept(fs);
  }

  lemma {:induction false} AllKept(fs: seq<Frontier>)
    requires forall i | 0 <= i < |fs| :: BetweenAreas(fs[i])
    ensures Kept(fs, BetweenAreas) == fs
  {
    if fs != [] {
      AllKept(fs[1..]);
    }
  }

  lemma EntriesAreLive(ids: Ids, temps: seq<TempArea>, fs: seq<Frontier>)
    requires AllLive(ids, temps) && EntriesHold(ids, fs)
    ensures forall i | 0 <= i < |fs| :: EntryLive(fs[i], temps)
  {
  }

  lemma ZeroStaysZero(temps: seq<TempArea>, minTiles: int)
    requires |temps| > 0 && !temps[0].valid
    ensures forall a | Live(temps, a) :: IdAfter(temps, minTiles, |temps|, a) == 0 <==> a == 0
  {
  }

  /** The frontier of numbered areas names ids in 1..|list| only. */
  lemma FrontierIsListed(ids: Ids, list: seq<(Pos, int)>, minTiles: int, fs: seq<Frontier>)
    requires Numbered(ids, list, minTiles) && EntriesHold(ids, fs)
    ensures forall i | 0 <= i < |fs| :: 1 <= fs[i].areaId1 <= |list| && 1 <= fs[i].areaId2 <= |list|
  {
  }
}
