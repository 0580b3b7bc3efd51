/** Values the area analysis works on: the id of every tile and the raw frontier. */
module AreaModel {
  import opened Connectivity

  /** 0: unwalkable; -1: not assigned yet; > 0: an area; <= -2: a zone too small to be one. */
  type Ids = map<Pos, int>

  datatype Config = Config(
    lakeMaxTiles: int,
    lakeMaxWidthInTiles: int,
    areaMinTiles: int,
    areasMergeSize: int,
    areasMergeAltitude: int,
    width: nat,
    height: nat
  )

  datatype Frontier = Frontier(areaId1: int, areaId2: int, pos: Pos)

  ghost function Members(ids: Ids, a: int): set<Pos> {
    set p | p in ids && ids[p] == a
  }

  ghost function Recolour(ids: Ids, S: set<Pos>, a: int): Ids {
    map p | p in ids :: if p in S then a else ids[p]
  }

  function Rename(a: int, oldId: int, newId: int): int {
    if a == oldId then newId else a
  }

  function RenameEntry(f: Frontier, oldId: int, newId: int): Frontier {
    Frontier(Rename(f.areaId1, oldId, newId), Rename(f.areaId2, oldId, newId), f.pos)
  }

  function Renamed(fs: seq<Frontier>, oldId: int, newId: int): seq<Frontier> {
    seq(|fs|, i requires 0 <= i < |fs| => RenameEntry(fs[i], oldId, newId))
  }

  predicate Mentions(f: Frontier, a: int) {
    f.areaId1 == a || f.areaId2 == a
  }

  /** The entries keep holds of, in order. */
  function Kept(fs: seq<Frontier>, keep: Frontier -> bool): seq<Frontier> {
    if fs == [] then []
    else (if keep(fs[0]) then [fs[0]] else []) + Kept(fs[1..], keep)
  }

  function Without(fs: seq<Frontier>, a: int): seq<Frontier> {
    Kept(fs, (f: Frontier) => !Mentions(f, a))
  }

  /** Entries whose two areas were merged are obsolete. */
  function WithoutObsolete(fs: seq<Frontier>): seq<Frontier> {
    Kept(fs, (f: Frontier) => f.areaId1 != f.areaId2)
  }

  lemma {:induction false} KeptMembers(fs: seq<Frontier>, keep: Frontier -> bool, f: Frontier)
    ensures f in Kept(fs, keep) <==> f in fs && keep(f)
  {
    if fs != [] {
      assert fs == [fs[0]] + fs[1..];
      KeptMembers(fs[1..], keep, f);
    }
  }

  /** An area while it is being grown; absorbed areas stay in the list, invalid. */
  datatype TempArea = TempArea(valid: bool, id: int, top: Pos, highest: int, size: int)

  // ---- What every step of the growth keeps ----

  /** The tiles that carry t's id: connected, counted exactly, and holding t's top. */
  ghost predicate AreaHolds(ids: Ids, t: TempArea) {
    && t.top in Members(ids, t.id)
    && Connected(Members(ids, t.id))
    && |Members(ids, t.id)| == t.size
  }

  function Weight(t: TempArea): int {
    if t.valid then t.size else 0
  }

  function SumSizes(temps: seq<TempArea>): int {
    if temps == [] then 0 else SumSizes(temps[..|temps| - 1]) + Weight(temps[|temps| - 1])
  }

  /** Every processed tile carries the id of a valid area, every other tile what it had. */
  ghost predicate Assigned(ids0: Ids, done: set<Pos>, ids: Ids, temps: seq<TempArea>) {
    && ids.Keys == ids0.Keys
    && done <= Members(ids0, -1)
    && (forall p | p in ids ::
          if p in done then 0 < ids[p] < |temps| && temps[ids[p]].valid else ids[p] == ids0[p] <= 0)
  }

  ghost predicate AreasHold(ids: Ids, temps: seq<TempArea>) {
    && |temps| > 0 && !temps[0].valid
    && (forall k | 0 <= k < |temps| && temps[k].valid :: temps[k].id == k && AreaHolds(ids, temps[k]))
  }

  /** The growth invariant: ids0 is the grid before, done the tiles processed so far. */
  ghost predicate Grown(ids0: Ids, done: set<Pos>, ids: Ids, temps: seq<TempArea>) {
    && Assigned(ids0, done, ids, temps)
    && AreasHold(ids, temps)
    && SumSizes(temps) == |done|
  }

  lemma {:induction false} SumAfterUpdate(temps: seq<TempArea>, k: nat, t: TempArea)
    requires k < |temps|
    ensures SumSizes(temps[k := t]) == SumSizes(temps) - Weight(temps[k]) + Weight(t)
  {
    var n := |temps| - 1;
    if k == n {
      assert temps[k := t][..n] == temps[..n];
    } else {
      SumAfterUpdate(temps[..n], k, t);
      assert temps[k := t][..n] == temps[..n][k := t];
    }
  }

  /** Areas other than k keep their tiles when p, assigned to none, is given to k. */
  lemma OtherAreasHold(ids: Ids, temps: seq<TempArea>, p: Pos, k: int)
    requires AreasHold(ids, temps) && p in ids && ids[p] <= 0
    ensures forall j | 0 <= j < |temps| && temps[j].valid && j != k :: AreaHolds(ids[p := k], temps[j])
  {
    forall j | 0 <= j < |temps| && temps[j].valid && j != k
      ensures AreaHolds(ids[p := k], temps[j])
    {
      assert Members(ids[p := k], j) == Members(ids, j);
      SameMembersHold(ids, ids[p := k], temps[j]);
    }
  }

  /** A tile with no neighbouring area starts one. */
  lemma NewAreaGrows(ids0: Ids, done: set<Pos>, ids: Ids, temps: seq<TempArea>, p: Pos, highest: int)
    requires Grown(ids0, done, ids, temps) && p in Members(ids0, -1) - done
    ensures Grown(ids0, done + {p}, ids[p := |temps|], temps + [TempArea(true, |temps|, p, highest, 1)])
  {
    var n := |temps|;
    var t := TempArea(true, n, p, highest, 1);
    assert AreaHolds(ids[p := n], t) by {
      assert Members(ids[p := n], n) == {p};
      SingletonConnected(p);
    }
    assert (temps + [t])[..n] == temps;
    OtherAreasHold(ids, temps, p, n);
  }

  lemma SameMembersHold(ids: Ids, ids': Ids, t: TempArea)
    requires AreaHolds(ids, t) && Members(ids', t.id) == Members(ids, t.id)
    ensures AreaHolds(ids', t)
  {
  }

  lemma JoinedAreaHolds(ids: Ids, t: TempArea, p: Pos)
    requires AreaHolds(ids, t) && Touches(ids, p, t.id) && p in ids && ids[p] != t.id
    ensures AreaHolds(ids[p := t.id], t.(size := t.size + 1))
  {
    var M := Members(ids, t.id);
    var q :| q in ids && Adjacent(p, q) && ids[q] == t.id;
    SingletonConnected(p);
    BridgeConnects(M, {p}, q, p);
    assert Members(ids[p := t.id], t.id) == M + {p};
  }

  /** A tile beside area k joins it. */
  lemma JoinedAreaGrows(ids0: Ids, done: set<Pos>, ids: Ids, temps: seq<TempArea>, p: Pos, k: nat)
    requires Grown(ids0, done, ids, temps) && p in Members(ids0, -1) - done
    requires k < |temps| && temps[k].valid && Touches(ids, p, k)
    ensures Grown(ids0, done + {p}, ids[p := k], temps[k := temps[k].(size := temps[k].size + 1)])
  {
    hide AreaHolds;
    JoinedAreaHolds(ids, temps[k], p);
    SumAfterUpdate(temps, k, temps[k].(size := temps[k].size + 1));
    OtherAreasHold(ids, temps, p, k);
  }

  lemma MergedAreaHolds(ids: Ids, s: TempArea, b: TempArea, u: Pos, v: Pos)
    requires AreaHolds(ids, s) && AreaHolds(ids, b) && s.id != b.id
    requires u in Members(ids, s.id) && v in Members(ids, b.id) && Adjacent(u, v)
    ensures AreaHolds(Recolour(ids, Members(ids, s.id), b.id), b.(size := b.size + s.size))
  {
    var S, B := Members(ids, s.id), Members(ids, b.id);
    BridgeConnects(S, B, u, v);
    assert Members(Recolour(ids, S, b.id), b.id) == S + B && S !! B;
  }

  /** The list after area s was absorbed by area b. */
  function Absorbed(temps: seq<TempArea>, s: nat, b: nat): seq<TempArea>
    requires s < |temps| && b < |temps|
  {
    temps[b := temps[b].(size := temps[b].size + temps[s].size)][s := temps[s].(valid := false)]
  }

  /** Area s is absorbed by the adjacent area b. */
  lemma MergedAreasGrow(ids0: Ids, done: set<Pos>, ids: Ids, temps: seq<TempArea>, s: nat, b: nat, u: Pos, v: Pos)
    requires Grown(ids0, done, ids, temps)
    requires s < |temps| && b < |temps| && s != b && temps[s].valid && temps[b].valid
    requires u in Members(ids, s) && v in Members(ids, b) && Adjacent(u, v)
    ensures Grown(ids0, done, Recolour(ids, Members(ids, s), b), Absorbed(temps, s, b))
  {
    hide AreaHolds;
    var ids' := Recolour(ids, Members(ids, s), b);
    var t := temps[b].(size := temps[b].size + temps[s].size);
    MergedAreaHolds(ids, temps[s], temps[b], u, v);
    SumAfterUpdate(temps, b, t);
    SumAfterUpdate(temps[b := t], s, temps[s].(valid := false));
    forall j | 0 <= j < |temps| && temps[j].valid && j != s && j != b
      ensures AreaHolds(ids', temps[j])
    {
      assert Members(ids', j) == Members(ids, j);
      SameMembersHold(ids, ids', temps[j]);
    }
  }

  // ---- What every step keeps about the frontier ----

  ghost predicate Touches(ids: Ids, p: Pos, a: int) {
    exists q :: q in ids && Adjacent(p, q) && ids[q] == a
  }

  /** The id of the k-th neighbour of p, 0 outside the grid. */
  function Near(ids: Ids, p: Pos, k: nat): int
    requires k < 4
  {
    if Step(p, k) in ids then ids[Step(p, k)] else 0
  }

  /** None of the first k neighbours is in an area. */
  predicate NonePositive(ids: Ids, p: Pos, k: nat)
    requires k <= 4
  {
    forall j | 0 <= j < k :: Near(ids, p, j) <= 0
  }

  /** An area beside p is live. */
  lemma NearIsLive(ids0: Ids, done: set<Pos>, ids: Ids, temps: seq<TempArea>, p: Pos, k: nat)
    requires Grown(ids0, done, ids, temps) && k < 4 && Near(ids, p, k) > 0
    ensures Near(ids, p, k) < |temps| && temps[Near(ids, p, k)].valid && Touches(ids, p, Near(ids, p, k))
  {
    assert Adjacent(p, Step(p, k));
  }

  /** The tile lies in one of the two areas it names and has a neighbour in each. */
  ghost predicate EntryHolds(ids: Ids, f: Frontier) {
    && f.areaId1 > 0 && f.areaId2 > 0
    && f.pos in ids && (ids[f.pos] == f.areaId1 || ids[f.pos] == f.areaId2)
    && Touches(ids, f.pos, f.areaId1) && Touches(ids, f.pos, f.areaId2)
  }

  ghost predicate EntriesHold(ids: Ids, fs: seq<Frontier>) {
    forall i | 0 <= i < |fs| :: EntryHolds(ids, fs[i])
  }

  lemma AssignmentKeepsEntries(ids: Ids, fs: seq<Frontier>, p: Pos, a: int)
    requires EntriesHold(ids, fs) && p in ids && ids[p] <= 0
    ensures EntriesHold(ids[p := a], fs)
  {
    forall i | 0 <= i < |fs|
      ensures EntryHolds(ids[p := a], fs[i])
    {
      var f := fs[i];
      assert EntryHolds(ids, f);
      TouchSurvives(ids, ids[p := a], f.pos, f.areaId1, f.areaId1);
      TouchSurvives(ids, ids[p := a], f.pos, f.areaId2, f.areaId2);
    }
  }

  lemma TouchSurvives(ids: Ids, ids': Ids, p: Pos, a: int, a': int)
    requires Touches(ids, p, a) && ids.Keys <= ids'.Keys
    requires forall q | q in ids && ids[q] == a :: ids'[q] == a'
    ensures Touches(ids', p, a')
  {
    var q :| q in ids && Adjacent(p, q) && ids[q] == a;
    assert q in ids' && Adjacent(p, q) && ids'[q] == a';
  }

  lemma RenamingKeepsEntries(ids: Ids, fs: seq<Frontier>, a: int, a': int)
    requires EntriesHold(ids, fs) && a' > 0
    ensures EntriesHold(Recolour(ids, Members(ids, a), a'), Renamed(fs, a, a'))
  {
    var ids' := Recolour(ids, Members(ids, a), a');
    forall i | 0 <= i < |fs|
      ensures EntryHolds(ids', Renamed(fs, a, a')[i])
    {
      var f := fs[i];
      assert EntryHolds(ids, f);
      TouchSurvives(ids, ids', f.pos, f.areaId1, Rename(f.areaId1, a, a'));
      TouchSurvives(ids, ids', f.pos, f.areaId2, Rename(f.areaId2, a, a'));
    }
  }

  /** Tiles of the frontier are distinct and come in nonincreasing altitude. */
  ghost predicate Ordered(altitude: Ids, fs: seq<Frontier>) {
    && (forall i | 0 <= i < |fs| :: fs[i].pos in altitude)
    && (forall i, j | 0 <= i < j < |fs| ::
          fs[i].pos != fs[j].pos && altitude[fs[i].pos] >= altitude[fs[j].pos])
  }

  lemma {:induction false} KeptIsOrdered(altitude: Ids, fs: seq<Frontier>, keep: Frontier -> bool)
    requires Ordered(altitude, fs)
    ensures Ordered(altitude, Kept(fs, keep))
  {
    if fs != [] {
      var rest := Kept(fs[1..], keep);
      KeptIsOrdered(altitude, fs[1..], keep);
      forall i | 0 <= i < |rest|
        ensures rest[i] in fs[1..]
      {
        KeptMembers(fs[1..], keep, rest[i]);
      }
    }
  }

  /** The frontier so far, on tiles processed so far. */
  ghost predicate FrontierGrown(altitude: Ids, done: set<Pos>, fs: seq<Frontier>) {
    && Ordered(altitude, fs)
    && (forall i | 0 <= i < |fs| :: fs[i].pos in done)
  }

  lemma FrontierExtends(altitude: Ids, done: set<Pos>, ids: Ids, fs: seq<Frontier>, p: Pos, a: int, b: int)
    requires EntriesHold(ids, fs) && FrontierGrown(altitude, done, fs)
    requires p !in done && p in altitude && forall q | q in done :: q in altitude && altitude[q] >= altitude[p]
    requires EntryHolds(ids, Frontier(a, b, p))
    ensures EntriesHold(ids, fs + [Frontier(a, b, p)])
    ensures FrontierGrown(altitude, done + {p}, fs + [Frontier(a, b, p)])
  {
  }

  // ---- One step of the growth ----

  /** Everything the growth changes. turns counts how often each pair of ids took a tile. */
  datatype Growth = Growth(ids: Ids, temps: seq<TempArea>, frontier: seq<Frontier>, turns: map<(int, int), int>)

  ghost predicate GrowthHolds(ids0: Ids, altitude: Ids, done: set<Pos>, g: Growth) {
    && Grown(ids0, done, g.ids, g.temps)
    && EntriesHold(g.ids, g.frontier)
    && FrontierGrown(altitude, done, g.frontier)
  }

  lemma GrowthStarts(ids0: Ids, altitude: Ids, turns: map<(int, int), int>)
    requires forall p | p in ids0 :: ids0[p] <= 0
    ensures GrowthHolds(ids0, altitude, {}, Growth(ids0, [TempArea(false, 0, Pos(0, 0), 0, 0)], [], turns))
  {
  }

  /** first is the first positive id in the order of the neighbours, second the least other one. */
  ghost predicate NeighbourPair(ids: Ids, p: Pos, first: int, second: int) {
    && first >= 0 && second >= 0
    && (first == 0 <==> NonePositive(ids, p, 4))
    && (first != 0 ==> exists k | 0 <= k < 4 :: Near(ids, p, k) == first && NonePositive(ids, p, k))
    && (second == 0 <==> forall k | 0 <= k < 4 :: Near(ids, p, k) <= 0 || Near(ids, p, k) == first)
    && (second != 0 ==> second != first && exists k | 0 <= k < 4 :: Near(ids, p, k) == second)
    && (second != 0 ==>
          forall k | 0 <= k < 4 && Near(ids, p, k) > 0 && Near(ids, p, k) != first :: second <= Near(ids, p, k))
  }

  /** Whether the smaller of two areas is absorbed at a tile of altitude a. nearPeak(a, h) stands
      for the single-precision test a / h >= 0.90. */
  predicate MergeTest(config: Config, nearPeak: (int, int) -> bool, smaller: TempArea, bigger: TempArea, a: int) {
    || smaller.size < config.areasMergeSize
    || smaller.highest < config.areasMergeAltitude
    || nearPeak(a, bigger.highest)
    || nearPeak(a, smaller.highest)
  }

  function PairKey(a: int, b: int): (int, int) {
    if a > b then (b, a) else (a, b)
  }

  function Turn(turns: map<(int, int), int>, key: (int, int)): int {
    if key in turns then turns[key] else 0
  }

  ghost function StartArea(g: Growth, p: Pos, a: int): Growth {
    g.(ids := g.ids[p := |g.temps|], temps := g.temps + [TempArea(true, |g.temps|, p, a, 1)])
  }

  ghost function JoinArea(g: Growth, p: Pos, k: int): Growth
    requires 0 <= k < |g.temps|
  {
    g.(ids := g.ids[p := k], temps := g.temps[k := g.temps[k].(size := g.temps[k].size + 1)])
  }

  ghost function AbsorbArea(g: Growth, s: int, b: int): Growth
    requires 0 <= s < |g.temps| && 0 <= b < |g.temps|
  {
    g.(ids := Recolour(g.ids, Members(g.ids, s), b),
       temps := Absorbed(g.temps, s, b),
       frontier := Renamed(g.frontier, s, b))
  }

  /** What processing tile p does, in terms of whole areas. */
  ghost function GrowStep(config: Config, nearPeak: (int, int) -> bool, g: Growth, p: Pos, a: int, first: int,
                          second: int): Growth
    requires 0 <= first < |g.temps| && 0 <= second < |g.temps|
  {
    if first == 0 then StartArea(g, p, a)
    else if second == 0 then JoinArea(g, p, first)
    else
      var (s, b) := if g.temps[first].size > g.temps[second].size then (second, first) else (first, second);
      if MergeTest(config, nearPeak, g.temps[s], g.temps[b], a) then AbsorbArea(JoinArea(g, p, b), s, b)
      else
        var key := PairKey(first, second);
        var n := Turn(g.turns, key);
        JoinArea(g, p, if n % 2 == 0 then key.0 else key.1)
          .(frontier := g.frontier + [Frontier(first, second, p)], turns := g.turns[key := n + 1])
  }

  lemma PairIsLive(ids0: Ids, done: set<Pos>, ids: Ids, temps: seq<TempArea>, p: Pos, first: int, second: int)
    requires Grown(ids0, done, ids, temps) && NeighbourPair(ids, p, first, second)
    ensures first != 0 ==> 0 < first < |temps| && temps[first].valid && Touches(ids, p, first)
    ensures second != 0 ==>
      0 < second < |temps| && temps[second].valid && Touches(ids, p, second) && first != second && first != 0
  {
    if first != 0 {
      var k :| 0 <= k < 4 && Near(ids, p, k) == first;
      NearIsLive(ids0, done, ids, temps, p, k);
    }
    if second != 0 {
      var k :| 0 <= k < 4 && Near(ids, p, k) == second;
      NearIsLive(ids0, done, ids, temps, p, k);
    }
  }

  lemma JoinKeepsGrowth(ids0: Ids, altitude: Ids, done: set<Pos>, g: Growth, p: Pos, k: int)
    requires GrowthHolds(ids0, altitude, done, g) && p in Members(ids0, -1) - done
    requires 0 < k < |g.temps| && g.temps[k].valid && Touches(g.ids, p, k)
    ensures GrowthHolds(ids0, altitude, done + {p}, JoinArea(g, p, k))
  {
    hide AreaHolds;
    JoinedAreaGrows(ids0, done, g.ids, g.temps, p, k);
    AssignmentKeepsEntries(g.ids, g.frontier, p, k);
  }

  lemma AbsorbKeepsGrowth(ids0: Ids, altitude: Ids, done: set<Pos>, g: Growth, s: int, b: int, p: Pos)
    requires GrowthHolds(ids0, altitude, done, g)
    requires 0 < s < |g.temps| && 0 < b < |g.temps| && s != b && g.temps[s].valid && g.temps[b].valid
    requires p in g.ids && g.ids[p] == b && Touches(g.ids, p, s)
    ensures GrowthHolds(ids0, altitude, done, AbsorbArea(g, s, b))
  {
    hide AreasHold;
    hide SumSizes;
    hide EntriesHold;
    hide Recolour;
    hide Absorbed;
    var u :| u in g.ids && Adjacent(p, u) && g.ids[u] == s;
    MergedAreasGrow(ids0, done, g.ids, g.temps, s, b, u, p);
    RenamingKeepsEntries(g.ids, g.frontier, s, b);
  }

  /** Every step keeps the growth invariant, whatever the merge decisions. */
  lemma GrowStepKeepsGrowth(config: Config, nearPeak: (int, int) -> bool, ids0: Ids, altitude: Ids, done: set<Pos>,
                            g: Growth, p: Pos, first: int, second: int)
    requires GrowthHolds(ids0, altitude, done, g) && p in Members(ids0, -1) - done
    requires p in altitude && forall q | q in done :: q in altitude && altitude[q] >= altitude[p]
    requires NeighbourPair(g.ids, p, first, second)
    ensures first < |g.temps| && second < |g.temps|
    ensures GrowthHolds(ids0, altitude, done + {p}, GrowStep(config, nearPeak, g, p, altitude[p], first, second))
  {
    hide AreaHolds;
    hide EntriesHold;
    hide NeighbourPair;
    PairIsLive(ids0, done, g.ids, g.temps, p, first, second);
    if first == 0 {
      NewAreaGrows(ids0, done, g.ids, g.temps, p, altitude[p]);
      AssignmentKeepsEntries(g.ids, g.frontier, p, |g.temps|);
    } else if second == 0 {
      JoinKeepsGrowth(ids0, altitude, done, g, p, first);
    } else {
      TwoAreaStepKeepsGrowth(config, nearPeak, ids0, altitude, done, g, p, first, second);
    }
  }

  /** The tile joins one of two areas and is entered between them. */
  lemma FrontierStepKeepsGrowth(ids0: Ids, altitude: Ids, done: set<Pos>, g: Growth, p: Pos, a: int, b: int, k: int)
    requires GrowthHolds(ids0, altitude, done, g) && p in Members(ids0, -1) - done
    requires p in altitude && forall q | q in done :: q in altitude && altitude[q] >= altitude[p]
    requires a > 0 && b > 0 && (k == a || k == b) && k < |g.temps| && g.temps[k].valid
    requires Touches(g.ids, p, a) && Touches(g.ids, p, b)
    ensures GrowthHolds(ids0, altitude, done + {p}, JoinArea(g, p, k).(frontier := g.frontier + [Frontier(a, b, p)]))
  {
    hide AreasHold;
    hide EntriesHold;
    hide SumSizes;
    JoinKeepsGrowth(ids0, altitude, done, g, p, k);
    TouchSurvives(g.ids, g.ids[p := k], p, a, a);
    TouchSurvives(g.ids, g.ids[p := k], p, b, b);
    FrontierExtends(altitude, done, g.ids[p := k], g.frontier, p, a, b);
  }

  /** The tile joins area b, which absorbs area s. */
  lemma MergeStepKeepsGrowth(ids0: Ids, altitude: Ids, done: set<Pos>, g: Growth, p: Pos, s: int, b: int)
    requires GrowthHolds(ids0, altitude, done, g) && p in Members(ids0, -1) - done
    requires 0 < s < |g.temps| && 0 < b < |g.temps| && s != b && g.temps[s].valid && g.temps[b].valid
    requires Touches(g.ids, p, s) && Touches(g.ids, p, b)
    ensures GrowthHolds(ids0, altitude, done + {p}, AbsorbArea(JoinArea(g, p, b), s, b))
  {
    hide AreasHold;
    hide EntriesHold;
    hide SumSizes;
    hide FrontierGrown;
    JoinKeepsGrowth(ids0, altitude, done, g, p, b);
    TouchSurvives(g.ids, g.ids[p := b], p, s, s);
    AbsorbKeepsGrowth(ids0, altitude, done + {p}, JoinArea(g, p, b), s, b, p);
  }

  lemma TwoAreaStepKeepsGrowth(config: Config, nearPeak: (int, int) -> bool, ids0: Ids, altitude: Ids, done: set<Pos>,
                               g: Growth, p: Pos, first: int, second: int)
    requires GrowthHolds(ids0, altitude, done, g) && p in Members(ids0, -1) - done
    requires p in altitude && forall q | q in done :: q in altitude && altitude[q] >= altitude[p]
    requires 0 < first < |g.temps| && 0 < second < |g.temps| && first != second
    requires g.temps[first].valid && g.temps[second].valid
    requires Touches(g.ids, p, first) && Touches(g.ids, p, second)
    ensures GrowthHolds(ids0, altitude, done + {p}, GrowStep(config, nearPeak, g, p, altitude[p], first, second))
  {
    hide GrowthHolds;
    hide Touches;
    hide JoinArea;
    hide AbsorbArea;
    var (s, b) := if g.temps[first].size > g.temps[second].size then (second, first) else (first, second);
    var key := PairKey(first, second);
    var k := if Turn(g.turns, key) % 2 == 0 then key.0 else key.1;
    FrontierStepKeepsGrowth(ids0, altitude, done, g, p, first, second, k);
    MergeStepKeepsGrowth(ids0, altitude, done, g, p, s, b);
    TurnsAreFree(ids0, altitude, done + {p},
                 JoinArea(g, p, k).(frontier := g.frontier + [Frontier(first, second, p)]),
                 g.turns[key := Turn(g.turns, key) + 1]);
  }

  lemma TurnsAreFree(ids0: Ids, altitude: Ids, done: set<Pos>, g: Growth, turns: map<(int, int), int>)
    requires GrowthHolds(ids0, altitude, done, g)
    ensures GrowthHolds(ids0, altitude, done, g.(turns := turns))
  {
  }

  /** g' is what processing tile p makes of g. */
  ghost predicate Grows(config: Config, nearPeak: (int, int) -> bool, g: Growth, p: Pos, a: int, g': Growth) {
    exists first, second ::
      && NeighbourPair(g.ids, p, first, second)
      && first < |g.temps| && second < |g.temps|
      && g' == GrowStep(config, nearPeak, g, p, a, first, second)
  }

  // ---- The order the tiles are processed in ----

  ghost function Tiles(tiles: seq<Pos>): set<Pos> {
    set p | p in tiles
  }

  ghost predicate Descending(altitude: Ids, tiles: seq<Pos>) {
    && (forall i | 0 <= i < |tiles| :: tiles[i] in altitude)
    && (forall i, j | 0 <= i < j < |tiles| :: tiles[i] != tiles[j] && altitude[tiles[i]] >= altitude[tiles[j]])
  }

  /** The tiles are the walkable ones, none of them assigned yet. */
  ghost predicate Covers(ids: Ids, tiles: seq<Pos>) {
    && (forall p | p in ids :: ids[p] == 0 || ids[p] == -1)
    && Tiles(tiles) == Members(ids, -1)
  }

  lemma NextTile(altitude: Ids, ids: Ids, tiles: seq<Pos>, i: nat)
    requires Descending(altitude, tiles) && Covers(ids, tiles) && i < |tiles|
    ensures tiles[i] in Members(ids, -1) - Tiles(tiles[..i]) && tiles[i] in altitude
    ensures forall q | q in Tiles(tiles[..i]) :: q in altitude && altitude[q] >= altitude[tiles[i]]
    ensures Tiles(tiles[..i + 1]) == Tiles(tiles[..i]) + {tiles[i]}
  {
    assert tiles[i] in Tiles(tiles);
  }

  lemma {:induction false} DistinctTiles(altitude: Ids, tiles: seq<Pos>)
    requires Descending(altitude, tiles)
    ensures |Tiles(tiles)| == |tiles|
  {
    if tiles != [] {
      var n := |tiles| - 1;
      DistinctTiles(altitude, tiles[..n]);
      assert tiles == tiles[..n] + [tiles[n]];
      assert Tiles(tiles) == Tiles(tiles[..n]) + {tiles[n]};
    }
  }
}
