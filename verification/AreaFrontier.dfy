/** What the growth leaves behind, seen from outside: what each tile does to ids and frontier, and that no
    frontier between areas that stay apart is lost. */
module AreaFrontier {
  import opened Connectivity
  import opened AreaModel
  import opened AreaNumbering
  import opened AreaTops

  predicate Names(f: Frontier, p: Pos, a: int, b: int) {
    f.pos == p && ((f.areaId1 == a && f.areaId2 == b) || (f.areaId1 == b && f.areaId2 == a))
  }

  ghost predicate HasEntry(fs: seq<Frontier>, p: Pos, a: int, b: int) {
    exists i | 0 <= i < |fs| :: Names(fs[i], p, a, b)
  }

  // ---- One tile ----

  /** The tile is alone in an area of a new id. */
  ghost predicate Founds(g: Growth, p: Pos, g': Growth) {
    && g'.frontier == g.frontier && p in g'.ids && g'.ids[p] > 0
    && g'.ids == g.ids[p := g'.ids[p]] && Members(g.ids, g'.ids[p]) == {}
  }

  /** The tile and all of area s now belong to area b, in the grid and in the frontier. */
  ghost predicate Fuses(g: Growth, p: Pos, s: int, b: int, g': Growth) {
    && g'.ids.Keys == g.ids.Keys && |g'.frontier| == |g.frontier|
    && (forall q | q in g.ids :: g'.ids[q] == if q == p || g.ids[q] == s then b else g.ids[q])
    && (forall i | 0 <= i < |g.frontier| ::
          var e, e' := g.frontier[i], g'.frontier[i];
          && e'.pos == e.pos && e'.areaId1 == (if e.areaId1 == s then b else e.areaId1)
          && e'.areaId2 == if e.areaId2 == s then b else e.areaId2)
  }

  /** The tile belongs to one of areas a and b, and the frontier has one entry more: the tile, between a and b. */
  ghost predicate Separates(g: Growth, p: Pos, a: int, b: int, g': Growth) {
    && (g'.ids == g.ids[p := a] || g'.ids == g.ids[p := b])
    && |g'.frontier| == |g.frontier| + 1 && g'.frontier[..|g.frontier|] == g.frontier
    && Names(g'.frontier[|g.frontier|], p, a, b)
  }

  /** The altitude of the top of area k. */
  function Peak(altitude: Ids, g: Growth, k: int): int {
    if 0 <= k < |g.temps| && g.temps[k].top in altitude then altitude[g.temps[k].top] else 0
  }

  /** What becomes of a tile with areas a and b around it. Of two areas the one with fewer tiles, a if neither has
      fewer, is absorbed when it has too few tiles, too low a top, or one of the tops is hardly higher than the
      tile. */
  ghost predicate TileSettles(config: Config, nearPeak: (int, int) -> bool, altitude: Ids, g: Growth, p: Pos, a: int,
                              b: int, g': Growth)
    requires p in altitude
  {
    if a == 0 then Founds(g, p, g')
    else if b == 0 then g'.ids == g.ids[p := a] && g'.frontier == g.frontier
    else
      var s := if |Members(g.ids, a)| <= |Members(g.ids, b)| then a else b;
      var l := if |Members(g.ids, a)| <= |Members(g.ids, b)| then b else a;
      if || |Members(g.ids, s)| < config.areasMergeSize
         || Peak(altitude, g, s) < config.areasMergeAltitude
         || nearPeak(altitude[p], Peak(altitude, g, a))
         || nearPeak(altitude[p], Peak(altitude, g, b))
      then Fuses(g, p, s, l, g') && Members(g'.ids, s) == {}
      else Separates(g, p, a, b, g') && Members(g'.ids, a) != {} && Members(g'.ids, b) != {}
  }

  lemma PairIsUnique(ids: Ids, p: Pos, a: int, b: int, a': int, b': int)
    requires NeighbourPair(ids, p, a, b) && NeighbourPair(ids, p, a', b')
    ensures a == a' && b == b'
  {
  }

  lemma GrowStepSettles(config: Config, nearPeak: (int, int) -> bool, ids0: Ids, altitude: Ids, done: set<Pos>,
                        g: Growth, p: Pos, a: int, b: int)
    requires GrowthHolds(ids0, altitude, done, g) && TopsHold(altitude, g.temps)
    requires p in Members(ids0, -1) - done && p in altitude
    requires NeighbourPair(g.ids, p, a, b)
    ensures a < |g.temps| && b < |g.temps|
    ensures var g' := GrowStep(config, nearPeak, g, p, altitude[p], a, b);
      TopsHold(altitude, g'.temps) && TileSettles(config, nearPeak, altitude, g, p, a, b, g')
  {
    hide EntriesHold;
    hide FrontierGrown;
    hide NeighbourPair;
    PairIsLive(ids0, done, g.ids, g.temps, p, a, b);
    if b != 0 {
      assert AreaHolds(g.ids, g.temps[a]) && AreaHolds(g.ids, g.temps[b]);
      TwoAreaStepSettles(config, nearPeak, altitude, g, p, a, b);
    }
  }

  lemma MergeFuses(g: Growth, p: Pos, s: int, b: int)
    requires 0 < s < |g.temps| && 0 < b < |g.temps| && s != b && p in g.ids
    ensures var g' := AbsorbArea(JoinArea(g, p, b), s, b);
      Fuses(g, p, s, b, g') && Members(g'.ids, s) == {}
  {
  }

  lemma TileSeparates(g: Growth, p: Pos, a: int, b: int, k: int, turns: map<(int, int), int>)
    requires 0 < a < |g.temps| && 0 < b < |g.temps| && (k == a || k == b)
    ensures Separates(g, p, a, b, JoinArea(g, p, k).(frontier := g.frontier + [Frontier(a, b, p)], turns := turns))
  {
  }

  lemma FrontierSeparates(g: Growth, p: Pos, a: int, b: int, k: int, turns: map<(int, int), int>)
    requires 0 < a < |g.temps| && 0 < b < |g.temps| && (k == a || k == b) && p in g.ids && g.ids[p] <= 0
    requires Members(g.ids, a) != {} && Members(g.ids, b) != {}
    ensures var g' := JoinArea(g, p, k).(frontier := g.frontier + [Frontier(a, b, p)], turns := turns);
      Separates(g, p, a, b, g') && Members(g'.ids, a) != {} && Members(g'.ids, b) != {}
  {
    var u, v :| u in Members(g.ids, a) && v in Members(g.ids, b);
    assert u in Members(g.ids[p := k], a) && v in Members(g.ids[p := k], b);
  }

  lemma TwoAreaStepSettles(config: Config, nearPeak: (int, int) -> bool, altitude: Ids, g: Growth, p: Pos, a: int,
                           b: int)
    requires TopsHold(altitude, g.temps) && p in altitude && p in g.ids && g.ids[p] <= 0
    requires 0 < a < |g.temps| && 0 < b < |g.temps| && a != b && g.temps[a].valid && g.temps[b].valid
    requires g.temps[a].id == a && g.temps[b].id == b && AreaHolds(g.ids, g.temps[a]) && AreaHolds(g.ids, g.temps[b])
    ensures var g' := GrowStep(config, nearPeak, g, p, altitude[p], a, b);
      TopsHold(altitude, g'.temps) && TileSettles(config, nearPeak, altitude, g, p, a, b, g')
  {
    hide Connected;
    hide Fuses;
    hide Separates;
    hide Members;
    hide Recolour;
    hide Renamed;
    var (s, l) := if g.temps[a].size > g.temps[b].size then (b, a) else (a, b);
    var key := PairKey(a, b);
    var n := Turn(g.turns, key);
    MergeFuses(g, p, s, l);
    FrontierSeparates(g, p, a, b, if n % 2 == 0 then key.0 else key.1, g.turns[key := n + 1]);
  }

  // ---- Whole runs ----

  /** trace is the state before each tile of the growth of the grid ids0, and at the end. */
  ghost predicate IsGrowth(config: Config, nearPeak: (int, int) -> bool, ids0: Ids, altitude: Ids, tiles: seq<Pos>,
                           trace: seq<Growth>) {
    && Descending(altitude, tiles) && Covers(ids0, tiles) && |trace| == |tiles| + 1
    && trace[0].ids == ids0 && trace[0].frontier == [] && TopsHold(altitude, trace[0].temps)
    && (forall i | 0 <= i < |tiles| ::
          Grows(config, nearPeak, trace[i], tiles[i], altitude[tiles[i]], trace[i + 1]))
    && (forall i | 0 <= i <= |tiles| :: GrowthHolds(ids0, altitude, Tiles(tiles[..i]), trace[i]))
  }

  /** The tile is settled between the areas found around it. */
  ghost predicate Settled(config: Config, nearPeak: (int, int) -> bool, altitude: Ids, g: Growth, p: Pos, g': Growth) {
    && p in altitude && p in g.ids && g.ids[p] <= 0
    && exists a, b :: NeighbourPair(g.ids, p, a, b) && TileSettles(config, nearPeak, altitude, g, p, a, b, g')
  }

  lemma GrowthAt(config: Config, nearPeak: (int, int) -> bool, ids0: Ids, altitude: Ids, tiles: seq<Pos>,
                 trace: seq<Growth>, i: nat)
    requires IsGrowth(config, nearPeak, ids0, altitude, tiles, trace) && |trace| == |tiles| + 1 && i <= |tiles|
    ensures GrowthHolds(ids0, altitude, Tiles(tiles[..i]), trace[i]) && Covers(ids0, tiles)
    ensures Descending(altitude, tiles) && TopsHold(altitude, trace[0].temps)
  {
    hide GrowthHolds;
    hide Grows;
    hide Descending;
    hide Covers;
    hide TopsHold;
  }

  lemma StepAt(config: Config, nearPeak: (int, int) -> bool, ids0: Ids, altitude: Ids, tiles: seq<Pos>,
               trace: seq<Growth>, i: nat)
    requires IsGrowth(config, nearPeak, ids0, altitude, tiles, trace) && |trace| == |tiles| + 1 && i < |tiles|
    ensures tiles[i] in altitude && Grows(config, nearPeak, trace[i], tiles[i], altitude[tiles[i]], trace[i + 1])
  {
    hide GrowthHolds;
    hide Grows;
    hide Covers;
  }

  lemma StepSettles(config: Config, nearPeak: (int, int) -> bool, ids0: Ids, altitude: Ids, done: set<Pos>, g: Growth,
                    p: Pos, g': Growth)
    requires GrowthHolds(ids0, altitude, done, g) && TopsHold(altitude, g.temps)
    requires p in Members(ids0, -1) - done && p in altitude && Grows(config, nearPeak, g, p, altitude[p], g')
    ensures TopsHold(altitude, g'.temps) && Settled(config, nearPeak, altitude, g, p, g')
  {
    hide TopsHold;
    hide TileSettles;
    hide GrowStep;
    hide GrowthHolds;
    var a, b :| NeighbourPair(g.ids, p, a, b) && a < |g.temps| && b < |g.temps|
             && g' == GrowStep(config, nearPeak, g, p, altitude[p], a, b);
    hide NeighbourPair;
    GrowStepSettles(config, nearPeak, ids0, altitude, done, g, p, a, b);
    Unassigned(ids0, altitude, done, g, p);
  }

  lemma {:induction false} TopsHoldAt(config: Config, nearPeak: (int, int) -> bool, ids0: Ids, altitude: Ids,
                                      tiles: seq<Pos>, trace: seq<Growth>, n: nat)
    requires IsGrowth(config, nearPeak, ids0, altitude, tiles, trace) && |trace| == |tiles| + 1 && n <= |tiles|
    ensures TopsHold(altitude, trace[n].temps)
    ensures n > 0 ==> Settled(config, nearPeak, altitude, trace[n - 1], tiles[n - 1], trace[n])
  {
    hide IsGrowth;
    hide GrowthHolds;
    hide TopsHold;
    hide Settled;
    hide Grows;
    hide Covers;
    GrowthAt(config, nearPeak, ids0, altitude, tiles, trace, if n > 0 then n - 1 else 0);
    if n > 0 {
      TopsHoldAt(config, nearPeak, ids0, altitude, tiles, trace, n - 1);
      StepAt(config, nearPeak, ids0, altitude, tiles, trace, n - 1);
      NextTile(altitude, ids0, tiles, n - 1);
      StepSettles(config, nearPeak, ids0, altitude, Tiles(tiles[..n - 1]), trace[n - 1], tiles[n - 1], trace[n]);
    }
  }

  lemma TilesSettle(config: Config, nearPeak: (int, int) -> bool, ids0: Ids, altitude: Ids, tiles: seq<Pos>,
                    trace: seq<Growth>)
    requires IsGrowth(config, nearPeak, ids0, altitude, tiles, trace) && |trace| == |tiles| + 1
    ensures forall i | 0 <= i < |tiles| :: Settled(config, nearPeak, altitude, trace[i], tiles[i], trace[i + 1])
  {
    hide IsGrowth;
    hide Settled;
    forall i | 0 <= i < |tiles|
      ensures Settled(config, nearPeak, altitude, trace[i], tiles[i], trace[i + 1])
    {
      TopsHoldAt(config, nearPeak, ids0, altitude, tiles, trace, i + 1);
    }
  }

  lemma Unassigned(ids0: Ids, altitude: Ids, done: set<Pos>, g: Growth, p: Pos)
    requires GrowthHolds(ids0, altitude, done, g) && p in Members(ids0, -1) - done
    ensures p in g.ids && g.ids[p] <= 0
  {
  }

  /** Areas once joined stay joined, and areas apart keep the entry between them. */
  ghost predicate KeptApart(ids: Ids, fs: seq<Frontier>, p: Pos, u: Pos, v: Pos) {
    u in ids && v in ids && ids[u] > 0 && ids[v] > 0 && (ids[u] == ids[v] || HasEntry(fs, p, ids[u], ids[v]))
  }

  lemma FusingKeepsApart(g: Growth, q: Pos, s: int, b: int, g': Growth, p: Pos, u: Pos, v: Pos)
    requires Fuses(g, q, s, b, g') && b > 0 && KeptApart(g.ids, g.frontier, p, u, v)
    requires q in g.ids && g.ids[q] <= 0
    ensures KeptApart(g'.ids, g'.frontier, p, u, v)
  {
    if g.ids[u] != g.ids[v] {
      var i :| 0 <= i < |g.frontier| && Names(g.frontier[i], p, g.ids[u], g.ids[v]);
      assert Names(g'.frontier[i], p, g'.ids[u], g'.ids[v]);
    }
  }

  lemma AddingKeepsApart(g: Growth, q: Pos, a: int, g': Growth, p: Pos, u: Pos, v: Pos)
    requires g'.ids == g.ids[q := a] && |g.frontier| <= |g'.frontier| && g'.frontier[..|g.frontier|] == g.frontier
    requires q in g.ids && g.ids[q] <= 0 && KeptApart(g.ids, g.frontier, p, u, v)
    ensures KeptApart(g'.ids, g'.frontier, p, u, v)
  {
    if g.ids[u] != g.ids[v] {
      var i :| 0 <= i < |g.frontier| && Names(g.frontier[i], p, g.ids[u], g.ids[v]);
      assert g'.frontier[..|g.frontier|][i] == g'.frontier[i];
    }
  }

  lemma SettlingKeepsApart(config: Config, nearPeak: (int, int) -> bool, altitude: Ids, g: Growth, q: Pos, g': Growth,
                           p: Pos, u: Pos, v: Pos)
    requires Settled(config, nearPeak, altitude, g, q, g') && KeptApart(g.ids, g.frontier, p, u, v)
    ensures KeptApart(g'.ids, g'.frontier, p, u, v)
  {
    var a, b :| NeighbourPair(g.ids, q, a, b) && TileSettles(config, nearPeak, altitude, g, q, a, b, g');
    assert a >= 0 && b >= 0;
    hide NeighbourPair;
    hide KeptApart;
    hide Fuses;
    if Fuses(g, q, a, b, g') && b > 0 {
      FusingKeepsApart(g, q, a, b, g', p, u, v);
    } else if Fuses(g, q, b, a, g') && a > 0 {
      FusingKeepsApart(g, q, b, a, g', p, u, v);
    } else {
      assert g'.frontier[..|g.frontier|] == g.frontier;
      AddingKeepsApart(g, q, g'.ids[q], g', p, u, v);
    }
  }

  /** A tile found between two areas joins them or is entered between them. */
  lemma SettlingSetsApart(config: Config, nearPeak: (int, int) -> bool, altitude: Ids, g: Growth, p: Pos, g': Growth,
                          a: int, b: int, u: Pos, v: Pos)
    requires Settled(config, nearPeak, altitude, g, p, g') && NeighbourPair(g.ids, p, a, b) && b != 0
    requires u in Members(g.ids, a) && v in Members(g.ids, b)
    ensures KeptApart(g'.ids, g'.frontier, p, u, v)
  {
    var a', b' :| NeighbourPair(g.ids, p, a', b') && TileSettles(config, nearPeak, altitude, g, p, a', b', g');
    PairIsUnique(g.ids, p, a, b, a', b');
    assert a > 0 && b > 0;
    hide NeighbourPair;
    if Separates(g, p, a, b, g') {
      assert Names(g'.frontier[|g.frontier|], p, g'.ids[u], g'.ids[v]);
    }
  }

  /** Tile i of the order was found between the areas of u and v. */
  ghost predicate FoundBetween(tiles: seq<Pos>, trace: seq<Growth>, i: nat, u: Pos, v: Pos) {
    && i < |tiles| && i < |trace|
    && var ids := trace[i].ids;
    && exists a, b :: NeighbourPair(ids, tiles[i], a, b) && b != 0 && u in Members(ids, a) && v in Members(ids, b)
  }

  lemma AreaBesideIsFound(ids: Ids, p: Pos, a: int, b: int, u: Pos)
    requires NeighbourPair(ids, p, a, b) && u in ids && ids[u] > 0 && Adjacent(p, u)
    ensures a > 0 && b >= 0 && (b == 0 ==> ids[u] == a)
  {
    StepsAreAllNeighbours(p, u);
    var k :| 0 <= k < 4 && Step(p, k) == u;
    assert Near(ids, p, k) == ids[u];
  }

  lemma FusedBeside(g: Growth, p: Pos, s: int, b: int, g': Growth, u: Pos)
    requires Fuses(g, p, s, b, g') && p in g.ids && g.ids[p] <= 0 && s > 0 && b > 0
    requires u in g.ids && g.ids[u] > 0 && forall i | 0 <= i < |g.frontier| :: g.frontier[i].pos != p
    ensures KeptApart(g'.ids, g'.frontier, p, u, p) <==> g.ids[u] == s || g.ids[u] == b
  {
    assert !HasEntry(g'.frontier, p, g'.ids[u], g'.ids[p]);
  }

  lemma SeparatedBeside(g: Growth, p: Pos, a: int, b: int, g': Growth, u: Pos)
    requires Separates(g, p, a, b, g') && p in g.ids && g.ids[p] <= 0 && a > 0 && b > 0
    requires u in g.ids && g.ids[u] > 0 && forall i | 0 <= i < |g.frontier| :: g.frontier[i].pos != p
    ensures KeptApart(g'.ids, g'.frontier, p, u, p) <==> g.ids[u] == a || g.ids[u] == b
  {
    var n := |g.frontier|;
    assert Names(g'.frontier[n], p, a, b);
    forall i | 0 <= i < n
      ensures g'.frontier[i].pos != p
    {
      assert g'.frontier[..n][i] == g.frontier[i];
    }
  }

  /** A tile beside the one that is settled is joined with it or apart from it exactly when its area is one of the
      two found. Where more than two areas meet, the others get no entry. */
  lemma SettlingSetsBeside(config: Config, nearPeak: (int, int) -> bool, altitude: Ids, g: Growth, p: Pos, g': Growth,
                           a: int, b: int, u: Pos)
    requires Settled(config, nearPeak, altitude, g, p, g') && NeighbourPair(g.ids, p, a, b)
    requires u in g.ids && g.ids[u] > 0 && Adjacent(p, u) && forall i | 0 <= i < |g.frontier| :: g.frontier[i].pos != p
    ensures KeptApart(g'.ids, g'.frontier, p, u, p) <==> g.ids[u] == a || g.ids[u] == b
  {
    hide NeighbourPair;
    hide Fuses;
    hide Separates;
    hide Adjacent;
    AreaBesideIsFound(g.ids, p, a, b, u);
    var a', b' :| NeighbourPair(g.ids, p, a', b') && TileSettles(config, nearPeak, altitude, g, p, a', b', g');
    PairIsUnique(g.ids, p, a, b, a', b');
    if b != 0 {
      hide KeptApart;
      if Fuses(g, p, a, b, g') {
        FusedBeside(g, p, a, b, g', u);
      } else if Fuses(g, p, b, a, g') {
        FusedBeside(g, p, b, a, g', u);
      } else {
        SeparatedBeside(g, p, a, b, g', u);
      }
    }
  }

  /** The tile u lies beside tile i of the order, in one of the two areas that were found there. */
  ghost predicate FoundBeside(tiles: seq<Pos>, trace: seq<Growth>, i: nat, u: Pos) {
    && i < |tiles| && i < |trace| && Adjacent(tiles[i], u)
    && var ids := trace[i].ids;
    && u in ids && ids[u] > 0
    && exists a, b :: NeighbourPair(ids, tiles[i], a, b) && (ids[u] == a || ids[u] == b)
  }

  /** The areas of u and v meet at tile i of the order. */
  ghost predicate Meet(tiles: seq<Pos>, trace: seq<Growth>, i: nat, u: Pos, v: Pos) {
    FoundBetween(tiles, trace, i, u, v) || (FoundBeside(tiles, trace, i, u) && v == tiles[i])
  }

  lemma BesideMeansApart(config: Config, nearPeak: (int, int) -> bool, ids0: Ids, altitude: Ids, tiles: seq<Pos>,
                         trace: seq<Growth>, i: nat, u: Pos)
    requires i + 1 < |trace| && FoundBeside(tiles, trace, i, u) && Covers(ids0, tiles) && Descending(altitude, tiles)
    requires GrowthHolds(ids0, altitude, Tiles(tiles[..i]), trace[i])
    requires Settled(config, nearPeak, altitude, trace[i], tiles[i], trace[i + 1])
    ensures KeptApart(trace[i + 1].ids, trace[i + 1].frontier, tiles[i], u, tiles[i])
  {
    hide Settled;
    hide NeighbourPair;
    hide KeptApart;
    NextTile(altitude, ids0, tiles, i);
    hide Descending;
    hide Covers;
    hide Grown;
    hide EntriesHold;
    var ids := trace[i].ids;
    var a, b :| NeighbourPair(ids, tiles[i], a, b) && (ids[u] == a || ids[u] == b);
    SettlingSetsBeside(config, nearPeak, altitude, trace[i], tiles[i], trace[i + 1], a, b, u);
  }

  lemma FoundMeansApart(config: Config, nearPeak: (int, int) -> bool, altitude: Ids, tiles: seq<Pos>,
                        trace: seq<Growth>, i: nat, u: Pos, v: Pos)
    requires i + 1 < |trace| && FoundBetween(tiles, trace, i, u, v)
    requires Settled(config, nearPeak, altitude, trace[i], tiles[i], trace[i + 1])
    ensures KeptApart(trace[i + 1].ids, trace[i + 1].frontier, tiles[i], u, v)
  {
    hide Settled;
    hide NeighbourPair;
    hide KeptApart;
    var ids := trace[i].ids;
    var a, b :| NeighbourPair(ids, tiles[i], a, b) && b != 0 && u in Members(ids, a) && v in Members(ids, b);
    SettlingSetsApart(config, nearPeak, altitude, trace[i], tiles[i], trace[i + 1], a, b, u, v);
  }

  lemma {:induction false} ApartSince(config: Config, nearPeak: (int, int) -> bool, ids0: Ids, altitude: Ids,
                                      tiles: seq<Pos>, trace: seq<Growth>, i: nat, u: Pos, v: Pos, n: nat)
    requires IsGrowth(config, nearPeak, ids0, altitude, tiles, trace) && |trace| == |tiles| + 1
    requires i < n <= |tiles| && Meet(tiles, trace, i, u, v)
    ensures KeptApart(trace[n].ids, trace[n].frontier, tiles[i], u, v)
  {
    hide IsGrowth;
    hide Settled;
    hide FoundBetween;
    hide FoundBeside;
    hide KeptApart;
    TopsHoldAt(config, nearPeak, ids0, altitude, tiles, trace, n);
    if n == i + 1 {
      GrowthAt(config, nearPeak, ids0, altitude, tiles, trace, i);
      hide GrowthHolds;
      if FoundBetween(tiles, trace, i, u, v) {
        FoundMeansApart(config, nearPeak, altitude, tiles, trace, i, u, v);
      } else {
        BesideMeansApart(config, nearPeak, ids0, altitude, tiles, trace, i, u);
      }
    } else {
      ApartSince(config, nearPeak, ids0, altitude, tiles, trace, i, u, v, n - 1);
      SettlingKeepsApart(config, nearPeak, altitude, trace[n - 1], tiles[n - 1], trace[n], tiles[i], u, v);
    }
  }

  /** Wherever two areas met at a tile and ended up as different areas, the frontier has an entry for the tile
      between the two. */
  ghost predicate FrontierComplete(tiles: seq<Pos>, trace: seq<Growth>, ids: Ids, fs: seq<Frontier>) {
    forall i: nat, u, v | Meet(tiles, trace, i, u, v) && u in ids && v in ids ::
      ids[u] > 0 && ids[v] > 0 && ids[u] != ids[v] ==> HasEntry(fs, tiles[i], ids[u], ids[v])
  }

  lemma ObsoleteIsNotApart(ids: Ids, fs: seq<Frontier>, p: Pos, u: Pos, v: Pos)
    requires KeptApart(ids, fs, p, u, v)
    ensures KeptApart(ids, WithoutObsolete(fs), p, u, v)
  {
    if ids[u] != ids[v] {
      var j :| 0 <= j < |fs| && Names(fs[j], p, ids[u], ids[v]);
      KeptMembers(fs, (f: Frontier) => f.areaId1 != f.areaId2, fs[j]);
      assert fs[j] in WithoutObsolete(fs);
    }
  }

  lemma GrownFrontierIsComplete(config: Config, nearPeak: (int, int) -> bool, ids0: Ids, altitude: Ids,
                                tiles: seq<Pos>, trace: seq<Growth>)
    requires IsGrowth(config, nearPeak, ids0, altitude, tiles, trace)
    ensures FrontierComplete(tiles, trace, trace[|tiles|].ids, WithoutObsolete(trace[|tiles|].frontier))
  {
    assert |trace| == |tiles| + 1;
    hide IsGrowth;
    hide HasEntry;
    hide WithoutObsolete;
    var g := trace[|tiles|];
    forall i: nat, u, v | Meet(tiles, trace, i, u, v)
      ensures KeptApart(g.ids, WithoutObsolete(g.frontier), tiles[i], u, v)
    {
      ApartSince(config, nearPeak, ids0, altitude, tiles, trace, i, u, v, |tiles|);
      hide Meet;
      ObsoleteIsNotApart(g.ids, g.frontier, tiles[i], u, v);
    }
    hide Meet;
  }

  /** Renumbering loses only the entries of tiny zones. */
  lemma RenumberedFrontierIsComplete(tiles: seq<Pos>, trace: seq<Growth>, ids: Ids, fs: seq<Frontier>,
                                     temps: seq<TempArea>, minTiles: int)
    requires |temps| > 0 && !temps[0].valid && AllLive(ids, temps) && FrontierComplete(tiles, trace, ids, fs)
    ensures var n := |temps|;
      FrontierComplete(tiles, trace, IdsAfter(ids, temps, minTiles, n), FrontierAfter(fs, temps, minTiles, n))
  {
    var n := |temps|;
    var ids', es := IdsAfter(ids, temps, minTiles, n), EntriesAfter(fs, temps, minTiles, n);
    forall i: nat, u, v | Meet(tiles, trace, i, u, v) && u in ids && v in ids
      ensures ids'[u] > 0 && ids'[v] > 0 && ids'[u] != ids'[v] ==>
        HasEntry(FrontierAfter(fs, temps, minTiles, n), tiles[i], ids'[u], ids'[v])
    {
      if ids'[u] > 0 && ids'[v] > 0 && ids'[u] != ids'[v] {
        assert Live(temps, ids[u]) && Live(temps, ids[v]);
        assert HasEntry(fs, tiles[i], ids[u], ids[v]);
        var j :| 0 <= j < |fs| && Names(fs[j], tiles[i], ids[u], ids[v]);
        KeptMembers(es, BetweenAreas, es[j]);
        assert Names(es[j], tiles[i], ids'[u], ids'[v]);
        assert es[j] in FrontierAfter(fs, temps, minTiles, n);
      }
    }
  }

  // ---- Taking turns ----

  /** The tile settled between g and g' was entered between areas a and b. */
  predicate Enters(g: Growth, g': Growth, a: int, b: int) {
    |g'.frontier| > |g.frontier| && Names(g'.frontier[|g.frontier|], g'.frontier[|g.frontier|].pos, a, b)
  }

  /** How many of the first n tiles were entered between areas a and b. */
  function EntriesBetween(trace: seq<Growth>, n: nat, a: int, b: int): nat
    requires n < |trace|
  {
    if n == 0 then 0
    else EntriesBetween(trace, n - 1, a, b) + if Enters(trace[n - 1], trace[n], a, b) then 1 else 0
  }

  /** Of the tiles entered between two areas the first, third, fifth, ... belong to the area of the lesser id, the
      others to the one of the greater. */
  ghost predicate Alternates(tiles: seq<Pos>, trace: seq<Growth>) {
    |trace| == |tiles| + 1 && forall i, a, b | 0 <= i < |tiles| && a < b :: TakesTurn(tiles, trace, i, a, b)
  }

  predicate TakesTurn(tiles: seq<Pos>, trace: seq<Growth>, i: nat, a: int, b: int)
    requires i < |tiles| && i + 1 < |trace|
  {
    Enters(trace[i], trace[i + 1], a, b) ==>
      && tiles[i] in trace[i + 1].ids
      && trace[i + 1].ids[tiles[i]] == if EntriesBetween(trace, i, a, b) % 2 == 0 then a else b
  }

  lemma StepTakesTurns(config: Config, nearPeak: (int, int) -> bool, g: Growth, p: Pos, alt: int, first: int,
                       second: int, a: int, b: int)
    requires 0 <= first < |g.temps| && 0 <= second < |g.temps| && first != second && a < b
    ensures var g' := GrowStep(config, nearPeak, g, p, alt, first, second);
      && Turn(g'.turns, (a, b)) == Turn(g.turns, (a, b)) + (if Enters(g, g', a, b) then 1 else 0)
      && (Enters(g, g', a, b) ==> p in g'.ids && g'.ids[p] == if Turn(g.turns, (a, b)) % 2 == 0 then a else b)
  {
    hide Recolour;
    hide Members;
  }

  lemma PairDiffers(ids: Ids, p: Pos, first: int, second: int)
    requires NeighbourPair(ids, p, first, second)
    ensures first >= 0 && second >= 0 && (first == second ==> first == 0)
  {
  }

  lemma StartTakesNoTurn(config: Config, nearPeak: (int, int) -> bool, g: Growth, p: Pos, alt: int, a: int, b: int)
    requires |g.temps| > 0
    ensures var g' := GrowStep(config, nearPeak, g, p, alt, 0, 0);
      Turn(g'.turns, (a, b)) == Turn(g.turns, (a, b)) && !Enters(g, g', a, b)
  {
  }

  lemma GrowthTakesTurns(config: Config, nearPeak: (int, int) -> bool, g: Growth, p: Pos, alt: int, g': Growth, a: int,
                         b: int)
    requires Grows(config, nearPeak, g, p, alt, g') && a < b
    ensures Turn(g'.turns, (a, b)) == Turn(g.turns, (a, b)) + if Enters(g, g', a, b) then 1 else 0
    ensures Enters(g, g', a, b) ==> p in g'.ids && g'.ids[p] == if Turn(g.turns, (a, b)) % 2 == 0 then a else b
  {
    hide GrowStep;
    hide Enters;
    var first, second :| NeighbourPair(g.ids, p, first, second) && first < |g.temps| && second < |g.temps|
                      && g' == GrowStep(config, nearPeak, g, p, alt, first, second);
    hide NeighbourPair;
    PairDiffers(g.ids, p, first, second);
    if first != second {
      StepTakesTurns(config, nearPeak, g, p, alt, first, second, a, b);
    } else {
      StartTakesNoTurn(config, nearPeak, g, p, alt, a, b);
    }
  }

  lemma {:induction false} TurnsAreCounted(config: Config, nearPeak: (int, int) -> bool, ids0: Ids, altitude: Ids,
                                           tiles: seq<Pos>, trace: seq<Growth>, n: nat, a: int, b: int)
    requires IsGrowth(config, nearPeak, ids0, altitude, tiles, trace) && |trace| == |tiles| + 1 && n <= |tiles|
    requires trace[0].turns == map[] && a < b
    ensures Turn(trace[n].turns, (a, b)) == EntriesBetween(trace, n, a, b)
    ensures n > 0 ==> TakesTurn(tiles, trace, n - 1, a, b)
  {
    hide IsGrowth;
    hide Enters;
    hide Grows;
    if n > 0 {
      TurnsAreCounted(config, nearPeak, ids0, altitude, tiles, trace, n - 1, a, b);
      StepAt(config, nearPeak, ids0, altitude, tiles, trace, n - 1);
      GrowthTakesTurns(config, nearPeak, trace[n - 1], tiles[n - 1], altitude[tiles[n - 1]], trace[n], a, b);
    }
  }

  lemma SidesAlternate(config: Config, nearPeak: (int, int) -> bool, ids0: Ids, altitude: Ids, tiles: seq<Pos>,
                       trace: seq<Growth>)
    requires IsGrowth(config, nearPeak, ids0, altitude, tiles, trace) && |trace| == |tiles| + 1
    requires trace[0].turns == map[]
    ensures Alternates(tiles, trace)
  {
    hide IsGrowth;
    hide TakesTurn;
    forall i, a, b | 0 <= i < |tiles| && a < b
      ensures TakesTurn(tiles, trace, i, a, b)
    {
      TurnsAreCounted(config, nearPeak, ids0, altitude, tiles, trace, i + 1, a, b);
    }
  }

  /** Steps of the growth, one after the other from an unassigned grid, are a growth. */
  lemma StepsAreGrowth(config: Config, nearPeak: (int, int) -> bool, ids0: Ids, altitude: Ids, tiles: seq<Pos>,
                       trace: seq<Growth>)
    requires Descending(altitude, tiles) && Covers(ids0, tiles) && |trace| == |tiles| + 1
    requires trace[0].ids == ids0 && trace[0].frontier == [] && TopsHold(altitude, trace[0].temps)
    requires forall i | 0 <= i < |tiles| ::
      Grows(config, nearPeak, trace[i], tiles[i], altitude[tiles[i]], trace[i + 1])
    requires forall i | 0 <= i <= |tiles| :: GrowthHolds(ids0, altitude, Tiles(tiles[..i]), trace[i])
    ensures IsGrowth(config, nearPeak, ids0, altitude, tiles, trace)
    ensures forall i | 0 <= i < |tiles| :: Settled(config, nearPeak, altitude, trace[i], tiles[i], trace[i + 1])
    ensures trace[0].turns == map[] ==> Alternates(tiles, trace)
  {
    hide Grows;
    hide GrowthHolds;
    hide Covers;
    hide TopsHold;
    hide Settled;
    hide Alternates;
    assert IsGrowth(config, nearPeak, ids0, altitude, tiles, trace);
    hide IsGrowth;
    TilesSettle(config, nearPeak, ids0, altitude, tiles, trace);
    if trace[0].turns == map[] {
      SidesAlternate(config, nearPeak, ids0, altitude, tiles, trace);
    }
  }
}
