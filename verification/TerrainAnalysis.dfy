/** The whole analysis: from walkable tiles to groups of accessible areas. */
module TerrainAnalysis {
  import opened Connectivity
  import opened AreaModel
  import opened AreaNumbering
  import opened AreaFrontier
  import opened SeaLake
  import opened GridAnalysis
  import opened ChokePoints
  import AreaGroups

  ghost function Walkable(config: Config, isWalkable: Pos -> bool): set<Pos> {
    Cells(config.width, config.height) - Unwalkable(config, isWalkable)
  }

  /** The frontier has a tile between the two areas. */
  ghost predicate ShareFrontier(fs: seq<Frontier>, a: int, b: int) {
    exists i | 0 <= i < |fs| :: KeyOf(fs[i]) == PairKey(a, b)
  }

  /** Node n of the graph is area n + 1; edges are shared frontiers. */
  ghost predicate GraphHolds(g: AreaGroups.Graph, count: nat, fs: seq<Frontier>) {
    && |g| == count && AreaGroups.Symmetric(g)
    && forall a, b | 0 <= a < count :: b in g[a] <==> 0 <= b < count && b != a && ShareFrontier(fs, a + 1, b + 1)
  }

  // ---- Groups and the ground ----

  /** A connected part of W that meets a component of W lies in it. */
  lemma PartOfComponent(W: set<Pos>, M: set<Pos>, p: Pos, q: Pos)
    requires p in W && M <= W && Connected(M) && q in M && q in Component(W, p)
    ensures M <= Component(W, p)
  {
    ComponentIsClosed(W, p);
    var A := M * Component(W, p);
    assert Closed(A, M) && q in A;
  }

  /** The areas lie on W, each connected and not empty. */
  ghost predicate OnGround(W: set<Pos>, ids: Ids, count: nat) {
    && (forall q | q in ids && ids[q] > 0 :: q in W)
    && forall a | 1 <= a <= count :: Connected(Members(ids, a)) && Members(ids, a) != {}
  }

  lemma NumberedIsOnGround(W: set<Pos>, ids: Ids, list: seq<(Pos, int)>, minTiles: int)
    requires Numbered(ids, list, minTiles) && forall q | q in ids && ids[q] > 0 :: q in W
    ensures OnGround(W, ids, |list|)
  {
    forall a | 1 <= a <= |list|
      ensures Connected(Members(ids, a)) && Members(ids, a) != {}
    {
      assert ListedAreaHolds(ids, list[a - 1], a - 1 + 1, minTiles);
    }
  }

  /** Areas with a frontier between them lie in one component of the ground. */
  lemma FrontierJoins(W: set<Pos>, ids: Ids, count: nat, f: Frontier, p: Pos, a: int, b: int)
    requires OnGround(W, ids, count) && EntryHolds(ids, f) && KeyOf(f) == PairKey(a, b)
    requires 1 <= a <= count && 1 <= b <= count && p in W && Members(ids, a) <= Component(W, p)
    ensures Members(ids, b) <= Component(W, p)
  {
    hide Component;
    hide Connected;
    ComponentIsClosed(W, p);
    assert Touches(ids, f.pos, a) && Touches(ids, f.pos, b);
    var u :| u in ids && Adjacent(f.pos, u) && ids[u] == a;
    var v :| v in ids && Adjacent(f.pos, v) && ids[v] == b;
    assert u in Members(ids, a) && v in Members(ids, b) && Adjacent(u, f.pos);
    PartOfComponent(W, Members(ids, b), p, v);
  }

  /** Along a route through choke points the ground stays one. */
  lemma {:induction false} RouteStaysOnGround(W: set<Pos>, ids: Ids, fs: seq<Frontier>, g: AreaGroups.Graph,
                                              route: seq<nat>, a: nat, b: nat, p: Pos, n: nat)
    requires OnGround(W, ids, |g|) && EntriesHold(ids, fs) && GraphHolds(g, |g|, fs)
    requires AreaGroups.IsRoute(g, route, a, b) && n < |route| && p in W && Members(ids, a + 1) <= Component(W, p)
    ensures Members(ids, route[n] + 1) <= Component(W, p)
  {
    hide EntryHolds;
    hide OnGround;
    hide Component;
    if n > 0 {
      RouteStaysOnGround(W, ids, fs, g, route, a, b, p, n - 1);
      var c, d := route[n - 1], route[n - 1 + 1];
      assert d in g[c];
      assert ShareFrontier(fs, c + 1, d + 1);
      var i :| 0 <= i < |fs| && KeyOf(fs[i]) == PairKey(c + 1, d + 1);
      FrontierJoins(W, ids, |g|, fs[i], p, c + 1, d + 1);
    }
  }

  /** Units can walk from any tile of area a to any tile of area b. */
  ghost predicate OneGround(W: set<Pos>, ids: Ids, a: int, b: int) {
    forall p, q | p in Members(ids, a) && q in Members(ids, b) :: p in W && q in Component(W, p)
  }

  /** Accessible areas lie in one 4-connected component of the ground. */
  lemma AccessibleAreasAreWalkable(W: set<Pos>, ids: Ids, fs: seq<Frontier>, g: AreaGroups.Graph, a: nat, b: nat)
    requires OnGround(W, ids, |g|) && EntriesHold(ids, fs) && GraphHolds(g, |g|, fs) && a < |g|
    requires AreaGroups.Accessible(g, a, b)
    ensures OneGround(W, ids, a + 1, b + 1)
  {
    hide EntriesHold;
    hide GraphHolds;
    var route :| AreaGroups.IsRoute(g, route, a, b);
    forall p, q | p in Members(ids, a + 1) && q in Members(ids, b + 1)
      ensures p in W && q in Component(W, p)
    {
      ComponentIsClosed(W, p);
      PartOfComponent(W, Members(ids, a + 1), p, p);
      RouteStaysOnGround(W, ids, fs, g, route, a, b, p, |route| - 1);
    }
    hide Component;
    hide Members;
  }

  // ---- The pipeline ----

  /** Loading marks exactly the unwalkable tiles, so the walkable ones are those without an area. */
  lemma LoadedCovers(config: Config, isWalkable: Pos -> bool, ids: Ids, tiles: seq<Pos>)
    requires ids == Recolour(map p | p in Cells(config.width, config.height) :: -1, Unwalkable(config, isWalkable), 0)
    requires Tiles(tiles) == Walkable(config, isWalkable)
    ensures Covers(ids, tiles) && ids.Keys == Cells(config.width, config.height)
    ensures forall p | p in ids :: ids[p] == 0 <==> p !in Walkable(config, isWalkable)
  {
    assert Members(ids, -1) == Walkable(config, isWalkable);
  }

  /** The walkable tiles of the grid, and no others, belong to areas or tiny zones. */
  ghost predicate AreasFound(config: Config, W: set<Pos>, ids: Ids, list: seq<(Pos, int)>) {
    && ids.Keys == Cells(config.width, config.height) && (forall p | p in ids :: ids[p] == 0 <==> p !in W)
    && Numbered(ids, list, config.areaMinTiles)
  }

  /** Every 4-connected body of unwalkable tiles is a lake, whose altitude is left open, or a sea, at altitude 0. */
  ghost predicate WaterHolds(config: Config, U: set<Pos>, water: Ids) {
    && water.Keys == Cells(config.width, config.height)
    && (forall p | p in water && p in U :: water[p] == if FitsLake(config, Component(U, p)) then -1 else 0)
    && (forall p | p in water && p !in U :: water[p] == -1)
  }

  lemma WaterIsDecided(config: Config, U: set<Pos>, alt: Ids)
    requires alt == Recolour(map p | p in Cells(config.width, config.height) :: UNSET, U, SEA_OR_LAKE)
    requires U <= Cells(config.width, config.height)
    ensures Members(alt, SEA_OR_LAKE) == U && WaterHolds(config, U, Decided(config, alt, U, U))
  {
    hide Component;
    hide FitsLake;
  }

  /** The areas are those the growth leaves, which starts from the walkable tiles and settles one after the other. */
  ghost predicate GrownFrom(config: Config, nearPeak: (int, int) -> bool, U: set<Pos>, altitude: Ids, tiles: seq<Pos>,
                            trace: seq<Growth>, ids: Ids) {
    && |trace| == |tiles| + 1 && SameAreas(trace[|tiles|].ids, ids)
    && trace[0].frontier == [] && trace[0].ids.Keys == Cells(config.width, config.height)
    && (forall p | p in trace[0].ids :: trace[0].ids[p] == if p in U then 0 else -1)
    && (forall i | 0 <= i < |tiles| :: Settled(config, nearPeak, altitude, trace[i], tiles[i], trace[i + 1]))
    && Alternates(tiles, trace)
  }

  /** Listed areas that met at a tile are the same or neighbours. */
  ghost predicate MeetingAreasLinked(tiles: seq<Pos>, trace: seq<Growth>, ids: Ids, g: AreaGroups.Graph) {
    forall i: nat, u, v | Meet(tiles, trace, i, u, v) && u in ids && v in ids ::
      0 < ids[u] <= |g| && 0 < ids[v] <= |g| && ids[u] != ids[v] ==> ids[v] - 1 in g[ids[u] - 1]
  }

  lemma MeetingAreasAreLinked(tiles: seq<Pos>, trace: seq<Growth>, ids: Ids, list: seq<(Pos, int)>, minTiles: int,
                              fs: seq<Frontier>, g: AreaGroups.Graph)
    requires Numbered(ids, list, minTiles) && FrontierComplete(tiles, trace, ids, fs) && GraphHolds(g, |list|, fs)
    ensures MeetingAreasLinked(tiles, trace, ids, g)
  {
    hide NeighbourPair;
    hide Members;
    hide ListedAreaHolds;
    forall i: nat, u, v | Meet(tiles, trace, i, u, v) && u in ids && v in ids && 0 < ids[u] <= |g|
                          && 0 < ids[v] <= |g| && ids[u] != ids[v]
      ensures ids[v] - 1 in g[ids[u] - 1]
    {
      assert HasEntry(fs, tiles[i], ids[u], ids[v]);
      var j :| 0 <= j < |fs| && Names(fs[j], tiles[i], ids[u], ids[v]);
      assert KeyOf(fs[j]) == PairKey(ids[u], ids[v]);
      assert ShareFrontier(fs, ids[u] - 1 + 1, ids[v] - 1 + 1);
    }
  }

  lemma GrowthStartsAt(config: Config, nearPeak: (int, int) -> bool, ids0: Ids, altitude: Ids, tiles: seq<Pos>,
                       trace: seq<Growth>)
    requires IsGrowth(config, nearPeak, ids0, altitude, tiles, trace) && |trace| == |tiles| + 1
    ensures trace[0].ids == ids0 && trace[0].frontier == []
    ensures forall i | 0 <= i < |tiles| :: Settled(config, nearPeak, altitude, trace[i], tiles[i], trace[i + 1])
  {
    hide Settled;
    hide Grows;
    hide GrowthHolds;
    TilesSettle(config, nearPeak, ids0, altitude, tiles, trace);
  }

  /** Seas and lakes, and areas, given the altitudes and the order of the walkable tiles. */
  method FindAreas(config: Config, nearPeak: (int, int) -> bool, isWalkable: Pos -> bool, altitudes: Ids,
                   tiles: seq<Pos>)
    returns (analyzer: GridAnalyzer, water: Ids, areasList: seq<(Pos, int)>, ghost trace: seq<Growth>)
    requires altitudes.Keys == Cells(config.width, config.height) && Descending(altitudes, tiles)
    requires Tiles(tiles) == Walkable(config, isWalkable)
    ensures WaterHolds(config, Unwalkable(config, isWalkable), water)
    ensures AreasFound(config, Walkable(config, isWalkable), analyzer.areaId, areasList)
    ensures FrontierNumbered(analyzer.areaId, altitudes, analyzer.rawFrontier)
    ensures GrownFrom(config, nearPeak, Unwalkable(config, isWalkable), altitudes, tiles, trace, analyzer.areaId)
    ensures FrontierComplete(tiles, trace, analyzer.areaId, analyzer.rawFrontier)
  {
    hide IsGrowth;
    hide SameAreas;
    hide Settled;
    hide Alternates;
    hide FrontierComplete;
    hide WaterHolds;
    hide Component;
    hide Decided;
    hide Recolour;
    hide Numbered;
    hide FrontierNumbered;
    hide Descending;
    analyzer := new GridAnalyzer(config, nearPeak);
    ghost var blank: Ids := map p | p in Cells(config.width, config.height) :: -1;
    RecolouredKeys(blank, Unwalkable(config, isWalkable), SEA_OR_LAKE);
    analyzer.LoadData(isWalkable);
    LoadedCovers(config, isWalkable, analyzer.areaId, tiles);
    hide Covers;
    hide Walkable;
    WaterIsDecided(config, Unwalkable(config, isWalkable), analyzer.altitude);
    analyzer.DecideSeasOrLakes();
    water := analyzer.altitude;
    analyzer.altitude := altitudes;
    ghost var loaded := analyzer.areaId;
    areasList, trace := analyzer.ComputeAreas(tiles);
    GrowthStartsAt(config, nearPeak, loaded, altitudes, tiles, trace);
  }

  /** Choke points split the frontier by pair of areas, and two areas have one group exactly when a chain of
      frontiers joins them; then they lie on one 4-connected piece of ground. */
  method GroupAreas(fs: seq<Frontier>, count: nat, ghost W: set<Pos>, ghost ids: Ids)
    returns (matrix: map<Pair, seq<seq<Pos>>>, areas: AreaGroups.AreaGraph)
    requires OnGround(W, ids, count) && EntriesHold(ids, fs)
    requires forall i | 0 <= i < |fs| :: 1 <= fs[i].areaId1 <= count && 1 <= fs[i].areaId2 <= count
    ensures MatrixHolds(fs, matrix)
    ensures GraphHolds(areas.neighbours, count, fs) && |areas.groupId| == count
    ensures forall a, b | 0 <= a < count && 0 <= b < count ::
      areas.groupId[a] == areas.groupId[b] <==> AreaGroups.Accessible(areas.neighbours, a, b)
    ensures GroupsAreWalkable(W, ids, areas.groupId)
  {
    hide OnGround;
    hide EntriesHold;
    hide AreaGroups.Accessible;
    var graph;
    matrix, graph := CreateChokePoints(fs, count);
    areas := new AreaGroups.AreaGraph(graph);
    areas.UpdateGroupIds();
    GroupsShareGround(W, ids, fs, graph, areas.groupId);
  }

  lemma GroupsShareGround(W: set<Pos>, ids: Ids, fs: seq<Frontier>, g: AreaGroups.Graph, groupId: seq<int>)
    requires OnGround(W, ids, |g|) && EntriesHold(ids, fs) && GraphHolds(g, |g|, fs) && |groupId| == |g|
    requires forall a, b | 0 <= a < |g| && 0 <= b < |g| :: groupId[a] == groupId[b] <==> AreaGroups.Accessible(g, a, b)
    ensures GroupsAreWalkable(W, ids, groupId)
  {
    hide OnGround;
    hide EntriesHold;
    hide GraphHolds;
    hide AreaGroups.Accessible;
    forall a, b | 0 <= a < |groupId| && 0 <= b < |groupId| && groupId[a] == groupId[b]
      ensures OneGround(W, ids, a + 1, b + 1)
    {
      AccessibleAreasAreWalkable(W, ids, fs, g, a, b);
    }
  }

  /** Exactly the pairs with frontier tiles have choke points: the clusters of those tiles. */
  ghost predicate MatrixHolds(fs: seq<Frontier>, matrix: map<Pair, seq<seq<Pos>>>) {
    && (forall key :: key in matrix <==> exists i | 0 <= i < |fs| :: KeyOf(fs[i]) == key)
    && (forall key | key in matrix :: matrix[key] == Clusters(PairTiles(fs, key)) != [])
    && (forall key | key in matrix :: IsClustering(PairTiles(fs, key), matrix[key]))
  }

  /** Units can walk between areas of one group. */
  ghost predicate GroupsAreWalkable(W: set<Pos>, ids: Ids, groupId: seq<int>) {
    forall a, b | 0 <= a < |groupId| && 0 <= b < |groupId| && groupId[a] == groupId[b] ::
      OneGround(W, ids, a + 1, b + 1)
  }

  /** The analysis of a grid, given the altitudes and the order of the walkable tiles. */
  method Analyze(config: Config, nearPeak: (int, int) -> bool, isWalkable: Pos -> bool, altitudes: Ids, tiles: seq<Pos>)
    returns (analyzer: GridAnalyzer, water: Ids, areasList: seq<(Pos, int)>, matrix: map<Pair, seq<seq<Pos>>>,
             areas: AreaGroups.AreaGraph, ghost trace: seq<Growth>)
    requires altitudes.Keys == Cells(config.width, config.height) && Descending(altitudes, tiles)
    requires Tiles(tiles) == Walkable(config, isWalkable)
    ensures WaterHolds(config, Unwalkable(config, isWalkable), water)
    ensures AreasFound(config, Walkable(config, isWalkable), analyzer.areaId, areasList)
    ensures FrontierNumbered(analyzer.areaId, altitudes, analyzer.rawFrontier)
    ensures GrownFrom(config, nearPeak, Unwalkable(config, isWalkable), altitudes, tiles, trace, analyzer.areaId)
    ensures FrontierComplete(tiles, trace, analyzer.areaId, analyzer.rawFrontier)
    ensures MeetingAreasLinked(tiles, trace, analyzer.areaId, areas.neighbours)
    ensures MatrixHolds(analyzer.rawFrontier, matrix)
    ensures GraphHolds(areas.neighbours, |areasList|, analyzer.rawFrontier) && |areas.groupId| == |areasList|
    ensures forall a, b | 0 <= a < |areasList| && 0 <= b < |areasList| ::
      areas.groupId[a] == areas.groupId[b] <==> AreaGroups.Accessible(areas.neighbours, a, b)
    ensures GroupsAreWalkable(Walkable(config, isWalkable), analyzer.areaId, areas.groupId)
  {
    hide Descending;
    hide Numbered;
    hide EntriesHold;
    hide OnGround;
    hide Walkable;
    hide MatrixHolds;
    hide GraphHolds;
    hide GroupsAreWalkable;
    hide WaterHolds;
    hide GrownFrom;
    hide FrontierComplete;
    hide MeetingAreasLinked;
    analyzer, water, areasList, trace := FindAreas(config, nearPeak, isWalkable, altitudes, tiles);
    FrontierIsListed(analyzer.areaId, areasList, config.areaMinTiles, analyzer.rawFrontier);
    NumberedIsOnGround(Walkable(config, isWalkable), analyzer.areaId, areasList, config.areaMinTiles);
    matrix, areas := GroupAreas(analyzer.rawFrontier, |areasList|, Walkable(config, isWalkable), analyzer.areaId);
    MeetingAreasAreLinked(tiles, trace, analyzer.areaId, areasList, config.areaMinTiles, analyzer.rawFrontier,
                          areas.neighbours);
  }

  lemma RecolouredKeys(ids: Ids, S: set<Pos>, a: int)
    ensures Recolour(ids, S, a).Keys == ids.Keys
  {
  }
}
