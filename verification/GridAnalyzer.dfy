/** The in-place analysis of the tile grid: growing areas tile by tile, merging them,
    keeping the raw frontier in step, and renumbering what is left. */
module GridAnalysis {
  import opened Connectivity
  import opened AreaModel
  import opened AreaNumbering
  import opened AreaFrontier
  import opened SeaLake

  ghost function Unwalkable(config: Config, isWalkable: Pos -> bool): set<Pos> {
    set p | p in Cells(config.width, config.height) && !isWalkable(p)
  }

  lemma RecolourOneMore(ids: Ids, D: set<Pos>, p: Pos, a: int)
    requires p in ids
    ensures Recolour(ids, D, a)[p := a] == Recolour(ids, D + {p}, a)
  {
  }

  class GridAnalyzer {
    const config: Config
    /** nearPeak(a, h): the single-precision test a / h >= 0.90. */
    const nearPeak: (int, int) -> bool
    var altitude: Ids
    var areaId: Ids
    var rawFrontier: seq<Frontier>
    var areaPairCounter: map<(int, int), int>

    /** Every tile starts walkable, unassigned and without altitude. */
    constructor (config: Config, nearPeak: (int, int) -> bool)
      ensures this.config == config && this.nearPeak == nearPeak
      ensures altitude == map p | p in Cells(config.width, config.height) :: -1
      ensures areaId == map p | p in Cells(config.width, config.height) :: -1
      ensures rawFrontier == [] && areaPairCounter == map[]
    {
      this.config, this.nearPeak := config, nearPeak;
      altitude := map p | p in Cells(config.width, config.height) :: -1;
      areaId := map p | p in Cells(config.width, config.height) :: -1;
      rawFrontier, areaPairCounter := [], map[];
    }

    /** Unwalkable tiles lose their area and become undecided water. */
    method LoadData(isWalkable: Pos -> bool)
      requires areaId.Keys == altitude.Keys == Cells(config.width, config.height)
      modifies this`areaId, this`altitude
      ensures areaId == Recolour(old(areaId), Unwalkable(config, isWalkable), 0)
      ensures altitude == Recolour(old(altitude), Unwalkable(config, isWalkable), SEA_OR_LAKE)
    {
      ghost var U := Unwalkable(config, isWalkable);
      ghost var D: set<Pos> := {};
      for y := 0 to config.height
        invariant areaId == Recolour(old(areaId), D, 0) && altitude == Recolour(old(altitude), D, SEA_OR_LAKE)
        invariant forall p | p in U :: p in D <==> p.y < y
        invariant D <= U
      {
        for x := 0 to config.width
          invariant areaId == Recolour(old(areaId), D, 0) && altitude == Recolour(old(altitude), D, SEA_OR_LAKE)
          invariant forall p | p in U :: p in D <==> p.y < y || (p.y == y && p.x < x)
          invariant D <= U
        {
          hide Recolour;
          var p := Pos(x, y);
          if !isWalkable(p) {
            RecolourOneMore(old(areaId), D, p, 0);
            RecolourOneMore(old(altitude), D, p, SEA_OR_LAKE);
            areaId := areaId[p := 0];
            altitude := altitude[p := SEA_OR_LAKE];
            D := D + {p};
          }
        }
      }
      assert D == U;
    }

    /** The first positive id among the four neighbours and the least other one; 0 for none. */
    method FindNeighboringAreas(p: Pos) returns (first: int, second: int)
      ensures NeighbourPair(areaId, p, first, second)
    {
      first, second := 0, 0;
      for k := 0 to 4
        invariant first >= 0 && second >= 0
        invariant first == 0 <==> NonePositive(areaId, p, k)
        invariant first != 0 ==> exists i | 0 <= i < k :: Near(areaId, p, i) == first && NonePositive(areaId, p, i)
        invariant second == 0 <==> forall j | 0 <= j < k :: Near(areaId, p, j) <= 0 || Near(areaId, p, j) == first
        invariant second != 0 ==> second != first && exists i | 0 <= i < k :: Near(areaId, p, i) == second
        invariant second != 0 ==>
          forall j | 0 <= j < k && Near(areaId, p, j) > 0 && Near(areaId, p, j) != first :: second <= Near(areaId, p, j)
      {
        var id := Near(areaId, p, k);
        if id > 0 {
          if first == 0 {
            first := id;
          } else if first != id {
            if second == 0 || id < second {
              second := id;
            }
          }
        }
      }
    }

    /** The two ids of a pair take turns, the lesser first. */
    method ChooseNeighboringArea(a: int, b: int) returns (r: int)
      modifies this`areaPairCounter
      ensures r == if Turn(old(areaPairCounter), PairKey(a, b)) % 2 == 0 then PairKey(a, b).0 else PairKey(a, b).1
      ensures areaPairCounter == old(areaPairCounter)[PairKey(a, b) := Turn(old(areaPairCounter), PairKey(a, b)) + 1]
    {
      var key := if a > b then (b, a) else (a, b);
      var n := if key in areaPairCounter then areaPairCounter[key] else 0;
      areaPairCounter := areaPairCounter[key := n + 1];
      r := if n % 2 == 0 then key.0 else key.1;
    }

    /** One round of the flood: the neighbours of current that still carry oldAreaId
        are renamed and queued. C is the component being flooded, V the part done. */
    method Spread(current: Pos, oldAreaId: int, newAreaId: int, toSearch: seq<Pos>,
                  ghost ids0: Ids, ghost C: set<Pos>, ghost V: set<Pos>)
      returns (toSearch': seq<Pos>, ghost V': set<Pos>)
      requires newAreaId != oldAreaId && Closed(C, Members(ids0, oldAreaId))
      requires areaId == Recolour(ids0, V, newAreaId) && V <= C && current in V
      requires forall q | q in toSearch :: q in V
      modifies this`areaId
      ensures areaId == Recolour(ids0, V', newAreaId) && V <= V' <= C
      ensures forall q | q in toSearch' :: q in V'
      ensures forall q | q in V' && q !in toSearch' :: q in V && q !in toSearch
      ensures forall b | b in Members(ids0, oldAreaId) && Adjacent(current, b) :: b in V'
      ensures V' == V ==> toSearch' == toSearch
    {
      toSearch', V' := toSearch, V;
      for k := 0 to 4
        invariant areaId == Recolour(ids0, V', newAreaId) && V <= V' <= C
        invariant forall q | q in toSearch' :: q in V'
        invariant forall q | q in V' && q !in toSearch' :: q in V && q !in toSearch
        invariant forall j | 0 <= j < k :: Step(current, j) in Members(ids0, oldAreaId) ==> Step(current, j) in V'
        invariant V' == V ==> toSearch' == toSearch
      {
        var next := Step(current, k);
        if next in areaId && areaId[next] == oldAreaId {
          toSearch' := toSearch' + [next];
          areaId := areaId[next := newAreaId];
          V' := V' + {next};
        }
      }
      forall b | b in Members(ids0, oldAreaId) && Adjacent(current, b)
        ensures b in V'
      {
        StepsAreAllNeighbours(current, b);
      }
    }

    method FloodAreaId(p: Pos, newAreaId: int)
      requires p in areaId && newAreaId != areaId[p]
      modifies this`areaId
      ensures areaId == Recolour(old(areaId), Component(Members(old(areaId), old(areaId[p])), p), newAreaId)
    {
      var oldAreaId := areaId[p];
      ghost var R := Members(areaId, oldAreaId);
      ghost var C := Component(R, p);
      ComponentIsClosed(R, p);
      ghost var V := {p};
      areaId := areaId[p := newAreaId];
      var toSearch := [p];
      while toSearch != []
        invariant areaId == Recolour(old(areaId), V, newAreaId)
        invariant p in V && V <= C
        invariant forall q | q in toSearch :: q in V
        invariant forall a, b | a in V && a !in toSearch && b in R && Adjacent(a, b) :: b in V
        decreases C - V, |toSearch|
      {
        var current := toSearch[|toSearch| - 1];
        toSearch, V := Spread(current, oldAreaId, newAreaId, toSearch[..|toSearch| - 1], old(areaId), C, V);
      }
      ComponentIsLeast(R, p, V);
    }

    /** Renames the area of p, in the grid and in the frontier; a tiny zone leaves the frontier. */
    method ReplaceAreaIds(p: Pos, newAreaId: int)
      requires p in areaId && areaId[p] > 0 && newAreaId != areaId[p]
      requires newAreaId >= 1 || newAreaId <= -2
      modifies this`areaId, this`rawFrontier
      ensures areaId == Recolour(old(areaId), Component(Members(old(areaId), old(areaId[p])), p), newAreaId)
      ensures rawFrontier == if newAreaId > 0 then Renamed(old(rawFrontier), old(areaId[p]), newAreaId)
                             else Without(old(rawFrontier), old(areaId[p]))
    {
      var oldAreaId := areaId[p];
      FloodAreaId(p, newAreaId);
      if newAreaId > 0 {
        RenameFrontier(oldAreaId, newAreaId);
      } else {
        rawFrontier := Without(rawFrontier, oldAreaId);
      }
    }

    method RenameFrontier(oldAreaId: int, newAreaId: int)
      modifies this`rawFrontier
      ensures rawFrontier == Renamed(old(rawFrontier), oldAreaId, newAreaId)
    {
      for i := 0 to |rawFrontier|
        invariant |rawFrontier| == |old(rawFrontier)|
        invariant forall j | 0 <= j < i :: rawFrontier[j] == RenameEntry(old(rawFrontier)[j], oldAreaId, newAreaId)
        invariant forall j | i <= j < |rawFrontier| :: rawFrontier[j] == old(rawFrontier)[j]
      {
        rawFrontier := rawFrontier[i := RenameEntry(rawFrontier[i], oldAreaId, newAreaId)];
      }
    }

    /** Everything the growth changes, as one value. */
    ghost function State(temps: seq<TempArea>): Growth
      reads this
    {
      Growth(areaId, temps, rawFrontier, areaPairCounter)
    }

    /** Processes one tile of the descending order. */
    method Place(pos: Pos, temps: seq<TempArea>, ghost ids0: Ids, ghost done: set<Pos>)
      returns (temps': seq<TempArea>)
      requires GrowthHolds(ids0, altitude, done, State(temps)) && pos in Members(ids0, -1) - done
      requires pos in altitude && forall q | q in done :: q in altitude && altitude[q] >= altitude[pos]
      modifies this`areaId, this`rawFrontier, this`areaPairCounter
      ensures Grows(config, nearPeak, old(State(temps)), pos, altitude[pos], State(temps'))
      ensures GrowthHolds(ids0, altitude, done + {pos}, State(temps'))
    {
      hide AreaHolds;
      hide EntriesHold;
      hide NeighbourPair;
      ghost var g := State(temps);
      var first, second := FindNeighboringAreas(pos);
      PairIsLive(ids0, done, areaId, temps, pos, first, second);
      GrowStepKeepsGrowth(config, nearPeak, ids0, altitude, done, g, pos, first, second);
      if first == 0 {
        temps' := temps + [TempArea(true, |temps|, pos, altitude[pos], 1)];
        areaId := areaId[pos := |temps|];
      } else if second == 0 {
        temps' := Add(pos, temps, first);
      } else {
        temps' := PlaceBetween(pos, temps, first, second, ids0, done);
      }
      assert State(temps') == GrowStep(config, nearPeak, g, pos, altitude[pos], first, second);
    }

    method Add(pos: Pos, temps: seq<TempArea>, k: int) returns (temps': seq<TempArea>)
      requires 0 <= k < |temps|
      modifies this`areaId
      ensures State(temps') == JoinArea(old(State(temps)), pos, k)
    {
      temps' := temps[k := temps[k].(size := temps[k].size + 1)];
      areaId := areaId[pos := k];
    }

    /** Two neighbouring areas: the tile makes them merge, or lies on their frontier. */
    method PlaceBetween(pos: Pos, temps: seq<TempArea>, first: int, second: int, ghost ids0: Ids, ghost done: set<Pos>)
      returns (temps': seq<TempArea>)
      requires GrowthHolds(ids0, altitude, done, State(temps)) && pos in Members(ids0, -1) - done && pos in altitude
      requires 0 < first < |temps| && 0 < second < |temps| && first != second
      requires temps[first].valid && temps[second].valid
      requires Touches(areaId, pos, first) && Touches(areaId, pos, second)
      modifies this`areaId, this`rawFrontier, this`areaPairCounter
      ensures State(temps') == GrowStep(config, nearPeak, old(State(temps)), pos, altitude[pos], first, second)
      ensures var was := old(State(temps));
        || Separates(was, pos, first, second, State(temps'))
        || (Fuses(was, pos, first, second, State(temps')) && Members(areaId, first) == {})
        || (Fuses(was, pos, second, first, State(temps')) && Members(areaId, second) == {})
    {
      hide Separates;
      hide Fuses;
      hide Members;
      hide GrowthHolds;
      hide Recolour;
      hide Renamed;
      hide Touches;
      var smaller, bigger := first, second;
      if temps[smaller].size > temps[bigger].size {
        smaller, bigger := bigger, smaller;
      }
      if MergeTest(config, nearPeak, temps[smaller], temps[bigger], altitude[pos]) {
        Unassigned(ids0, altitude, done, State(temps), pos);
        MergeFuses(State(temps), pos, smaller, bigger);
        JoinKeepsGrowth(ids0, altitude, done, State(temps), pos, bigger);
        temps' := Add(pos, temps, bigger);
        temps' := Merge(temps', smaller, bigger, ids0, done + {pos});
      } else {
        ghost var was := State(temps);
        var chosen := ChooseNeighboringArea(smaller, bigger);
        temps' := Add(pos, temps, chosen);
        rawFrontier := rawFrontier + [Frontier(first, second, pos)];
        TileSeparates(was, pos, first, second, chosen, areaPairCounter);
      }
    }

    /** The flood from the absorbed area's top reaches all of it, and nothing else. */
    method Merge(temps: seq<TempArea>, smaller: int, bigger: int, ghost ids0: Ids, ghost done: set<Pos>)
      returns (temps': seq<TempArea>)
      requires GrowthHolds(ids0, altitude, done, State(temps))
      requires 0 < smaller < |temps| && 0 < bigger < |temps| && smaller != bigger && temps[smaller].valid
      modifies this`areaId, this`rawFrontier
      ensures State(temps') == AbsorbArea(old(State(temps)), smaller, bigger)
    {
      assert AreaHolds(areaId, temps[smaller]);
      ConnectedIsOneComponent(Members(areaId, smaller), temps[smaller].top);
      ReplaceAreaIds(temps[smaller].top, bigger);
      temps' := Absorbed(temps, smaller, bigger);
    }
  
    /** Processes the tiles in order. trace records the state before each tile and at the end. Every tile is settled
        between the areas found around it, and the tiles between two areas go to them in turn. */
    method GrowAreas(tiles: seq<Pos>) returns (temps: seq<TempArea>, ghost trace: seq<Growth>)
      requires Descending(altitude, tiles) && Covers(areaId, tiles) && rawFrontier == []
      modifies this`areaId, this`rawFrontier, this`areaPairCounter
      ensures IsGrowth(config, nearPeak, old(areaId), altitude, tiles, trace)
      ensures |trace| == |tiles| + 1 && trace[|tiles|] == State(temps)
      ensures forall i | 0 <= i < |tiles| :: Settled(config, nearPeak, altitude, trace[i], tiles[i], trace[i + 1])
      ensures old(areaPairCounter) == map[] ==> Alternates(tiles, trace)
    {
      hide Grows;
      hide IsGrowth;
      hide Settled;
      hide Alternates;
      hide GrowthHolds;
      temps := [TempArea(false, 0, Pos(0, 0), 0, 0)];
      ghost var start := State(temps);
      trace := [start];
      GrowthStarts(areaId, altitude, areaPairCounter);
      assert Tiles(tiles[..0]) == {};
      for i := 0 to |tiles|
        invariant |trace| == i + 1 && trace[i] == State(temps) && trace[0] == start
        invariant forall j | 0 <= j < i ::
          Grows(config, nearPeak, trace[j], tiles[j], altitude[tiles[j]], trace[j + 1])
        invariant forall j | 0 <= j <= i :: GrowthHolds(old(areaId), altitude, Tiles(tiles[..j]), trace[j])
      {
        NextTile(altitude, old(areaId), tiles, i);
        temps := Place(tiles[i], temps, old(areaId), Tiles(tiles[..i]));
        trace := trace + [State(temps)];
      }
      StepsAreGrowth(config, nearPeak, old(areaId), altitude, tiles, trace);
    }

    /** Grows the areas and drops from the frontier the entries that merges made obsolete; none other is lost. */
    method ComputeTempAreas(tiles: seq<Pos>) returns (temps: seq<TempArea>, ghost trace: seq<Growth>)
      requires Descending(altitude, tiles) && Covers(areaId, tiles) && rawFrontier == []
      modifies this`areaId, this`rawFrontier, this`areaPairCounter
      ensures AreasHold(areaId, temps) && AllLive(areaId, temps) && SumSizes(temps) == |tiles|
      ensures areaId.Keys == old(areaId).Keys
      ensures forall p | p in areaId :: areaId[p] == 0 <==> old(areaId)[p] == 0
      ensures FrontierNumbered(areaId, altitude, rawFrontier)
      ensures IsGrowth(config, nearPeak, old(areaId), altitude, tiles, trace)
      ensures |trace| == |tiles| + 1 && trace[|tiles|].ids == areaId
      ensures old(areaPairCounter) == map[] ==> Alternates(tiles, trace)
      ensures FrontierComplete(tiles, trace, areaId, rawFrontier)
    {
      hide IsGrowth;
      hide FrontierComplete;
      hide Settled;
      hide Alternates;
      temps, trace := GrowAreas(tiles);
      assert tiles[..|tiles|] == tiles;
      GrowthAt(config, nearPeak, old(areaId), altitude, tiles, trace, |tiles|);
      GrownFrontierIsComplete(config, nearPeak, old(areaId), altitude, tiles, trace);
      assert GrowthHolds(old(areaId), altitude, Tiles(tiles), State(temps));
      DistinctTiles(altitude, tiles);
      ObsoleteDropped(areaId, altitude, rawFrontier);
      rawFrontier := WithoutObsolete(rawFrontier);
    }

    /** Gives a valid area its final id. */
    method RenameArea(t: TempArea, newId: int)
      requires t.id > 0 && AreaHolds(areaId, t) && (newId >= 1 || newId <= -2)
      modifies this`areaId, this`rawFrontier
      ensures areaId == Recolour(old(areaId), Members(old(areaId), t.id), newId)
      ensures rawFrontier == if newId > 0 then Renamed(old(rawFrontier), t.id, newId)
                             else Without(old(rawFrontier), t.id)
    {
      if newId != t.id {
        ConnectedIsOneComponent(Members(areaId, t.id), t.top);
        ReplaceAreaIds(t.top, newId);
      }
    }

    method CreateAreas(temps: seq<TempArea>, ghost tiles: seq<Pos>, ghost trace: seq<Growth>)
      returns (areasList: seq<(Pos, int)>)
      requires FrontierComplete(tiles, trace, areaId, rawFrontier)
      requires AreasHold(areaId, temps) && AllLive(areaId, temps) && FrontierNumbered(areaId, altitude, rawFrontier)
      modifies this`areaId, this`rawFrontier
      ensures areaId == IdsAfter(old(areaId), temps, config.areaMinTiles, |temps|)
      ensures rawFrontier == FrontierAfter(old(rawFrontier), temps, config.areaMinTiles, |temps|)
      ensures areasList == AreasList(temps, config.areaMinTiles, |temps|)
      ensures Numbered(areaId, areasList, config.areaMinTiles)
      ensures FrontierNumbered(areaId, altitude, rawFrontier)
      ensures FrontierComplete(tiles, trace, areaId, rawFrontier)
      ensures SameAreas(old(areaId), areaId)
    {
      hide FrontierComplete;
      hide SameAreas;
      hide Numbered;
      hide EntryHolds;
      hide Recolour;
      hide IdsAfter;
      hide FrontierAfter;
      hide AreaHolds;
      areasList := [];
      var newAreaId, newTinyAreaId := 1, -2;
      NothingHandled(areaId, rawFrontier, temps, config.areaMinTiles);
      EntriesAreLive(areaId, temps, rawFrontier);
      for k := 1 to |temps|
        invariant areaId == IdsAfter(old(areaId), temps, config.areaMinTiles, k)
        invariant rawFrontier == FrontierAfter(old(rawFrontier), temps, config.areaMinTiles, k)
        invariant areasList == AreasList(temps, config.areaMinTiles, k)
        invariant newAreaId == 1 + BigCount(temps, config.areaMinTiles, k)
        invariant newTinyAreaId == -2 - TinyCount(temps, config.areaMinTiles, k)
      {
        RenumberOne(old(areaId), temps, config.areaMinTiles, k);
        RenumberFrontier(old(rawFrontier), temps, config.areaMinTiles, k);
        if temps[k].valid {
          SameMembersHold(old(areaId), areaId, temps[k]);
          if temps[k].size >= config.areaMinTiles {
            RenameArea(temps[k], newAreaId);
            areasList := areasList + [(temps[k].top, temps[k].size)];
            newAreaId := newAreaId + 1;
          } else {
            RenameArea(temps[k], newTinyAreaId);
            newTinyAreaId := newTinyAreaId - 1;
          }
        }
      }
      RenumberedIsNumbered(old(areaId), temps, config.areaMinTiles);
      RenumberedFrontierIsNumbered(old(areaId), altitude, temps, config.areaMinTiles, old(rawFrontier));
      RenumberedFrontierIsComplete(tiles, trace, old(areaId), old(rawFrontier), temps, config.areaMinTiles);
      RenumberingKeepsAreas(old(areaId), temps, config.areaMinTiles);
    }
  
    /** Grows, merges and renumbers the areas of the walkable tiles, given in the order to process. */
    method ComputeAreas(tiles: seq<Pos>) returns (areasList: seq<(Pos, int)>, ghost trace: seq<Growth>)
      requires Descending(altitude, tiles) && Covers(areaId, tiles) && rawFrontier == []
      modifies this`areaId, this`rawFrontier, this`areaPairCounter
      ensures areaId.Keys == old(areaId).Keys
      ensures forall p | p in areaId :: areaId[p] == 0 <==> old(areaId)[p] == 0
      ensures Numbered(areaId, areasList, config.areaMinTiles)
      ensures FrontierNumbered(areaId, altitude, rawFrontier)
      ensures IsGrowth(config, nearPeak, old(areaId), altitude, tiles, trace)
      ensures |trace| == |tiles| + 1 && SameAreas(trace[|tiles|].ids, areaId)
      ensures old(areaPairCounter) == map[] ==> Alternates(tiles, trace)
      ensures FrontierComplete(tiles, trace, areaId, rawFrontier)
    {
      hide IsGrowth;
      hide FrontierComplete;
      hide SameAreas;
      hide Alternates;
      var temps;
      temps, trace := ComputeTempAreas(tiles);
      areasList := CreateAreas(temps, tiles, trace);
      ZeroStaysZero(temps, config.areaMinTiles);
    }

    // ---- Seas and lakes ----

    /** One round of the flood over undecided tiles. */
    method SpreadWater(current: Pos, toSearch: seq<Pos>, seaExtent: seq<Pos>,
                       ghost alt0: Ids, ghost C: set<Pos>, ghost V: set<Pos>)
      returns (toSearch': seq<Pos>, seaExtent': seq<Pos>, ghost V': set<Pos>)
      requires Closed(C, Members(alt0, SEA_OR_LAKE))
      requires altitude == Recolour(alt0, V, SEA) && V <= C && current in V
      requires Extent(V, seaExtent, config.lakeMaxTiles)
      requires forall q | q in toSearch :: q in V
      modifies this`altitude
      ensures altitude == Recolour(alt0, V', SEA) && V <= V' <= C
      ensures Extent(V', seaExtent', config.lakeMaxTiles)
      ensures forall q | q in toSearch' :: q in V'
      ensures forall q | q in V' && q !in toSearch' :: q in V && q !in toSearch
      ensures forall b | b in Members(alt0, SEA_OR_LAKE) && Adjacent(current, b) :: b in V'
      ensures V' == V ==> toSearch' == toSearch
    {
      toSearch', seaExtent', V' := toSearch, seaExtent, V;
      for k := 0 to 4
        invariant altitude == Recolour(alt0, V', SEA) && V <= V' <= C
        invariant Extent(V', seaExtent', config.lakeMaxTiles)
        invariant forall q | q in toSearch' :: q in V'
        invariant forall q | q in V' && q !in toSearch' :: q in V && q !in toSearch
        invariant forall j | 0 <= j < k :: Step(current, j) in Members(alt0, SEA_OR_LAKE) ==> Step(current, j) in V'
        invariant V' == V ==> toSearch' == toSearch
      {
        var next := Step(current, k);
        if next in altitude && altitude[next] == SEA_OR_LAKE {
          toSearch' := toSearch' + [next];
          ExtentGrows(V', seaExtent', next, config.lakeMaxTiles);
          if |seaExtent'| <= config.lakeMaxTiles {
            seaExtent' := seaExtent' + [next];
          }
          altitude := altitude[next := SEA];
          V' := V' + {next};
        }
      }
      forall b | b in Members(alt0, SEA_OR_LAKE) && Adjacent(current, b)
        ensures b in V'
      {
        StepsAreAllNeighbours(current, b);
      }
    }

    /** Marks the undecided component of origin as sea; collects its tiles, until they are too
        many for a lake, and its bounding box. */
    method FloodWater(origin: Pos) returns (seaExtent: seq<Pos>, topLeft: Pos, bottomRight: Pos)
      requires origin in altitude && altitude[origin] == SEA_OR_LAKE
      modifies this`altitude
      ensures var C := Component(Members(old(altitude), SEA_OR_LAKE), origin);
        && altitude == Recolour(old(altitude), C, SEA)
        && Extent(C, seaExtent, config.lakeMaxTiles)
        && Spans(C, topLeft, bottomRight)
        && forall p | p in C :: Inside(p, topLeft, bottomRight)
    {
      hide Extent;
      hide Spans;
      hide Component;
      ghost var R := Members(altitude, SEA_OR_LAKE);
      ghost var C := Component(R, origin);
      ComponentIsClosed(R, origin);
      OneTile(origin, config.lakeMaxTiles);
      var toSearch := [origin];
      seaExtent := [origin];
      altitude := altitude[origin := SEA];
      topLeft, bottomRight := origin, origin;
      ghost var V := {origin};
      while toSearch != []
        invariant altitude == Recolour(old(altitude), V, SEA)
        invariant origin in V && V <= C
        invariant forall q | q in toSearch :: q in V
        invariant forall a, b | a in V && a !in toSearch && b in R && Adjacent(a, b) :: b in V
        invariant Extent(V, seaExtent, config.lakeMaxTiles)
        invariant Spans(V, topLeft, bottomRight)
        invariant forall q | q in V && q !in toSearch :: Inside(q, topLeft, bottomRight)
        decreases C - V, |toSearch|
      {
        var current := toSearch[|toSearch| - 1];
        GrownBoxSpans(V, topLeft, bottomRight, current);
        if current.x < topLeft.x { topLeft := topLeft.(x := current.x); }
        if current.y < topLeft.y { topLeft := topLeft.(y := current.y); }
        if current.x > bottomRight.x { bottomRight := bottomRight.(x := current.x); }
        if current.y > bottomRight.y { bottomRight := bottomRight.(y := current.y); }
        ghost var before := V;
        toSearch, seaExtent, V := SpreadWater(current, toSearch[..|toSearch| - 1], seaExtent, old(altitude), C, V);
        LargerStillSpans(before, V, topLeft, bottomRight);
      }
      ComponentIsLeast(R, origin, V);
      assert V == C;
    }
  
    /** Classifies the component of an undecided tile. D holds the tiles decided before. */
    method DecideComponent(origin: Pos, ghost alt0: Ids, ghost D: set<Pos>)
      requires Closed(D, Members(alt0, SEA_OR_LAKE)) && origin in Members(alt0, SEA_OR_LAKE) - D
      requires altitude == Decided(config, alt0, Members(alt0, SEA_OR_LAKE), D)
      modifies this`altitude
      ensures var D' := D + Component(Members(alt0, SEA_OR_LAKE), origin);
        altitude == Decided(config, alt0, Members(alt0, SEA_OR_LAKE), D') && Closed(D', Members(alt0, SEA_OR_LAKE))
    {
      hide Extent;
      hide Spans;
      hide Component;
      hide Decided;
      hide FitsLake;
      ghost var W := Members(alt0, SEA_OR_LAKE);
      ghost var C := Component(W, origin);
      RemainingComponent(W, D, origin);
      OneMoreDecided(config, alt0, W, D, origin);
      var seaExtent, topLeft, bottomRight := FloodWater(origin);
      LakeTestIsExact(config, C, seaExtent, topLeft, bottomRight);
      if |seaExtent| <= config.lakeMaxTiles
        && bottomRight.x - topLeft.x <= config.lakeMaxWidthInTiles
        && bottomRight.y - topLeft.y <= config.lakeMaxWidthInTiles
        && topLeft.x >= 2 && topLeft.y >= 2
        && bottomRight.x < config.width - 2 && bottomRight.y < config.height - 2
      {
        ExtentIsAll(C, seaExtent, config.lakeMaxTiles);
        ghost var flooded := altitude;
        for i := 0 to |seaExtent|
          invariant altitude == Recolour(flooded, Tiles(seaExtent[..i]), LAKE)
        {
          assert seaExtent[i] in Tiles(seaExtent);
          altitude := altitude[seaExtent[i] := LAKE];
          assert Tiles(seaExtent[..i + 1]) == Tiles(seaExtent[..i]) + {seaExtent[i]};
        }
        assert seaExtent[..|seaExtent|] == seaExtent;
      }
    }

    method DecideSeasOrLakes()
      requires altitude.Keys == Cells(config.width, config.height)
      modifies this`altitude
      ensures var W := Members(old(altitude), SEA_OR_LAKE);
        altitude == Decided(config, old(altitude), W, W)
    {
      hide Component;
      hide FitsLake;
      ghost var W := Members(altitude, SEA_OR_LAKE);
      ghost var D: set<Pos> := {};
      for y := 0 to config.height
        invariant altitude == Decided(config, old(altitude), W, D) && Closed(D, W)
        invariant forall p | p in W && p.y < y :: p in D
      {
        for x := 0 to config.width
          invariant altitude == Decided(config, old(altitude), W, D) && Closed(D, W)
          invariant forall p | p in W && (p.y < y || (p.y == y && p.x < x)) :: p in D
        {
          var origin := Pos(x, y);
          if altitude[origin] == SEA_OR_LAKE {
            ComponentIsClosed(W, origin);
            DecideComponent(origin, old(altitude), D);
            D := D + Component(W, origin);
          }
        }
      }
      assert D == W;
    }
  }
}
