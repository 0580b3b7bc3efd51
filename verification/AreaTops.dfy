/** The top of an area: when it is the highest tile, and when a merge loses that. */
module AreaTops {
  import opened Connectivity
  import opened AreaModel

  /** The recorded altitude of a live area is that of its top. */
  ghost predicate TopsHold(altitude: Ids, temps: seq<TempArea>) {
    forall k | 0 <= k < |temps| && temps[k].valid ::
      temps[k].top in altitude && temps[k].highest == altitude[temps[k].top]
  }

  /** No tile of the area is higher than its top. */
  ghost predicate Peaked(altitude: Ids, ids: Ids, t: TempArea) {
    forall p | p in Members(ids, t.id) :: p in altitude && altitude[p] <= t.highest
  }

  ghost predicate AllPeaked(altitude: Ids, g: Growth) {
    forall k | 0 <= k < |g.temps| && g.temps[k].valid :: Peaked(altitude, g.ids, g.temps[k])
  }

  /** The tile makes an area absorb a smaller one whose top is higher. */
  predicate AbsorbsHigher(config: Config, nearPeak: (int, int) -> bool, g: Growth, a: int, first: int, second: int)
    requires 0 <= first < |g.temps| && 0 <= second < |g.temps|
  {
    && first != 0 && second != 0
    && var (s, b) := if g.temps[first].size > g.temps[second].size then (second, first) else (first, second);
    && MergeTest(config, nearPeak, g.temps[s], g.temps[b], a)
    && g.temps[s].highest > g.temps[b].highest
  }

  /** Tiles come in descending order, so a joining tile is no higher than the top. */
  lemma JoinKeepsPeaks(ids0: Ids, altitude: Ids, done: set<Pos>, g: Growth, p: Pos, k: int)
    requires Grown(ids0, done, g.ids, g.temps) && p in Members(ids0, -1) - done
    requires p in altitude && forall q | q in done :: q in altitude && altitude[q] >= altitude[p]
    requires 0 < k < |g.temps| && g.temps[k].valid
    requires TopsHold(altitude, g.temps) && AllPeaked(altitude, g)
    ensures TopsHold(altitude, JoinArea(g, p, k).temps) && AllPeaked(altitude, JoinArea(g, p, k))
  {
    var g' := JoinArea(g, p, k);
    assert AreaHolds(g.ids, g.temps[k]);
    assert g.temps[k].top in done;
    forall j | 0 <= j < |g'.temps| && g'.temps[j].valid
      ensures Peaked(altitude, g'.ids, g'.temps[j])
    {
      assert Peaked(altitude, g.ids, g.temps[j]);
      assert g.temps[j].id == j;
      if j != k {
        assert Members(g'.ids, j) <= Members(g.ids, j);
      }
    }
  }

  lemma StartKeepsPeaks(ids0: Ids, altitude: Ids, done: set<Pos>, g: Growth, p: Pos)
    requires Grown(ids0, done, g.ids, g.temps) && p in Members(ids0, -1) - done && p in altitude
    requires TopsHold(altitude, g.temps) && AllPeaked(altitude, g)
    ensures TopsHold(altitude, StartArea(g, p, altitude[p]).temps) && AllPeaked(altitude, StartArea(g, p, altitude[p]))
  {
    var g' := StartArea(g, p, altitude[p]);
    forall j | 0 <= j < |g'.temps| && g'.temps[j].valid
      ensures Peaked(altitude, g'.ids, g'.temps[j])
    {
      if j < |g.temps| {
        assert Peaked(altitude, g.ids, g.temps[j]) && g.temps[j].id == j;
        assert Members(g'.ids, j) <= Members(g.ids, j);
      } else {
        assert Members(g'.ids, j) == {p};
      }
    }
  }

  /** A merge keeps every top highest exactly when the absorbed top is not the higher one. */
  lemma AbsorbKeepsPeaks(altitude: Ids, g: Growth, s: int, b: int)
    requires AreasHold(g.ids, g.temps) && TopsHold(altitude, g.temps) && AllPeaked(altitude, g)
    requires 0 < s < |g.temps| && 0 < b < |g.temps| && s != b && g.temps[s].valid && g.temps[b].valid
    ensures TopsHold(altitude, AbsorbArea(g, s, b).temps)
    ensures AllPeaked(altitude, AbsorbArea(g, s, b)) <==> g.temps[s].highest <= g.temps[b].highest
  {
    var g' := AbsorbArea(g, s, b);
    var S, B := Members(g.ids, s), Members(g.ids, b);
    assert AreaHolds(g.ids, g.temps[s]) && AreaHolds(g.ids, g.temps[b]);
    assert Members(g'.ids, b) == S + B;
    assert Peaked(altitude, g.ids, g.temps[s]) && Peaked(altitude, g.ids, g.temps[b]);
    assert g'.temps[b].valid;
    if AllPeaked(altitude, g') {
      assert Peaked(altitude, g'.ids, g'.temps[b]);
      assert g.temps[s].top in Members(g'.ids, b);
    }
    forall j | 0 <= j < |g'.temps| && g'.temps[j].valid && j != b
      ensures Peaked(altitude, g'.ids, g'.temps[j])
    {
      assert Peaked(altitude, g.ids, g.temps[j]) && g.temps[j].id == j;
      assert Members(g'.ids, j) <= Members(g.ids, j);
    }
  }

  /** The tile joins area b, which absorbs area s. */
  lemma MergeStepKeepsPeaks(ids0: Ids, altitude: Ids, done: set<Pos>, g: Growth, p: Pos, s: int, b: int)
    requires GrowthHolds(ids0, altitude, done, g) && p in Members(ids0, -1) - done
    requires p in altitude && forall q | q in done :: q in altitude && altitude[q] >= altitude[p]
    requires 0 < s < |g.temps| && 0 < b < |g.temps| && s != b && g.temps[s].valid && g.temps[b].valid
    requires Touches(g.ids, p, b) && TopsHold(altitude, g.temps) && AllPeaked(altitude, g)
    ensures TopsHold(altitude, AbsorbArea(JoinArea(g, p, b), s, b).temps)
    ensures AllPeaked(altitude, AbsorbArea(JoinArea(g, p, b), s, b)) <==> g.temps[s].highest <= g.temps[b].highest
  {
    hide TopsHold;
    hide AllPeaked;
    hide AreaHolds;
    hide AbsorbArea;
    JoinKeepsPeaks(ids0, altitude, done, g, p, b);
    JoinKeepsGrowth(ids0, altitude, done, g, p, b);
    AbsorbKeepsPeaks(altitude, JoinArea(g, p, b), s, b);
  }

  lemma FrontierStepKeepsPeaks(ids0: Ids, altitude: Ids, done: set<Pos>, g: Growth, p: Pos, k: int,
                               frontier: seq<Frontier>, turns: map<(int, int), int>)
    requires GrowthHolds(ids0, altitude, done, g) && p in Members(ids0, -1) - done
    requires p in altitude && forall q | q in done :: q in altitude && altitude[q] >= altitude[p]
    requires 0 < k < |g.temps| && g.temps[k].valid
    requires TopsHold(altitude, g.temps) && AllPeaked(altitude, g)
    ensures var g' := JoinArea(g, p, k).(frontier := frontier, turns := turns);
      TopsHold(altitude, g'.temps) && AllPeaked(altitude, g')
  {
    JoinKeepsPeaks(ids0, altitude, done, g, p, k);
  }

  lemma TwoAreaStepKeepsPeaks(config: Config, nearPeak: (int, int) -> bool, ids0: Ids, altitude: Ids, done: set<Pos>,
                              g: Growth, p: Pos, first: int, second: int)
    requires GrowthHolds(ids0, altitude, done, g) && p in Members(ids0, -1) - done
    requires p in altitude && forall q | q in done :: q in altitude && altitude[q] >= altitude[p]
    requires 0 < first < |g.temps| && 0 < second < |g.temps| && first != second
    requires g.temps[first].valid && g.temps[second].valid
    requires Touches(g.ids, p, first) && Touches(g.ids, p, second)
    requires TopsHold(altitude, g.temps) && AllPeaked(altitude, g)
    ensures var g' := GrowStep(config, nearPeak, g, p, altitude[p], first, second);
      && TopsHold(altitude, g'.temps)
      && (AllPeaked(altitude, g') <==> !AbsorbsHigher(config, nearPeak, g, altitude[p], first, second))
  {
    hide GrowthHolds;
    hide Touches;
    hide JoinArea;
    hide AbsorbArea;
    hide TopsHold;
    hide AllPeaked;
    var (s, b) := if g.temps[first].size > g.temps[second].size then (second, first) else (first, second);
    var key := PairKey(first, second);
    var n := Turn(g.turns, key);
    MergeStepKeepsPeaks(ids0, altitude, done, g, p, s, b);
    FrontierStepKeepsPeaks(ids0, altitude, done, g, p, if n % 2 == 0 then key.0 else key.1,
                           g.frontier + [Frontier(first, second, p)], g.turns[key := n + 1]);
  }

  /** As long as every top is the highest tile of its area, a step keeps it so exactly when the tile
      does not make an area absorb one with a higher top. */
  lemma TopsStayHighest(config: Config, nearPeak: (int, int) -> bool, ids0: Ids, altitude: Ids, done: set<Pos>,
                        g: Growth, p: Pos, first: int, second: int)
    requires GrowthHolds(ids0, altitude, done, g) && p in Members(ids0, -1) - done
    requires p in altitude && forall q | q in done :: q in altitude && altitude[q] >= altitude[p]
    requires NeighbourPair(g.ids, p, first, second)
    requires TopsHold(altitude, g.temps) && AllPeaked(altitude, g)
    ensures 0 <= first < |g.temps| && 0 <= second < |g.temps|
    ensures var g' := GrowStep(config, nearPeak, g, p, altitude[p], first, second);
      && TopsHold(altitude, g'.temps)
      && (AllPeaked(altitude, g') <==> !AbsorbsHigher(config, nearPeak, g, altitude[p], first, second))
  {
    hide NeighbourPair;
    hide EntriesHold;
    hide TopsHold;
    hide AllPeaked;
    hide AreaHolds;
    PairIsLive(ids0, done, g.ids, g.temps, p, first, second);
    if first == 0 {
      StartKeepsPeaks(ids0, altitude, done, g, p);
    } else if second == 0 {
      JoinKeepsPeaks(ids0, altitude, done, g, p, first);
    } else {
      TwoAreaStepKeepsPeaks(config, nearPeak, ids0, altitude, done, g, p, first, second);
    }
  }

  // ---- A map on which the top of an area is not its highest tile ----

  const ROW_CONFIG := Config(0, 0, 1, 2, 0, 4, 1)
  const ROW_ALTITUDE: Ids := map[Pos(0, 0) := 10, Pos(1, 0) := 8, Pos(2, 0) := 9, Pos(3, 0) := 9]
  const ROW_ORDER := [Pos(0, 0), Pos(3, 0), Pos(2, 0), Pos(1, 0)]

  /** The ids of the four tiles of the row. */
  function RowIds(a: int, b: int, c: int, d: int): Ids {
    map[Pos(0, 0) := a, Pos(1, 0) := b, Pos(2, 0) := c, Pos(3, 0) := d]
  }

  const NONE := TempArea(false, 0, Pos(0, 0), 0, 0)
  const WEST := TempArea(true, 1, Pos(0, 0), 10, 1)

  function East(size: int): TempArea {
    TempArea(true, 2, Pos(3, 0), 9, size)
  }

  /** The state before each tile of the order and at the end. */
  function RowState(i: nat): Growth
    requires i <= 4
  {
    match i
    case 0 => Growth(RowIds(-1, -1, -1, -1), [NONE], [], map[])
    case 1 => Growth(RowIds(1, -1, -1, -1), [NONE, WEST], [], map[])
    case 2 => Growth(RowIds(1, -1, -1, 2), [NONE, WEST, East(1)], [], map[])
    case 3 => Growth(RowIds(1, -1, 2, 2), [NONE, WEST, East(2)], [], map[])
    case 4 => Growth(RowIds(2, 2, 2, 2), [NONE, WEST.(valid := false), East(4)], [], map[])
  }

  /** The pair found at a tile with only a western and an eastern neighbour. */
  lemma RowPair(ids: Ids, p: Pos, west: int, east: int)
    requires Near(ids, p, 0) == 0 && Near(ids, p, 3) == 0 && Near(ids, p, 1) == west && Near(ids, p, 2) == east
    ensures NeighbourPair(ids, p, if west > 0 then west else if east > 0 then east else 0,
                          if west > 0 && east > 0 && west != east then east else 0)
  {
    var first := if west > 0 then west else if east > 0 then east else 0;
    if first != 0 {
      var k := if west > 0 then 1 else 2;
      assert Near(ids, p, k) == first && NonePositive(ids, p, k);
    }
  }

  lemma RowPairAt(i: nat)
    requires i < 4
    ensures NeighbourPair(RowState(i).ids, ROW_ORDER[i],
                          if i < 2 then 0 else if i == 2 then 2 else 1, if i == 3 then 2 else 0)
  {
    hide NeighbourPair;
    RowPair(RowState(i).ids, ROW_ORDER[i],
            if i == 3 then 1 else if i == 0 then 0 else -1, if i < 1 then -1 else if i == 1 then 0 else 2);
  }

  lemma RowStarts(nearPeak: (int, int) -> bool, i: nat)
    requires i < 2
    ensures var p := ROW_ORDER[i];
      GrowStep(ROW_CONFIG, nearPeak, RowState(i), p, ROW_ALTITUDE[p], 0, 0) == RowState(i + 1)
  {
  }

  lemma RowJoins(nearPeak: (int, int) -> bool)
    ensures GrowStep(ROW_CONFIG, nearPeak, RowState(2), ROW_ORDER[2], ROW_ALTITUDE[ROW_ORDER[2]], 2, 0) == RowState(3)
  {
  }

  lemma RowMerges(nearPeak: (int, int) -> bool)
    ensures GrowStep(ROW_CONFIG, nearPeak, RowState(3), ROW_ORDER[3], ROW_ALTITUDE[ROW_ORDER[3]], 1, 2) == RowState(4)
  {
    var g := JoinArea(RowState(3), Pos(1, 0), 2);
    assert Recolour(g.ids, Members(g.ids, 1), 2) == RowIds(2, 2, 2, 2);
    assert Renamed([], 1, 2) == [];
  }

  /** On this row, whatever the altitude ratios, the western area with the higher top is absorbed:
      its tile of altitude 10 ends up in an area whose top has altitude 9. */
  lemma TopNeedNotBeHighest(nearPeak: (int, int) -> bool)
    ensures Descending(ROW_ALTITUDE, ROW_ORDER) && Covers(RowState(0).ids, ROW_ORDER)
    ensures forall i | 0 <= i < 4 ::
      Grows(ROW_CONFIG, nearPeak, RowState(i), ROW_ORDER[i], ROW_ALTITUDE[ROW_ORDER[i]], RowState(i + 1))
    ensures !AllPeaked(ROW_ALTITUDE, RowState(4))
  {
    hide NeighbourPair;
    hide GrowStep;
    forall i | 0 <= i < 4
      ensures Grows(ROW_CONFIG, nearPeak, RowState(i), ROW_ORDER[i], ROW_ALTITUDE[ROW_ORDER[i]], RowState(i + 1))
    {
      RowPairAt(i);
      if i < 2 {
        RowStarts(nearPeak, i);
      } else if i == 2 {
        RowJoins(nearPeak);
      } else {
        RowMerges(nearPeak);
      }
    }
    RowCovers();
    assert Pos(0, 0) in Members(RowState(4).ids, 2) && !Peaked(ROW_ALTITUDE, RowState(4).ids, RowState(4).temps[2]);
  }

  lemma RowCovers()
    ensures Covers(RowState(0).ids, ROW_ORDER)
  {
    assert Tiles(ROW_ORDER) == {Pos(0, 0), Pos(3, 0), Pos(2, 0), Pos(1, 0)};
  }
}
