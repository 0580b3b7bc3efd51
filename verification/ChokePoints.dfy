/** Choke points: the raw frontier dispatched by pair of areas and clustered into paths. */
module ChokePoints {
  import opened Connectivity
  import opened AreaModel
  import AreaGroups

  type Pair = (int, int)

  function Abs(x: int): int {
    if x < 0 then -x else x
  }

  function QueenDist(p: Pos, q: Pos): int {
    var dx, dy := Abs(p.x - q.x), Abs(p.y - q.y);
    if dx > dy then dx else dy
  }

  const CLUSTER_MIN_DIST := 1

  // ---- Clustering ----

  predicate Near8(c: seq<Pos>, w: Pos)
    requires c != []
  {
    QueenDist(c[0], w) <= CLUSTER_MIN_DIST || QueenDist(c[|c| - 1], w) <= CLUSTER_MIN_DIST
  }

  function Extend(c: seq<Pos>, w: Pos): seq<Pos>
    requires c != []
  {
    if QueenDist(c[0], w) < QueenDist(c[|c| - 1], w) then [w] + c else c + [w]
  }

  predicate NonEmpty(cs: seq<seq<Pos>>) {
    forall i | 0 <= i < |cs| :: cs[i] != []
  }

  /** The first cluster with an end beside w takes it; otherwise w starts a cluster. */
  function Attach(cs: seq<seq<Pos>>, w: Pos): (r: seq<seq<Pos>>)
    requires NonEmpty(cs)
    ensures NonEmpty(r)
  {
    if cs == [] then [[w]]
    else if Near8(cs[0], w) then [Extend(cs[0], w)] + cs[1..]
    else [cs[0]] + Attach(cs[1..], w)
  }

  function Clusters(tiles: seq<Pos>): (r: seq<seq<Pos>>)
    ensures NonEmpty(r)
  {
    if tiles == [] then [] else Attach(Clusters(tiles[..|tiles| - 1]), tiles[|tiles| - 1])
  }

  lemma {:induction false} AttachSkips(cs: seq<seq<Pos>>, w: Pos, i: nat)
    requires NonEmpty(cs) && i <= |cs| && forall j | 0 <= j < i :: !Near8(cs[j], w)
    ensures Attach(cs, w) == cs[..i] + Attach(cs[i..], w)
  {
    if i > 0 {
      AttachSkips(cs[1..], w, i - 1);
      assert cs[1..][i - 1..] == cs[i..];
      assert cs[..i] == [cs[0]] + cs[1..][..i - 1];
    }
  }

  // ---- What clustering does, in coordinates ----

  predicate Within(p: Pos, q: Pos, d: int) {
    -d <= p.x - q.x <= d && -d <= p.y - q.y <= d
  }

  /** The tile is, or lies beside or across a corner of, an end of the cluster. */
  predicate TouchesEnd(c: seq<Pos>, w: Pos) {
    c != [] && (Within(c[0], w, 1) || Within(c[|c| - 1], w, 1))
  }

  /** The tile is put at the nearer end, at the back if neither is nearer. */
  ghost predicate Lengthens(c: seq<Pos>, w: Pos, c': seq<Pos>) {
    && c != []
    && c' == if exists d :: Within(c[0], w, d) && !Within(c[|c| - 1], w, d) then [w] + c else c + [w]
  }

  /** A tile that touches no end of a cluster starts one; otherwise the first cluster with a touching end gains it
      and the others stay. */
  ghost predicate TileClusters(cs: seq<seq<Pos>>, w: Pos, cs': seq<seq<Pos>>) {
    if forall j | 0 <= j < |cs| :: !TouchesEnd(cs[j], w) then cs' == cs + [[w]]
    else exists i: nat :: GainedAt(cs, w, cs', i)
  }

  ghost predicate GainedAt(cs: seq<seq<Pos>>, w: Pos, cs': seq<seq<Pos>>, i: nat) {
    && |cs'| == |cs| && i < |cs| && TouchesEnd(cs[i], w) && (forall j | 0 <= j < i :: !TouchesEnd(cs[j], w))
    && Lengthens(cs[i], w, cs'[i]) && (forall j | 0 <= j < |cs| && j != i :: cs'[j] == cs[j])
  }

  /** The clusters arise from the tiles, taken one after the other. */
  ghost predicate IsClustering(tiles: seq<Pos>, cs: seq<seq<Pos>>) {
    exists run: seq<seq<seq<Pos>>> :: ClusteringRun(tiles, run) && run[|tiles|] == cs
  }

  ghost predicate ClusteringRun(tiles: seq<Pos>, run: seq<seq<seq<Pos>>>) {
    && |run| == |tiles| + 1 && run[0] == []
    && forall k | 0 <= k < |tiles| :: TileClusters(run[k], tiles[k], run[k + 1])
  }

  lemma DistIsWithin(p: Pos, q: Pos, d: int)
    ensures QueenDist(p, q) <= d <==> Within(p, q, d)
  {
  }

  lemma EndsTouch(c: seq<Pos>, w: Pos)
    requires c != []
    ensures Near8(c, w) <==> TouchesEnd(c, w)
  {
    DistIsWithin(c[0], w, 1);
    DistIsWithin(c[|c| - 1], w, 1);
  }

  lemma ExtendLengthens(c: seq<Pos>, w: Pos)
    requires c != []
    ensures Lengthens(c, w, Extend(c, w))
  {
    var front, back := QueenDist(c[0], w), QueenDist(c[|c| - 1], w);
    forall d
      ensures Within(c[0], w, d) <==> front <= d
      ensures Within(c[|c| - 1], w, d) <==> back <= d
    {
      DistIsWithin(c[0], w, d);
      DistIsWithin(c[|c| - 1], w, d);
    }
    hide QueenDist;
    hide Within;
    if front < back {
      assert Within(c[0], w, front) && !Within(c[|c| - 1], w, front);
    }
  }

  lemma {:induction false} AttachClusters(cs: seq<seq<Pos>>, w: Pos)
    requires NonEmpty(cs)
    ensures TileClusters(cs, w, Attach(cs, w))
  {
    hide Lengthens;
    hide TouchesEnd;
    hide Near8;
    if cs != [] {
      EndsTouch(cs[0], w);
      ExtendLengthens(cs[0], w);
      hide Extend;
      if Near8(cs[0], w) {
        assert GainedAt(cs, w, Attach(cs, w), 0);
      } else {
        AttachClusters(cs[1..], w);
        LaterClusters(cs, w, Attach(cs[1..], w));
      }
    }
  }

  lemma LaterGain(cs: seq<seq<Pos>>, w: Pos, rest: seq<seq<Pos>>, i: nat)
    requires cs != [] && !TouchesEnd(cs[0], w) && GainedAt(cs[1..], w, rest, i)
    ensures GainedAt(cs, w, [cs[0]] + rest, i + 1)
  {
    hide Lengthens;
    hide TouchesEnd;
    forall j | 0 <= j < i + 1
      ensures !TouchesEnd(cs[j], w)
    {
      assert j > 0 ==> cs[j] == cs[1..][j - 1];
    }
  }

  lemma LaterClusters(cs: seq<seq<Pos>>, w: Pos, rest: seq<seq<Pos>>)
    requires cs != [] && !TouchesEnd(cs[0], w) && TileClusters(cs[1..], w, rest)
    ensures TileClusters(cs, w, [cs[0]] + rest)
  {
    hide TouchesEnd;
    if forall j | 0 <= j < |cs[1..]| :: !TouchesEnd(cs[1..][j], w) {
      forall j | 0 <= j < |cs|
        ensures !TouchesEnd(cs[j], w)
      {
        assert j > 0 ==> cs[j] == cs[1..][j - 1];
      }
    } else {
      hide GainedAt;
      var i: nat :| GainedAt(cs[1..], w, rest, i);
      LaterGain(cs, w, rest, i);
      var k :| 0 <= k < |cs[1..]| && TouchesEnd(cs[1..][k], w);
      assert TouchesEnd(cs[k + 1], w);
    }
  }

  lemma ClustersArise(tiles: seq<Pos>)
    ensures IsClustering(tiles, Clusters(tiles))
  {
    var run := seq(|tiles| + 1, k requires 0 <= k <= |tiles| => Clusters(tiles[..k]));
    forall k | 0 <= k < |tiles|
      ensures TileClusters(run[k], tiles[k], run[k + 1])
    {
      assert tiles[..k + 1][..k] == tiles[..k];
      AttachClusters(run[k], tiles[k]);
    }
    hide TileClusters;
    assert tiles[..|tiles|] == tiles;
    assert ClusteringRun(tiles, run);
  }

  method AddToClusters(cs: seq<seq<Pos>>, w: Pos) returns (r: seq<seq<Pos>>)
    requires NonEmpty(cs)
    ensures r == Attach(cs, w) && TileClusters(cs, w, r)
  {
    hide TileClusters;
    AttachClusters(cs, w);
    r := cs;
    for i := 0 to |cs|
      invariant r == cs && forall j | 0 <= j < i :: !Near8(cs[j], w)
    {
      var distToFront := QueenDist(r[i][0], w);
      var distToBack := QueenDist(r[i][|r[i]| - 1], w);
      if distToFront <= CLUSTER_MIN_DIST || distToBack <= CLUSTER_MIN_DIST {
        AttachSkips(cs, w, i);
        r := r[i := if distToFront < distToBack then [w] + r[i] else r[i] + [w]];
        return;
      }
    }
    AttachSkips(cs, w, |cs|);
    r := r + [[w]];
  }

  method ClusterFrontier(tiles: seq<Pos>) returns (clusters: seq<seq<Pos>>)
    ensures clusters == Clusters(tiles) && IsClustering(tiles, clusters)
  {
    hide IsClustering;
    hide TileClusters;
    clusters := [];
    for i := 0 to |tiles|
      invariant clusters == Clusters(tiles[..i])
    {
      assert tiles[..i + 1][..i] == tiles[..i];
      clusters := AddToClusters(clusters, tiles[i]);
    }
    assert tiles[..|tiles|] == tiles;
    ClustersArise(tiles);
  }

  /** Consecutive tiles touch, by side or by corner. */
  ghost predicate Path8(c: seq<Pos>) {
    forall i | 0 <= i < |c| - 1 :: QueenDist(c[i], c[i + 1]) <= 1
  }

  /** Altitude falls from one tile, the centre, to both ends. */
  ghost predicate Peaked(altitude: Ids, c: seq<Pos>) {
    && (forall i | 0 <= i < |c| :: c[i] in altitude)
    && exists m | 0 <= m < |c| :: PeakAt(altitude, c, m)
  }

  ghost predicate PeakAt(altitude: Ids, c: seq<Pos>, m: nat)
    requires forall i | 0 <= i < |c| :: c[i] in altitude
  {
    && (forall i, j | 0 <= i <= j <= m && j < |c| :: altitude[c[i]] <= altitude[c[j]])
    && (forall i, j | m <= i <= j < |c| :: altitude[c[i]] >= altitude[c[j]])
  }

  ghost predicate ClusterHolds(altitude: Ids, low: int, c: seq<Pos>) {
    && c != [] && Path8(c) && Peaked(altitude, c)
    && forall i | 0 <= i < |c| :: altitude[c[i]] >= low
  }

  ghost function Total(cs: seq<seq<Pos>>): multiset<Pos> {
    if cs == [] then multiset{} else multiset(cs[0]) + Total(cs[1..])
  }

  lemma ExtendPath(c: seq<Pos>, w: Pos)
    requires c != [] && Path8(c) && Near8(c, w)
    ensures Path8(Extend(c, w)) && multiset(Extend(c, w)) == multiset(c) + multiset{w}
  {
    DistIsSymmetric(c[0], w);
    hide QueenDist;
    var c' := Extend(c, w);
    forall i | 0 <= i < |c'| - 1
      ensures QueenDist(c'[i], c'[i + 1]) <= 1
    {
      if c' == [w] + c {
        assert i > 0 ==> c'[i] == c[i - 1] && c'[i + 1] == c[i - 1 + 1];
      } else {
        assert c' == c + [w];
      }
    }
  }

  lemma DistIsSymmetric(p: Pos, q: Pos)
    ensures QueenDist(p, q) == QueenDist(q, p)
  {
  }

  lemma ExtendPeak(altitude: Ids, c: seq<Pos>, w: Pos)
    requires c != [] && Peaked(altitude, c) && w in altitude
    requires forall i | 0 <= i < |c| :: altitude[c[i]] >= altitude[w]
    ensures Peaked(altitude, Extend(c, w))
  {
    var m :| 0 <= m < |c| && PeakAt(altitude, c, m);
    var c' := Extend(c, w);
    if c' == [w] + c {
      assert PeakAt(altitude, c', m + 1);
    } else {
      assert PeakAt(altitude, c', m);
    }
  }

  lemma ExtendHolds(altitude: Ids, low: int, c: seq<Pos>, w: Pos)
    requires ClusterHolds(altitude, low, c) && Near8(c, w) && w in altitude && altitude[w] <= low
    ensures ClusterHolds(altitude, altitude[w], Extend(c, w))
    ensures multiset(Extend(c, w)) == multiset(c) + multiset{w}
  {
    ExtendPath(c, w);
    ExtendPeak(altitude, c, w);
    hide Path8;
    hide PeakAt;
  }

  lemma LowerBoundHolds(altitude: Ids, low: int, low': int, c: seq<Pos>)
    requires ClusterHolds(altitude, low, c) && low' <= low
    ensures ClusterHolds(altitude, low', c)
  {
  }

  lemma StartHolds(altitude: Ids, w: Pos)
    requires w in altitude
    ensures ClusterHolds(altitude, altitude[w], [w])
  {
    assert PeakAt(altitude, [w], 0);
  }

  lemma {:induction false} AttachHolds(altitude: Ids, low: int, cs: seq<seq<Pos>>, w: Pos)
    requires NonEmpty(cs) && w in altitude && altitude[w] <= low
    requires forall i | 0 <= i < |cs| :: ClusterHolds(altitude, low, cs[i])
    ensures forall i | 0 <= i < |Attach(cs, w)| :: ClusterHolds(altitude, altitude[w], Attach(cs, w)[i])
    ensures Total(Attach(cs, w)) == Total(cs) + multiset{w}
  {
    hide ClusterHolds;
    hide Near8;
    hide Extend;
    if cs == [] {
      StartHolds(altitude, w);
    } else if Near8(cs[0], w) {
      ExtendHolds(altitude, low, cs[0], w);
      forall i | 1 <= i < |cs| {
        LowerBoundHolds(altitude, low, altitude[w], cs[i]);
      }
      assert Attach(cs, w)[1..] == cs[1..];
    } else {
      LowerBoundHolds(altitude, low, altitude[w], cs[0]);
      AttachHolds(altitude, low, cs[1..], w);
      assert Attach(cs, w)[1..] == Attach(cs[1..], w);
    }
  }

  lemma {:induction false} ClustersHold(altitude: Ids, tiles: seq<Pos>)
    requires Descending(altitude, tiles)
    ensures Total(Clusters(tiles)) == multiset(tiles)
    ensures tiles != [] ==>
      forall i | 0 <= i < |Clusters(tiles)| :: ClusterHolds(altitude, altitude[tiles[|tiles| - 1]], Clusters(tiles)[i])
  {
    hide ClusterHolds;
    hide Attach;
    if tiles != [] {
      var n := |tiles| - 1;
      ClustersHold(altitude, tiles[..n]);
      assert tiles == tiles[..n] + [tiles[n]];
      var low := if n > 0 then altitude[tiles[n - 1]] else altitude[tiles[n]];
      AttachHolds(altitude, low, Clusters(tiles[..n]), tiles[n]);
    }
  }

  /** The frontier tiles of a pair, no two alike, in nonincreasing altitude. */
  lemma ClustersSplit(altitude: Ids, tiles: seq<Pos>)
    requires Descending(altitude, tiles)
    ensures forall i | 0 <= i < |Clusters(tiles)| ::
      Path8(Clusters(tiles)[i]) && Peaked(altitude, Clusters(tiles)[i])
    ensures Total(Clusters(tiles)) == multiset(tiles)
  {
    ClustersHold(altitude, tiles);
    assert tiles == [] ==> Clusters(tiles) == [];
    hide Clusters;
    hide Path8;
    hide Peaked;
  }

  // ---- Dispatching by pair ----

  function KeyOf(f: Frontier): Pair {
    PairKey(f.areaId1, f.areaId2)
  }

  /** The tiles of the entries between the two areas of key, in frontier order. */
  function PairTiles(fs: seq<Frontier>, key: Pair): seq<Pos> {
    if fs == [] then []
    else PairTiles(fs[..|fs| - 1], key) + if KeyOf(fs[|fs| - 1]) == key then [fs[|fs| - 1].pos] else []
  }

  lemma {:induction false} PairTilesOrdered(altitude: Ids, fs: seq<Frontier>, key: Pair)
    requires Ordered(altitude, fs)
    ensures Descending(altitude, PairTiles(fs, key))
    ensures forall p | p in PairTiles(fs, key) :: exists i | 0 <= i < |fs| :: fs[i].pos == p && KeyOf(fs[i]) == key
  {
    if fs != [] {
      var n := |fs| - 1;
      var before := PairTiles(fs[..n], key);
      PairTilesOrdered(altitude, fs[..n], key);
      assert forall i | 0 <= i < |before| :: before[i] in before;
      forall p | p in before
        ensures exists i | 0 <= i < n :: fs[i].pos == p && KeyOf(fs[i]) == key
        ensures p != fs[n].pos && altitude[p] >= altitude[fs[n].pos]
      {
        var i :| 0 <= i < n && fs[..n][i].pos == p && KeyOf(fs[..n][i]) == key;
        assert fs[i].pos == p;
      }
    }
  }

  /** A pair has tiles exactly when some entry names its two areas. */
  lemma {:induction false} PairHasTiles(fs: seq<Frontier>, key: Pair)
    ensures PairTiles(fs, key) != [] <==> exists i | 0 <= i < |fs| :: KeyOf(fs[i]) == key
  {
    if fs != [] {
      var n := |fs| - 1;
      PairHasTiles(fs[..n], key);
      assert forall i | 0 <= i < n :: fs[..n][i] == fs[i];
      if i :| 0 <= i < |fs| && KeyOf(fs[i]) == key {
        assert i < n ==> KeyOf(fs[..n][i]) == key;
      }
    }
  }

  lemma {:induction false} EntryIsListed(fs: seq<Frontier>, i: nat)
    requires i < |fs|
    ensures fs[i].pos in PairTiles(fs, KeyOf(fs[i]))
  {
    var n := |fs| - 1;
    if i < n {
      EntryIsListed(fs[..n], i);
    }
  }

  lemma {:induction false} DistinctCounts(altitude: Ids, tiles: seq<Pos>, p: Pos)
    requires Descending(altitude, tiles)
    ensures multiset(tiles)[p] == if p in tiles then 1 else 0
  {
    if tiles != [] {
      var n := |tiles| - 1;
      DistinctCounts(altitude, tiles[..n], p);
      assert tiles == tiles[..n] + [tiles[n]];
    }
  }

  /** The choke points of a pair: paths that fall off to both ends, holding every frontier tile between
      the two areas, no other tile, and none twice. */
  lemma ChokePointsPartitionFrontier(altitude: Ids, fs: seq<Frontier>, key: Pair, p: Pos)
    requires Ordered(altitude, fs)
    ensures var cs := Clusters(PairTiles(fs, key));
      && (forall i | 0 <= i < |cs| :: cs[i] != [] && Path8(cs[i]) && Peaked(altitude, cs[i]))
      && (Total(cs)[p] == if exists i | 0 <= i < |fs| :: fs[i].pos == p && KeyOf(fs[i]) == key then 1 else 0)
  {
    hide Peaked;
    var tiles := PairTiles(fs, key);
    PairTilesOrdered(altitude, fs, key);
    ClustersSplit(altitude, tiles);
    DistinctCounts(altitude, tiles, p);
    if i :| 0 <= i < |fs| && fs[i].pos == p && KeyOf(fs[i]) == key {
      EntryIsListed(fs, i);
    }
  }

  method Dispatch(fs: seq<Frontier>) returns (byPair: map<Pair, seq<Pos>>)
    ensures forall key :: key in byPair <==> PairTiles(fs, key) != []
    ensures forall key | key in byPair :: byPair[key] == PairTiles(fs, key)
  {
    byPair := map[];
    for i := 0 to |fs|
      invariant forall key :: key in byPair <==> PairTiles(fs[..i], key) != []
      invariant forall key | key in byPair :: byPair[key] == PairTiles(fs[..i], key)
    {
      var a, b := fs[i].areaId1, fs[i].areaId2;
      if a > b {
        a, b := b, a;
      }
      assert fs[..i + 1][..i] == fs[..i];
      byPair := byPair[(a, b) := (if (a, b) in byPair then byPair[(a, b)] else []) + [fs[i].pos]];
    }
    assert fs[..|fs|] == fs;
  }

  /** One choke point per cluster, for every pair of areas with a frontier. */
  method BuildMatrix(fs: seq<Frontier>) returns (matrix: map<Pair, seq<seq<Pos>>>)
    ensures forall key :: key in matrix <==> PairTiles(fs, key) != []
    ensures forall key | key in matrix :: matrix[key] == Clusters(PairTiles(fs, key))
    ensures forall key | key in matrix :: IsClustering(PairTiles(fs, key), matrix[key])
  {
    hide IsClustering;
    var byPair := Dispatch(fs);
    matrix := map[];
    var rest := byPair.Keys;
    while rest != {}
      invariant rest <= byPair.Keys && matrix.Keys == byPair.Keys - rest
      invariant forall key | key in matrix ::
        matrix[key] == Clusters(byPair[key]) && IsClustering(byPair[key], matrix[key])
      decreases |rest|
    {
      var key :| key in rest;
      var clusters := ClusterFrontier(byPair[key]);
      matrix := matrix[key := clusters];
      rest := rest - {key};
    }
  }

  predicate HasChokes(matrix: map<Pair, seq<seq<Pos>>>, a: int, b: int) {
    PairKey(a, b) in matrix && matrix[PairKey(a, b)] != []
  }

  /** The pairs visited once rows before a are done and row a up to b. */
  predicate Visited(a: int, b: int, i: int, j: int) {
    0 <= i && 0 <= j && i != j && ((i < a && j < a) || (i == a && j < b) || (j == a && i < b))
  }

  /** Links two areas, both ways, when they have a choke point. Area id n is node n - 1. */
  method LinkAreas(count: nat, matrix: map<Pair, seq<seq<Pos>>>) returns (g: AreaGroups.Graph)
    ensures |g| == count
    ensures forall a, b | 0 <= a < count :: b in g[a] <==> 0 <= b < count && b != a && HasChokes(matrix, a + 1, b + 1)
  {
    g := seq(count, _ => []);
    for a := 0 to count
      invariant |g| == count
      invariant forall i, j | 0 <= i < count ::
        j in g[i] <==> Visited(a, 0, i, j) && HasChokes(matrix, i + 1, j + 1)
    {
      for b := 0 to a
        invariant |g| == count
        invariant forall i, j | 0 <= i < count ::
          j in g[i] <==> Visited(a, b, i, j) && HasChokes(matrix, i + 1, j + 1)
      {
        if HasChokes(matrix, a + 1, b + 1) {
          g := g[a := g[a] + [b]];
          g := g[b := g[b] + [a]];
        }
      }
    }
  }

  lemma TilesCluster(tiles: seq<Pos>)
    requires tiles != []
    ensures Clusters(tiles) != []
  {
  }

  lemma LinksAreSymmetric(g: AreaGroups.Graph, matrix: map<Pair, seq<seq<Pos>>>)
    requires forall a, b | 0 <= a < |g| :: b in g[a] <==> 0 <= b < |g| && b != a && HasChokes(matrix, a + 1, b + 1)
    ensures AreaGroups.Symmetric(g)
  {
    assert forall a, i | 0 <= a < |g| && 0 <= i < |g[a]| :: g[a][i] in g[a];
  }

  /** Choke points and the area graph they make. */
  method CreateChokePoints(fs: seq<Frontier>, count: nat)
    returns (matrix: map<Pair, seq<seq<Pos>>>, g: AreaGroups.Graph)
    requires forall i | 0 <= i < |fs| :: 1 <= fs[i].areaId1 <= count && 1 <= fs[i].areaId2 <= count
    ensures forall key :: key in matrix <==> exists i | 0 <= i < |fs| :: KeyOf(fs[i]) == key
    ensures forall key | key in matrix :: matrix[key] == Clusters(PairTiles(fs, key)) != []
    ensures forall key | key in matrix :: IsClustering(PairTiles(fs, key), matrix[key])
    ensures |g| == count && AreaGroups.Symmetric(g)
    ensures forall a, b | 0 <= a < count :: b in g[a] <==> 0 <= b < count && b != a && PairKey(a + 1, b + 1) in matrix
  {
    hide IsClustering;
    hide Clusters;
    hide PairTiles;
    matrix := BuildMatrix(fs);
    forall key
      ensures PairTiles(fs, key) != [] <==> exists i | 0 <= i < |fs| :: KeyOf(fs[i]) == key
    {
      PairHasTiles(fs, key);
    }
    forall key | key in matrix
      ensures matrix[key] != []
    {
      TilesCluster(PairTiles(fs, key));
    }
    g := LinkAreas(count, matrix);
    LinksAreSymmetric(g, matrix);
  }
}
