/** What deciding seas and lakes has to compute: one class per component of unwalkable tiles. */
module SeaLake {
  import opened Connectivity
  import opened AreaModel

  const SEA := 0
  const SEA_OR_LAKE := 1
  const LAKE := -1
  /** Altitudes are computed later: for walkable tiles, and for lakes too. */
  const UNSET := -1

  ghost predicate FitsLake(config: Config, C: set<Pos>) {
    && |C| <= config.lakeMaxTiles
    && (forall p | p in C :: 2 <= p.x < config.width - 2 && 2 <= p.y < config.height - 2)
    && (forall p, q | p in C && q in C ::
          p.x - q.x <= config.lakeMaxWidthInTiles && p.y - q.y <= config.lakeMaxWidthInTiles)
  }

  /** The altitudes once the tiles of D, undecided in alt, are classified by their component in W. */
  ghost function Decided(config: Config, alt: Ids, W: set<Pos>, D: set<Pos>): Ids {
    map p | p in alt ::
      if p in D then (if FitsLake(config, Component(W, p)) then LAKE else SEA) else alt[p]
  }

  /** Every side of the box is needed: some tile lies on it. */
  ghost predicate Spans(V: set<Pos>, topLeft: Pos, bottomRight: Pos) {
    && (exists p | p in V :: p.x == topLeft.x)
    && (exists p | p in V :: p.y == topLeft.y)
    && (exists p | p in V :: p.x == bottomRight.x)
    && (exists p | p in V :: p.y == bottomRight.y)
  }

  predicate Inside(p: Pos, topLeft: Pos, bottomRight: Pos) {
    topLeft.x <= p.x <= bottomRight.x && topLeft.y <= p.y <= bottomRight.y
  }

  function Grow(topLeft: Pos, bottomRight: Pos, p: Pos): (Pos, Pos) {
    (Pos(if p.x < topLeft.x then p.x else topLeft.x, if p.y < topLeft.y then p.y else topLeft.y),
     Pos(if p.x > bottomRight.x then p.x else bottomRight.x, if p.y > bottomRight.y then p.y else bottomRight.y))
  }

  lemma GrownBoxSpans(V: set<Pos>, topLeft: Pos, bottomRight: Pos, p: Pos)
    requires Spans(V, topLeft, bottomRight) && p in V
    ensures Spans(V, Grow(topLeft, bottomRight, p).0, Grow(topLeft, bottomRight, p).1)
    ensures Inside(p, Grow(topLeft, bottomRight, p).0, Grow(topLeft, bottomRight, p).1)
    ensures forall q | Inside(q, topLeft, bottomRight) ::
      Inside(q, Grow(topLeft, bottomRight, p).0, Grow(topLeft, bottomRight, p).1)
  {
  }

  /** The list of tiles kept while flooding V: all of V, unless V is too large for a lake. */
  ghost predicate Extent(V: set<Pos>, extent: seq<Pos>, lakeMaxTiles: int) {
    if |extent| <= lakeMaxTiles then Tiles(extent) == V && |extent| == |V| else |V| > lakeMaxTiles
  }

  lemma LakeTestIsExact(config: Config, C: set<Pos>, extent: seq<Pos>, topLeft: Pos, bottomRight: Pos)
    requires Extent(C, extent, config.lakeMaxTiles) && Spans(C, topLeft, bottomRight)
    requires forall p | p in C :: Inside(p, topLeft, bottomRight)
    ensures FitsLake(config, C) <==>
      && |extent| <= config.lakeMaxTiles
      && bottomRight.x - topLeft.x <= config.lakeMaxWidthInTiles
      && bottomRight.y - topLeft.y <= config.lakeMaxWidthInTiles
      && topLeft.x >= 2 && topLeft.y >= 2 && bottomRight.x < config.width - 2 && bottomRight.y < config.height - 2
  {
  }

  /** Components do not see tiles that are already decided. */
  lemma RemainingComponent(W: set<Pos>, D: set<Pos>, p: Pos)
    requires Closed(D, W) && p in W - D
    ensures Component(W - D, p) == Component(W, p) <= W - D
    ensures Closed(D + Component(W, p), W)
  {
    var C, C' := Component(W, p), Component(W - D, p);
    ComponentIsClosed(W, p);
    ComponentIsClosed(W - D, p);
    ComponentSurvives(W, D, p);
    ComplementIsClosed(D, W);
    assert Closed(C, W - D);
    ComponentIsLeast(W - D, p, C);
    assert Closed(C', W);
    ComponentIsLeast(W, p, C');
  }

  lemma OneMoreDecided(config: Config, alt: Ids, W: set<Pos>, D: set<Pos>, p: Pos)
    requires W == Members(alt, SEA_OR_LAKE) && Closed(D, W) && p in W - D
    ensures Decided(config, alt, W, D + Component(W, p)) ==
      Recolour(Decided(config, alt, W, D), Component(W, p), if FitsLake(config, Component(W, p)) then LAKE else SEA)
    ensures Members(Decided(config, alt, W, D), SEA_OR_LAKE) == W - D
  {
    hide FitsLake;
    forall q | q in Component(W, p)
      ensures Component(W, q) == Component(W, p)
    {
      ComponentsCoincide(W, p, q);
    }
    ComponentSurvives(W, D, p);
  }

  /** All tiles of a component get one class, and walkable tiles keep what they had. */
  lemma OneClassPerComponent(config: Config, alt: Ids, p: Pos, q: Pos)
    requires p in alt && q in alt
    ensures var W := Members(alt, SEA_OR_LAKE);
      var done := Decided(config, alt, W, W);
      && (p in W && q in Component(W, p) ==> q in W && done[q] == done[p])
      && (p in W ==> done[p] == if FitsLake(config, Component(W, p)) then LAKE else SEA)
      && (p !in W ==> done[p] == alt[p])
  {
    hide FitsLake;
    var W := Members(alt, SEA_OR_LAKE);
    if p in W && q in Component(W, p) {
      ComponentsCoincide(W, p, q);
      ComponentIsClosed(W, p);
    }
  }

  lemma OneTile(p: Pos, lakeMaxTiles: int)
    ensures Spans({p}, p, p) && Extent({p}, [p], lakeMaxTiles)
  {
    assert Tiles([p]) == {p};
  }

  lemma ExtentGrows(V: set<Pos>, extent: seq<Pos>, p: Pos, lakeMaxTiles: int)
    requires Extent(V, extent, lakeMaxTiles) && p !in V
    ensures Extent(V + {p}, if |extent| <= lakeMaxTiles then extent + [p] else extent, lakeMaxTiles)
  {
    assert Tiles(extent + [p]) == Tiles(extent) + {p};
  }

  lemma LargerStillSpans(V: set<Pos>, V': set<Pos>, topLeft: Pos, bottomRight: Pos)
    requires Spans(V, topLeft, bottomRight) && V <= V'
    ensures Spans(V', topLeft, bottomRight)
  {
  }

  lemma ExtentIsAll(V: set<Pos>, extent: seq<Pos>, lakeMaxTiles: int)
    requires Extent(V, extent, lakeMaxTiles) && |extent| <= lakeMaxTiles
    ensures Tiles(extent) == V
  {
  }
}
