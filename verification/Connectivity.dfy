/** Tile positions, 4-adjacency and connected regions of the tile grid.

Regions are finite sets of tiles. A part of a region is closed when no 4-adjacency
leads out of it; a region is connected when it has no closed part but itself. The
last section shows that this agrees with the definition by paths. */
module Connectivity {

  datatype Pos = Pos(x: int, y: int)

  function Cells(width: int, height: int): set<Pos> {
    set x, y | 0 <= x < width && 0 <= y < height :: Pos(x, y)
  }

  predicate Adjacent(p: Pos, q: Pos) {
    (p.x == q.x && (p.y == q.y + 1 || q.y == p.y + 1))
    || (p.y == q.y && (p.x == q.x + 1 || q.x == p.x + 1))
  }

  /** The four steps, in the order every neighbour loop of the analyzer takes them. */
  const DELTAS: seq<Pos> := [Pos(0, -1), Pos(-1, 0), Pos(1, 0), Pos(0, 1)]

  function Step(p: Pos, k: nat): (q: Pos)
    requires k < 4
    ensures Adjacent(p, q)
  {
    Pos(p.x + DELTAS[k].x, p.y + DELTAS[k].y)
  }

  lemma StepsAreAllNeighbours(p: Pos, q: Pos)
    requires Adjacent(p, q)
    ensures q == Step(p, 0) || q == Step(p, 1) || q == Step(p, 2) || q == Step(p, 3)
  {
  }

  /** No adjacency inside R leads out of A. */
  ghost predicate Closed(A: set<Pos>, R: set<Pos>) {
    A <= R && forall p, q | p in A && q in R && Adjacent(p, q) :: q in A
  }

  ghost predicate Connected(R: set<Pos>) {
    forall A | Closed(A, R) && A != {} :: A == R
  }

  /** The tiles of R that no closed part holding p can avoid. */
  ghost function Component(R: set<Pos>, p: Pos): set<Pos> {
    set q | q in R && (forall A | Closed(A, R) && p in A :: q in A)
  }

  lemma ComponentIsClosed(R: set<Pos>, p: Pos)
    requires p in R
    ensures p in Component(R, p) && Closed(Component(R, p), R)
  {
  }

  lemma ComponentIsLeast(R: set<Pos>, p: Pos, A: set<Pos>)
    requires Closed(A, R) && p in A
    ensures Component(R, p) <= A
  {
  }

  lemma ComplementIsClosed(A: set<Pos>, R: set<Pos>)
    requires Closed(A, R)
    ensures Closed(R - A, R)
  {
    forall p, q | p in R - A && q in R && Adjacent(p, q)
      ensures q in R - A
    {
      assert Adjacent(q, p);
    }
  }

  /** Two tiles of one component have the same component. */
  lemma ComponentsCoincide(R: set<Pos>, p: Pos, q: Pos)
    requires p in R && q in Component(R, p)
    ensures Component(R, q) == Component(R, p)
  {
    ComponentIsClosed(R, p);
    ComponentIsClosed(R, q);
    ComponentIsLeast(R, q, Component(R, p));
    if p !in Component(R, q) {
      ComplementIsClosed(Component(R, q), R);
      ComponentIsLeast(R, p, R - Component(R, q));
    }
    ComponentIsLeast(R, p, Component(R, q));
  }

  lemma ConnectedIsOneComponent(R: set<Pos>, p: Pos)
    requires Connected(R) && p in R
    ensures Component(R, p) == R
  {
    ComponentIsClosed(R, p);
  }

  lemma SingletonConnected(p: Pos)
    ensures Connected({p})
  {
    forall A | Closed(A, {p}) && A != {}
      ensures A == {p}
    {
    }
  }

  /** Two connected regions with an adjacency between them form one. */
  lemma BridgeConnects(R: set<Pos>, S: set<Pos>, r: Pos, s: Pos)
    requires Connected(R) && Connected(S) && r in R && s in S && Adjacent(r, s)
    ensures Connected(R + S)
  {
    forall A | Closed(A, R + S) && A != {}
      ensures A == R + S
    {
      assert Closed(A * R, R) && Closed(A * S, S);
      assert Adjacent(s, r);
      assert A * R != {} ==> r in A * R;
      assert A * S != {} ==> s in A * S;
      var a :| a in A;
      assert a in A * R || a in A * S;
      assert r in A * R && s in A * S;
    }
  }

  /** A component's bounds do not change when the region loses tiles outside it. */
  lemma ComponentSurvives(R: set<Pos>, D: set<Pos>, p: Pos)
    requires Closed(D, R) && p in R && p !in D
    ensures Component(R, p) !! D
  {
    ComplementIsClosed(D, R);
    ComponentIsLeast(R, p, R - D);
  }

  // ---- Agreement with the definition by paths ----

  ghost predicate IsPath(R: set<Pos>, path: seq<Pos>, p: Pos, q: Pos) {
    && |path| > 0 && path[0] == p && path[|path| - 1] == q
    && (forall i | 0 <= i < |path| :: path[i] in R)
    && (forall i | 0 <= i < |path| - 1 :: Adjacent(path[i], path[i + 1]))
  }

  ghost predicate Linked(R: set<Pos>, p: Pos, q: Pos) {
    exists path :: IsPath(R, path, p, q)
  }

  ghost function LinkedSet(R: set<Pos>, p: Pos): set<Pos> {
    set q | q in R && Linked(R, p, q)
  }

  lemma {:induction false} PathStaysInside(R: set<Pos>, A: set<Pos>, path: seq<Pos>, p: Pos, q: Pos, n: nat)
    requires Closed(A, R) && p in A && IsPath(R, path, p, q) && n < |path|
    ensures path[n] in A
  {
    if n > 0 {
      PathStaysInside(R, A, path, p, q, n - 1);
      assert Adjacent(path[n - 1], path[n - 1 + 1]);
    }
  }

  lemma LinkedSetIsClosed(R: set<Pos>, p: Pos)
    requires p in R
    ensures p in LinkedSet(R, p) && Closed(LinkedSet(R, p), R)
  {
    var L := LinkedSet(R, p);
    assert IsPath(R, [p], p, p);
    forall a, b | a in L && b in R && Adjacent(a, b)
      ensures b in L
    {
      var path :| IsPath(R, path, p, a);
      assert IsPath(R, path + [b], p, b);
    }
  }

  /** The component of p is what a 4-connected path inside the region can reach. */
  lemma ComponentIsReachability(R: set<Pos>, p: Pos)
    requires p in R
    ensures forall q :: q in Component(R, p) <==> q in LinkedSet(R, p)
  {
    LinkedSetIsClosed(R, p);
    var L := LinkedSet(R, p);
    ComponentIsLeast(R, p, L);
    ComponentIsClosed(R, p);
    forall q | q in L
      ensures q in Component(R, p)
    {
      var path :| IsPath(R, path, p, q);
      PathStaysInside(R, Component(R, p), path, p, q, |path| - 1);
    }
  }

  /** A region is connected exactly when paths link any two of its tiles. */
  lemma ConnectedMeansLinked(R: set<Pos>)
    ensures Connected(R) <==> forall p, q | p in R && q in R :: Linked(R, p, q)
  {
    if Connected(R) {
      forall p, q | p in R && q in R
        ensures Linked(R, p, q)
      {
        ComponentIsReachability(R, p);
        ConnectedIsOneComponent(R, p);
      }
    }
    if forall p, q | p in R && q in R :: Linked(R, p, q) {
      forall A | Closed(A, R) && A != {}
        ensures A == R
      {
        var p :| p in A;
        forall q | q in R
          ensures q in A
        {
          var path :| IsPath(R, path, p, q);
          PathStaysInside(R, A, path, p, q, |path| - 1);
        }
      }
    }
  }
}
