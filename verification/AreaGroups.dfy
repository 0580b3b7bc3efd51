/** Groups of mutually accessible areas: the components of the choke-point graph. */
module AreaGroups {

  /** neighbours[a] lists the areas accessible from area a (areas are numbered from 0 here). */
  type Graph = seq<seq<nat>>

  ghost predicate Symmetric(g: Graph) {
    && (forall a, i | 0 <= a < |g| && 0 <= i < |g[a]| :: g[a][i] < |g|)
    && (forall a, b | 0 <= a < |g| && 0 <= b < |g| && b in g[a] :: a in g[b])
  }

  /** No edge leads out of A. */
  ghost predicate Closed(g: Graph, A: set<nat>) {
    forall a, b | a in A && a < |g| && b in g[a] :: b in A
  }

  ghost predicate IsRoute(g: Graph, route: seq<nat>, a: nat, b: nat) {
    && |route| > 0 && route[0] == a && route[|route| - 1] == b
    && (forall i | 0 <= i < |route| :: route[i] < |g|)
    && (forall i | 0 <= i < |route| - 1 :: route[i + 1] in g[route[i]])
  }

  /** b can be reached from a through choke points. */
  ghost predicate Accessible(g: Graph, a: nat, b: nat) {
    exists route :: IsRoute(g, route, a, b)
  }

  ghost function Reach(g: Graph, a: nat): set<nat> {
    set b | 0 <= b < |g| && Accessible(g, a, b)
  }

  lemma ReachIsClosed(g: Graph, a: nat)
    requires Symmetric(g) && a < |g|
    ensures a in Reach(g, a) && Closed(g, Reach(g, a)) && forall b | b in Reach(g, a) :: b < |g|
  {
    assert IsRoute(g, [a], a, a);
    forall b, c | b in Reach(g, a) && c in g[b]
      ensures c in Reach(g, a)
    {
      var route :| IsRoute(g, route, a, b);
      assert IsRoute(g, route + [c], a, c);
    }
  }

  lemma {:induction false} RouteStaysInside(g: Graph, A: set<nat>, route: seq<nat>, a: nat, b: nat, n: nat)
    requires Closed(g, A) && a in A && IsRoute(g, route, a, b) && n < |route|
    ensures route[n] in A
  {
    if n > 0 {
      RouteStaysInside(g, A, route, a, b, n - 1);
      assert route[n - 1 + 1] in g[route[n - 1]];
    }
  }

  lemma ReachIsLeast(g: Graph, a: nat, A: set<nat>)
    requires Closed(g, A) && a in A
    ensures Reach(g, a) <= A
  {
    forall b | b in Reach(g, a)
      ensures b in A
    {
      var route :| IsRoute(g, route, a, b);
      RouteStaysInside(g, A, route, a, b, |route| - 1);
    }
  }

  lemma OutsideIsClosed(g: Graph, A: set<nat>, D: set<nat>)
    requires Symmetric(g) && Closed(g, A) && D == (set b | 0 <= b < |g| && b !in A)
    ensures Closed(g, D)
  {
  }

  /** Accessibility is symmetric and transitive: b's reach is a's. */
  lemma ReachesCoincide(g: Graph, a: nat, b: nat)
    requires Symmetric(g) && a < |g| && b in Reach(g, a)
    ensures Reach(g, b) == Reach(g, a)
  {
    ReachIsClosed(g, a);
    ReachIsClosed(g, b);
    ReachIsLeast(g, b, Reach(g, a));
    if a !in Reach(g, b) {
      var D := set c | 0 <= c < |g| && c !in Reach(g, b);
      OutsideIsClosed(g, Reach(g, b), D);
      ReachIsLeast(g, a, D);
    }
    ReachIsLeast(g, a, Reach(g, b));
  }

  /** The areas of D carry positive ids below next, equal exactly within one reach. */
  ghost predicate Grouped(g: Graph, D: set<nat>, groupId: seq<int>, next: int) {
    && |groupId| == |g|
    && (forall a | a in D :: a < |g| && 0 < groupId[a] < next)
    && (forall a, b | a in D && b in D :: groupId[a] == groupId[b] <==> b in Reach(g, a))
  }

  lemma GroupAdded(g: Graph, D: set<nat>, groupId: seq<int>, groupId': seq<int>, next: int, s: nat)
    requires Symmetric(g) && Closed(g, D) && Grouped(g, D, groupId, next) && s < |g| && s !in D && next > 0
    requires |groupId'| == |g|
    requires forall a | 0 <= a < |g| :: groupId'[a] == if a in Reach(g, s) then next else groupId[a]
    ensures Closed(g, D + Reach(g, s)) && Grouped(g, D + Reach(g, s), groupId', next + 1)
  {
    var C := Reach(g, s);
    ReachIsClosed(g, s);
    var O := set b | 0 <= b < |g| && b !in D;
    OutsideIsClosed(g, D, O);
    ReachIsLeast(g, s, O);
    forall a | a in C
      ensures Reach(g, a) == C
    {
      ReachesCoincide(g, s, a);
    }
    forall a | a in D
      ensures Reach(g, a) <= D
    {
      ReachIsLeast(g, a, D);
    }
  }

  class AreaGraph {
    const neighbours: Graph
    var groupId: seq<int>
    var marked: set<nat>

    constructor (neighbours: Graph)
      ensures this.neighbours == neighbours && |groupId| == |neighbours| && marked == {}
    {
      this.neighbours := neighbours;
      groupId := seq(|neighbours|, _ => 0);
      marked := {};
    }

    /** Marks and queues the unmarked neighbours of current. */
    method Push(current: nat, toVisit: seq<nat>) returns (toVisit': seq<nat>)
      requires Symmetric(neighbours) && current < |neighbours|
      modifies this`marked
      ensures forall b | b in neighbours[current] :: b in marked
      ensures marked == old(marked) + (set b | b in neighbours[current])
      ensures forall b :: b in toVisit' <==> b in toVisit || (b in neighbours[current] && b !in old(marked))
      ensures marked == old(marked) ==> toVisit' == toVisit
    {
      toVisit' := toVisit;
      for i := 0 to |neighbours[current]|
        invariant marked == old(marked) + (set b | b in neighbours[current][..i])
        invariant forall b :: b in toVisit' <==> b in toVisit || (b in neighbours[current][..i] && b !in old(marked))
        invariant marked == old(marked) ==> toVisit' == toVisit
      {
        var next := neighbours[current][i];
        assert neighbours[current][..i + 1] == neighbours[current][..i] + [next];
        if next !in marked {
          marked := marked + {next};
          toVisit' := toVisit' + [next];
        }
      }
      assert neighbours[current][..|neighbours[current]|] == neighbours[current];
    }
  
    /** Gives id to everything accessible from start, which is itself not marked at first. */
    method VisitGroup(start: nat, id: int)
      requires Symmetric(neighbours) && start < |neighbours| == |groupId| && marked !! Reach(neighbours, start)
      modifies this`groupId, this`marked
      ensures |groupId| == |neighbours|
      ensures forall a | 0 <= a < |neighbours| ::
        groupId[a] == if a in Reach(neighbours, start) then id else old(groupId)[a]
      ensures old(marked) <= marked <= old(marked) + Reach(neighbours, start) <= marked + {start}
    {
      hide Reach;
      ghost var C := Reach(neighbours, start);
      ReachIsClosed(neighbours, start);
      var toVisit: seq<nat> := [start];
      while toVisit != []
        invariant |groupId| == |neighbours| && old(marked) <= marked <= old(marked) + C
        invariant forall b | b in toVisit :: b in marked - old(marked) + {start}
        invariant forall a | 0 <= a < |neighbours| && a !in marked - old(marked) + {start} ::
          groupId[a] == old(groupId)[a]
        invariant forall a | a in marked - old(marked) + {start} && a !in toVisit ::
          a < |groupId| && groupId[a] == id && forall b | b in neighbours[a] :: b in marked
        decreases C - marked, |toVisit|
      {
        var current := toVisit[|toVisit| - 1];
        assert current in toVisit && start in C;
        toVisit := toVisit[..|toVisit| - 1];
        groupId := groupId[current := id];
        toVisit := Push(current, toVisit);
      }
      ghost var V := marked - old(marked) + {start};
      assert Closed(neighbours, V);
      ReachIsLeast(neighbours, start, V);
    }

    /** Afterwards two areas have the same id exactly when one is accessible from the other. */
    method UpdateGroupIds()
      requires Symmetric(neighbours) && |groupId| == |neighbours|
      modifies this`groupId, this`marked
      ensures |groupId| == |neighbours| && forall a | 0 <= a < |neighbours| :: groupId[a] >= 1
      ensures forall a, b | 0 <= a < |neighbours| && 0 <= b < |neighbours| ::
        groupId[a] == groupId[b] <==> Accessible(neighbours, a, b)
    {
      var nextGroupId := 1;
      marked := {};
      ghost var D: set<nat> := {};
      for s := 0 to |neighbours|
        invariant Closed(neighbours, D) && Grouped(neighbours, D, groupId, nextGroupId) && nextGroupId >= 1
        invariant marked <= D && forall a | a in D :: a in marked || a < s
        invariant forall a | 0 <= a < s :: a in D
      {
        if s !in marked {
          ghost var before := groupId;
          ReachIsClosed(neighbours, s);
          Disjoint(neighbours, D, s);
          VisitGroup(s, nextGroupId);
          GroupAdded(neighbours, D, before, groupId, nextGroupId, s);
          D := D + Reach(neighbours, s);
          nextGroupId := nextGroupId + 1;
        }
      }
    }
  }

  lemma Disjoint(g: Graph, D: set<nat>, s: nat)
    requires Symmetric(g) && Closed(g, D) && s < |g| && s !in D
    ensures D !! Reach(g, s)
  {
    var O := set b | 0 <= b < |g| && b !in D;
    OutsideIsClosed(g, D, O);
    ReachIsLeast(g, s, O);
  }
}
