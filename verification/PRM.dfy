/** Planning over a roadmap of random configurations. */
module PRM {
  import opened Counting
  import opened OmniWheel
  import opened Mobility
  import opened Roadmaps
  import opened Waypoints

  /** What a pair of nodes, the first of them earlier, is joined by. */
  ghost predicate Joined(pl: Planner, a: RoadmapNode, b: RoadmapNode, maxDist: real)
    requires pl.Valid() && pl.Has(a.position) && pl.Has(b.position)
    reads a`children, b`children
  {
    && (b in a.children <==> (pl.Dist(a.position, b.position) < maxDist && Reachable(pl, a.position, b.position)))
    && (a in b.children <==>
          && pl.Dist(a.position, b.position) < maxDist
          && (if pl.reversible then Reachable(pl, a.position, b.position) else Reachable(pl, b.position, a.position)))
  }

  ghost predicate Unjoined(a: RoadmapNode, b: RoadmapNode)
    reads a`children, b`children
  {
    b !in a.children && a !in b.children
  }

  /** Every pair of nodes before pair (i, j) is joined by the motions between them, if near enough,
      and no later pair is joined. */
  ghost predicate JoinedBefore(pl: Planner, nodes: seq<RoadmapNode>, maxDist: real, i: nat, j: nat)
    requires pl.Valid() && forall n | n in nodes :: pl.Has(n.position)
    reads nodes`children
  {
    forall a, b {:trigger nodes[a], nodes[b]} | 0 <= a < b < |nodes| ::
      if a < i || (a == i && b < j) then Joined(pl, nodes[a], nodes[b], maxDist) else Unjoined(nodes[a], nodes[b])
  }

  /** The samples at which nothing collides. */
  ghost function FreeOf(pl: Planner, samples: seq<Configuration>): seq<Configuration> {
    if samples == [] then []
    else
      var k := |samples| - 1;
      FreeOf(pl, samples[..k]) + if pl.collides(samples[k]) then [] else [samples[k]]
  }

  lemma {:induction false} FreeOfPrefix(pl: Planner, samples: seq<Configuration>, k: nat)
    requires k <= |samples|
    ensures FreeOf(pl, samples[..k]) <= FreeOf(pl, samples)
  {
    if k == |samples| {
      assert samples[..k] == samples;
    } else {
      var front := samples[..|samples| - 1];
      FreeOfPrefix(pl, front, k);
      assert front[..k] == samples[..k];
    }
  }

  /** The nodes are at the first of the free samples, n of them if there are as many. */
  ghost predicate Drawn(pl: Planner, nodes: seq<RoadmapNode>, samples: seq<Configuration>, n: nat) {
    var free := FreeOf(pl, samples);
    && |nodes| == (if |free| < n then |free| else n)
    && forall i | 0 <= i < |nodes| :: nodes[i].position == free[i]
  }

  /** The first maxPoints collision-free random configurations, or all if there are fewer. */
  method DrawNodes(roadmap: Roadmap, maxPoints: nat, samples: seq<Configuration>) returns (ok: bool)
    requires roadmap.nodes == [] && roadmap.planner.Valid()
    requires forall k | 0 <= k < |samples| :: roadmap.planner.Has(samples[k])
    modifies roadmap`nodes
    ensures fresh(roadmap.nodes) && Distinct(roadmap.nodes)
    ensures forall n | n in roadmap.nodes ::
      n.children == [] && n.parents == [] && n.position in samples && !roadmap.planner.collides(n.position)
    ensures Drawn(roadmap.planner, roadmap.nodes, samples, maxPoints) && (ok <==> |roadmap.nodes| == maxPoints)
  {
    ghost var pl := roadmap.planner;
    var numPoints, numTotalPoints := 0, 0;
    while numPoints < maxPoints
      invariant numPoints == |roadmap.nodes| <= maxPoints && 0 <= numTotalPoints <= |samples|
      invariant fresh(roadmap.nodes) && Distinct(roadmap.nodes)
      invariant numPoints == |FreeOf(pl, samples[..numTotalPoints])|
      invariant forall i | 0 <= i < numPoints ::
                  roadmap.nodes[i].position == FreeOf(pl, samples[..numTotalPoints])[i]
      invariant forall n | n in roadmap.nodes ::
        n.children == [] && n.parents == [] && n.position in samples && !roadmap.planner.collides(n.position)
      decreases |samples| - numTotalPoints
    {
      if numTotalPoints == |samples| {
        assert samples[..numTotalPoints] == samples;
        return false;
      }
      assert samples[..numTotalPoints + 1][..numTotalPoints] == samples[..numTotalPoints];
      var pos := samples[numTotalPoints];
      numTotalPoints := numTotalPoints + 1;
      if !roadmap.planner.collides(pos) {
        var node := new RoadmapNode(pos);
        roadmap.AddNode(node);
        numPoints := numPoints + 1;
      }
    }
    FreeOfPrefix(pl, samples, numTotalPoints);
    ok := true;
  }

  /** One pair of nodes. */
  method JoinPair(roadmap: Roadmap, maxDist: real, i: nat, j: nat)
    requires i < j < |roadmap.nodes| && Distinct(roadmap.nodes) && roadmap.Sound()
    requires JoinedBefore(roadmap.planner, roadmap.nodes, maxDist, i, j)
    modifies roadmap.nodes`children, roadmap.nodes`parents, roadmap`nEdges
    ensures roadmap.Sound() && JoinedBefore(roadmap.planner, roadmap.nodes, maxDist, i, j + 1)
  {
    hide Reachable, Distance;
    var from, to := roadmap.nodes[i], roadmap.nodes[j];
    assert Unjoined(from, to);
    var d := DistanceOf(roadmap.planner.space, from.position, to.position, roadmap.planner.sqrt);
    if d < maxDist {
      roadmap.TryConnection(from, to, true);
    }
  }

  /** All pairs of nodes, as long as the building is let run. */
  method JoinAll(roadmap: Roadmap, maxDist: real, isRunning: nat -> bool) returns (ok: bool)
    requires roadmap.Sound() && Distinct(roadmap.nodes)
    requires JoinedBefore(roadmap.planner, roadmap.nodes, maxDist, 0, 1)
    modifies roadmap.nodes`children, roadmap.nodes`parents, roadmap`nEdges
    ensures roadmap.Sound() && (ok <==> forall i | 0 <= i < |roadmap.nodes| :: isRunning(i))
    ensures ok ==> JoinedBefore(roadmap.planner, roadmap.nodes, maxDist, |roadmap.nodes|, 0)
  {
    hide Reachable, Distance, Joined, Unjoined;
    var n := |roadmap.nodes|;
    var i := 0;
    while i < n
      invariant 0 <= i <= n && roadmap.Sound()
      invariant JoinedBefore(roadmap.planner, roadmap.nodes, maxDist, i, i + 1)
      invariant forall k | 0 <= k < i :: isRunning(k)
    {
      if !isRunning(i) {
        return false;
      }
      var j := i + 1;
      while j < n
        invariant i < j <= n && roadmap.Sound()
        invariant JoinedBefore(roadmap.planner, roadmap.nodes, maxDist, i, j)
      {
        JoinPair(roadmap, maxDist, i, j);
        j := j + 1;
      }
      i := i + 1;
    }
    ok := true;
  }

  /** The roadmap holds every motion between near nodes and no other edge. */
  method BuildRoadmap(roadmap: Roadmap, maxPoints: nat, maxDist: real, samples: seq<Configuration>,
                      isRunning: nat -> bool)
    returns (ok: bool)
    requires roadmap.nodes == [] && roadmap.planner.Valid()
    requires forall k | 0 <= k < |samples| :: roadmap.planner.Has(samples[k])
    modifies roadmap
    ensures roadmap.Sound() && Distinct(roadmap.nodes) && fresh(roadmap.nodes)
    ensures forall n | n in roadmap.nodes :: !roadmap.planner.collides(n.position)
    ensures Drawn(roadmap.planner, roadmap.nodes, samples, maxPoints)
    ensures ok <==> |roadmap.nodes| == maxPoints && forall i | 0 <= i < maxPoints :: isRunning(i)
    ensures ok ==> JoinedBefore(roadmap.planner, roadmap.nodes, maxDist, |roadmap.nodes|, 0)
  {
    hide Reachable, Distance, Joined, Drawn;
    ok := DrawNodes(roadmap, maxPoints, samples);
    if ok {
      ok := JoinAll(roadmap, maxDist, isRunning);
    }
  }

  /** The edges that joining the ends e0 and e1 asks for: the motions between an end and a node near it. */
  ghost predicate EndEdge(pl: Planner, e0: RoadmapNode, e1: RoadmapNode, maxDist: real, a: RoadmapNode, b: RoadmapNode)
    requires pl.Valid() && pl.Has(a.position) && pl.Has(b.position)
  {
    || ((a == e0 || a == e1) && Taken(pl, maxDist, a, b))
    || ((b == e0 || b == e1) && TakenBack(pl, maxDist, b, a))
  }

  /** The motion from a to b, where it is short enough. */
  ghost predicate Taken(pl: Planner, maxDist: real, a: RoadmapNode, b: RoadmapNode)
    requires pl.Valid() && pl.Has(a.position) && pl.Has(b.position)
  {
    pl.Dist(a.position, b.position) < maxDist && Reachable(pl, a.position, b.position)
  }

  /** The motion back from b to a, which a reversible mobility takes for granted where there is one from a to b. */
  ghost predicate TakenBack(pl: Planner, maxDist: real, a: RoadmapNode, b: RoadmapNode)
    requires pl.Valid() && pl.Has(a.position) && pl.Has(b.position)
  {
    pl.Dist(a.position, b.position) < maxDist
      && if pl.reversible then Reachable(pl, a.position, b.position) else Reachable(pl, b.position, a.position)
  }

  /** The edges that joining end and node asks for. */
  ghost predicate Between(pl: Planner, end: RoadmapNode, node: RoadmapNode, maxDist: real, a: RoadmapNode,
                          b: RoadmapNode)
    requires pl.Valid() && pl.Has(a.position) && pl.Has(b.position)
  {
    (a == end && b == node && Taken(pl, maxDist, a, b)) || (b == end && a == node && TakenBack(pl, maxDist, b, a))
  }

  /** One end and one node. */
  method JoinNear(roadmap: Roadmap, end: RoadmapNode, node: RoadmapNode, maxDist: real)
    requires roadmap.Sound() && end in roadmap.nodes && node in roadmap.nodes
    modifies end`children, end`parents, node`children, node`parents, roadmap`nEdges
    ensures roadmap.Sound()
    ensures forall a, b | a in roadmap.nodes && b in roadmap.nodes && a != b ::
              b in a.children <==> b in old(a.children) || Between(roadmap.planner, end, node, maxDist, a, b)
  {
    hide Reachable, Distance;
    var d := DistanceOf(roadmap.planner.space, end.position, node.position, roadmap.planner.sqrt);
    if d < maxDist {
      roadmap.TryConnection(end, node, true);
    }
  }

  /** Edges between the start, the goal and the nodes near them. */
  method JoinEnds(roadmap: Roadmap, startNode: RoadmapNode, goalNode: RoadmapNode, maxDist: real)
    requires roadmap.Sound() && startNode in roadmap.nodes && goalNode in roadmap.nodes
    modifies roadmap.nodes`children, roadmap.nodes`parents, roadmap`nEdges
    ensures roadmap.Sound()
    ensures forall a, b | a in roadmap.nodes && b in roadmap.nodes && a != b ::
      b in a.children <==> b in old(a.children) || EndEdge(roadmap.planner, startNode, goalNode, maxDist, a, b)
  {
    hide Reachable, Distance, Roadmap.Sound, Taken, TakenBack, Between, EdgeUpTo;
    SoundNodes(roadmap);
    forall a, b | a in roadmap.nodes && b in roadmap.nodes
      ensures !EdgeUpTo(roadmap, startNode, goalNode, maxDist, 0, a, b)
    {
      NoEdgeYet(roadmap, startNode, goalNode, maxDist, a, b);
    }
    var i := 0;
    while i < |roadmap.nodes|
      invariant 0 <= i <= |roadmap.nodes| && roadmap.Sound()
      invariant forall a, b | a in roadmap.nodes && b in roadmap.nodes && a != b ::
        b in a.children <==> b in old(a.children) || EdgeUpTo(roadmap, startNode, goalNode, maxDist, i, a, b)
    {
      JoinBoth(roadmap, startNode, goalNode, roadmap.nodes[i], maxDist);
      forall a, b | a in roadmap.nodes && b in roadmap.nodes
        ensures EdgeUpTo(roadmap, startNode, goalNode, maxDist, i + 1, a, b)
           <==> || EdgeUpTo(roadmap, startNode, goalNode, maxDist, i, a, b)
                || Between(roadmap.planner, startNode, roadmap.nodes[i], maxDist, a, b)
                || Between(roadmap.planner, goalNode, roadmap.nodes[i], maxDist, a, b)
      {
        EdgeNext(roadmap, startNode, goalNode, maxDist, i, a, b);
      }
      i := i + 1;
    }
    forall a, b | a in roadmap.nodes && b in roadmap.nodes
      ensures EdgeUpTo(roadmap, startNode, goalNode, maxDist, i, a, b)
         <==> EndEdge(roadmap.planner, startNode, goalNode, maxDist, a, b)
    {
      AllEdges(roadmap, startNode, goalNode, maxDist, a, b);
    }
  }

  /** Both ends and one node. */
  method JoinBoth(roadmap: Roadmap, startNode: RoadmapNode, goalNode: RoadmapNode, node: RoadmapNode, maxDist: real)
    requires roadmap.Sound() && startNode in roadmap.nodes && goalNode in roadmap.nodes && node in roadmap.nodes
    modifies roadmap.nodes`children, roadmap.nodes`parents, roadmap`nEdges
    ensures roadmap.Sound()
    ensures forall a, b | a in roadmap.nodes && b in roadmap.nodes && a != b ::
      b in a.children <==> || b in old(a.children)
                           || Between(roadmap.planner, startNode, node, maxDist, a, b)
                           || Between(roadmap.planner, goalNode, node, maxDist, a, b)
  {
    hide Roadmap.Sound, Between;
    SoundNodes(roadmap);
    JoinNear(roadmap, startNode, node, maxDist);
    JoinNear(roadmap, goalNode, node, maxDist);
  }

  lemma NoEdgeYet(roadmap: Roadmap, e0: RoadmapNode, e1: RoadmapNode, maxDist: real, a: RoadmapNode, b: RoadmapNode)
    requires roadmap.planner.Valid() && roadmap.planner.Has(a.position) && roadmap.planner.Has(b.position)
    ensures !EdgeUpTo(roadmap, e0, e1, maxDist, 0, a, b)
  {}

  lemma EdgeNext(roadmap: Roadmap, e0: RoadmapNode, e1: RoadmapNode, maxDist: real, i: nat, a: RoadmapNode,
                 b: RoadmapNode)
    requires i < |roadmap.nodes| && roadmap.planner.Valid()
    requires roadmap.planner.Has(a.position) && roadmap.planner.Has(b.position)
    ensures EdgeUpTo(roadmap, e0, e1, maxDist, i + 1, a, b)
       <==> || EdgeUpTo(roadmap, e0, e1, maxDist, i, a, b)
            || Between(roadmap.planner, e0, roadmap.nodes[i], maxDist, a, b)
            || Between(roadmap.planner, e1, roadmap.nodes[i], maxDist, a, b)
  {
    hide Taken, TakenBack;
    assert roadmap.nodes[..i + 1] == roadmap.nodes[..i] + [roadmap.nodes[i]];
  }

  lemma AllEdges(roadmap: Roadmap, e0: RoadmapNode, e1: RoadmapNode, maxDist: real, a: RoadmapNode, b: RoadmapNode)
    requires roadmap.planner.Valid() && roadmap.planner.Has(a.position) && roadmap.planner.Has(b.position)
    requires a in roadmap.nodes && b in roadmap.nodes
    ensures EdgeUpTo(roadmap, e0, e1, maxDist, |roadmap.nodes|, a, b)
       <==> EndEdge(roadmap.planner, e0, e1, maxDist, a, b)
  {
    hide Taken, TakenBack;
    assert roadmap.nodes[..|roadmap.nodes|] == roadmap.nodes;
  }

  lemma SoundNodes(roadmap: Roadmap)
    requires roadmap.Sound()
    ensures roadmap.planner.Valid() && forall n | n in roadmap.nodes :: roadmap.planner.Has(n.position)
  {}

  /** The edges between the ends and the first i nodes. */
  ghost predicate EdgeUpTo(roadmap: Roadmap, e0: RoadmapNode, e1: RoadmapNode, maxDist: real, i: nat, a: RoadmapNode,
                           b: RoadmapNode)
    requires i <= |roadmap.nodes| && roadmap.planner.Valid()
    requires roadmap.planner.Has(a.position) && roadmap.planner.Has(b.position)
    reads roadmap`nodes
  {
    || ((a == e0 || a == e1) && b in roadmap.nodes[..i] && Taken(roadmap.planner, maxDist, a, b))
    || ((b == e0 || b == e1) && a in roadmap.nodes[..i] && TakenBack(roadmap.planner, maxDist, b, a))
  }

  /** The positions along a route of a sound roadmap are joined waypoints. */
  lemma RouteIsJoined(roadmap: Roadmap, nodePath: seq<RoadmapNode>, path: seq<Configuration>)
    requires roadmap.Sound() && Chain(nodePath) && forall n | n in nodePath :: n in roadmap.nodes
    requires |path| == |nodePath| && forall i | 0 <= i < |path| :: path[i] == nodePath[i].position
    ensures InClaims(roadmap.planner, path)
  {
    hide Reachable;
    forall i | 0 <= i < |path| - 1 ensures Claimed(roadmap.planner, path[i], path[i + 1]) {
      assert nodePath[i + 1] in nodePath[i].children;
    }
  }

  /** The ends are joined with all nodes near them, by the motions there are and no others. */
  ghost predicate EndsJoined(roadmap: Roadmap, first: RoadmapNode, last: RoadmapNode, maxDist: real)
    reads roadmap`nodes, roadmap.nodes`children
  {
    && roadmap.planner.Valid() && (forall n | n in roadmap.nodes :: roadmap.planner.Has(n.position))
    && forall a, b | a in roadmap.nodes && b in roadmap.nodes && a != b && (a in {first, last} || b in {first, last}) ::
         b in a.children <==> EndEdge(roadmap.planner, first, last, maxDist, a, b)
  }

  /** Nodes for the two ends of a path, without edges. */
  method PlaceEnds(roadmap: Roadmap, start: Configuration, goal: Configuration)
    returns (first: RoadmapNode, last: RoadmapNode)
    requires roadmap.Sound() && roadmap.planner.Has(start) && roadmap.planner.Has(goal)
    modifies roadmap`nodes
    ensures roadmap.Sound() && first.position == start && last.position == goal
    ensures roadmap.nodes == old(roadmap.nodes) + [first, last] && fresh(first) && fresh(last) && first != last
    ensures forall a, b | a in roadmap.nodes && b in roadmap.nodes && (a in {first, last} || b in {first, last}) ::
              b !in a.children
  {
    hide Reachable, Distance;
    ghost var nodes := roadmap.nodes;
    first := new RoadmapNode(start);
    last := new RoadmapNode(goal);
    assert forall n, c | n in nodes && c in n.children :: c in nodes;
    assert first !in nodes && last !in nodes;
    roadmap.AddNode(first);
    roadmap.AddNode(last);
  }

  /** Nodes for the two ends of a path, joined to the nodes near them. */
  method AddEnds(roadmap: Roadmap, start: Configuration, goal: Configuration, maxDist: real)
    returns (first: RoadmapNode, last: RoadmapNode)
    requires roadmap.Sound() && roadmap.planner.Has(start) && roadmap.planner.Has(goal)
    modifies roadmap, roadmap.nodes
    ensures roadmap.Sound()
    ensures first in roadmap.nodes && last in roadmap.nodes && first.position == start && last.position == goal
    ensures roadmap.nodes == old(roadmap.nodes) + [first, last] && fresh(first) && fresh(last) && first != last
    ensures EndsJoined(roadmap, first, last, maxDist)
    ensures forall a, b | a in old(roadmap.nodes) && b in old(roadmap.nodes) && a != b ::
              b in a.children <==> b in old(a.children)
  {
    hide Roadmap.Sound, EndEdge;
    SoundNodes(roadmap);
    first, last := PlaceEnds(roadmap, start, goal);
    SoundNodes(roadmap);
    ghost var nodes := old(roadmap.nodes);
    assert forall n | n in nodes :: n in roadmap.nodes && n !in {first, last};
    JoinEnds(roadmap, first, last, maxDist);
    forall a, b | a in nodes && b in nodes && a != b
      ensures b in a.children <==> b in old(a.children)
    {
      OtherEdges(roadmap.planner, first, last, maxDist, a, b);
    }
  }

  lemma OtherEdges(pl: Planner, e0: RoadmapNode, e1: RoadmapNode, maxDist: real, a: RoadmapNode, b: RoadmapNode)
    requires pl.Valid() && pl.Has(a.position) && pl.Has(b.position) && a !in {e0, e1} && b !in {e0, e1}
    ensures !EndEdge(pl, e0, e1, maxDist, a, b)
  {}

  /** The roadmap, built if there is none yet, with nodes for the two ends. */
  method BuildWithEnds(roadmap: Roadmap, start: Configuration, goal: Configuration, maxPoints: nat, maxDist: real,
                       samples: seq<Configuration>, isRunning: nat -> bool)
    returns (first: RoadmapNode, last: RoadmapNode)
    requires roadmap.Sound() && forall k | 0 <= k < |samples| :: roadmap.planner.Has(samples[k])
    requires roadmap.planner.Has(start) && roadmap.planner.Has(goal)
    modifies roadmap, roadmap.nodes
    ensures roadmap.Sound() && first.position == start && last.position == goal && first != last
    ensures EndsJoined(roadmap, first, last, maxDist) && |roadmap.nodes| >= 2
    ensures forall k | 0 <= k < |roadmap.nodes| ::
              roadmap.nodes[k] in old(roadmap.nodes) || fresh(roadmap.nodes[k])
    ensures var base := roadmap.nodes[..|roadmap.nodes| - 2];
      && roadmap.nodes == base + [first, last]
      && if old(roadmap.nodes) != [] then base == old(roadmap.nodes)
         else
           && Drawn(roadmap.planner, base, samples, maxPoints)
           && (|base| == maxPoints && (forall i | 0 <= i < maxPoints :: isRunning(i)) ==>
                 JoinedBefore(roadmap.planner, base, maxDist, |base|, 0))
  {
    hide Reachable, EndsJoined, Distance, Drawn;
    if |roadmap.nodes| == 0 {
      var _ := BuildRoadmap(roadmap, maxPoints, maxDist, samples, isRunning);
    }
    ghost var base := roadmap.nodes;
    first, last := AddEnds(roadmap, start, goal, maxDist);
    assert roadmap.nodes[..|roadmap.nodes| - 2] == base;
  }

  /** A path, when one is found, leads from the start to the goal by motions that are there or claimed to
      be; with an honest claim it is linked. When none is found, no route over the roadmap leads from the
      one to the other. */
  method CalcPath(roadmap: Roadmap, start: Configuration, goal: Configuration, maxPoints: nat, maxDist: real,
                  samples: seq<Configuration>, isRunning: nat -> bool)
    returns (ok: bool, path: seq<Configuration>, ghost startNode: RoadmapNode, ghost goalNode: RoadmapNode)
    requires roadmap.Sound() && forall k | 0 <= k < |samples| :: roadmap.planner.Has(samples[k])
    requires roadmap.planner.Has(start) && roadmap.planner.Has(goal)
    modifies roadmap, roadmap.nodes
    ensures roadmap.Sound()
    ensures startNode in roadmap.nodes && goalNode in roadmap.nodes && startNode.position == start
    ensures goalNode.position == goal
    ensures ok ==> InClaims(roadmap.planner, path) && |path| >= 2 && path[0] == start && path[|path| - 1] == goal
    ensures ok && Honest(roadmap.planner) ==> Linked(roadmap.planner, path)
    ensures !ok ==> forall p: seq<RoadmapNode> :: !Route(p, startNode, goalNode)
    ensures EndsJoined(roadmap, startNode, goalNode, maxDist)
    ensures |roadmap.nodes| >= 2
    ensures var base := roadmap.nodes[..|roadmap.nodes| - 2];
      && roadmap.nodes == base + [startNode, goalNode]
      && if old(roadmap.nodes) != [] then base == old(roadmap.nodes)
         else
           && Drawn(roadmap.planner, base, samples, maxPoints)
           && (|base| == maxPoints && (forall i | 0 <= i < maxPoints :: isRunning(i)) ==>
                 JoinedBefore(roadmap.planner, base, maxDist, |base|, 0))
  {
    hide Reachable, EndsJoined, Distance, Drawn;
    var first, last := BuildWithEnds(roadmap, start, goal, maxPoints, maxDist, samples, isRunning);
    startNode, goalNode := first, last;
    var nodePath := roadmap.DFS(first, last);
    path := [];
    for i := 0 to |nodePath|
      invariant |path| == i && forall k | 0 <= k < i :: path[k] == nodePath[k].position
    {
      path := path + [nodePath[i].position];
    }
    if |nodePath| > 0 {
      RouteIsJoined(roadmap, nodePath, path);
      HonestLinks(roadmap.planner, path);
    }
    ok := |path| != 0;
  }
}
