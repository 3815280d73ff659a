/** The roadmap: configurations joined by directed edges, searched depth first. */
module Roadmaps {
  import opened Counting
  import opened OmniWheel
  import opened Mobility

  class RoadmapNode {
    const position: Configuration
    var parents: seq<RoadmapNode>
    var children: seq<RoadmapNode>
    var visited: bool

    constructor (pos: Configuration)
      ensures position == pos && parents == children == []
    {
      position, parents, children, visited := pos, [], [], false;
    }
  }

  /** Consecutive nodes are joined by edges. */
  ghost predicate Chain(p: seq<RoadmapNode>)
    reads p`children
  {
    forall i | 0 <= i < |p| - 1 :: p[i + 1] in p[i].children
  }

  ghost predicate Route(p: seq<RoadmapNode>, start: RoadmapNode, goal: RoadmapNode)
    reads p`children
  {
    |p| > 0 && p[0] == start && p[|p| - 1] == goal && Chain(p)
  }

  class Roadmap {
    const planner: Planner
    var nodes: seq<RoadmapNode>
    var nEdges: nat

    constructor (pl: Planner)
      ensures planner == pl && nodes == [] && nEdges == 0
    {
      planner, nodes, nEdges := pl, [], 0;
    }

    /** Edges lead from nodes to nodes. */
    ghost predicate Closed()
      reads `nodes, nodes`children
    {
      forall n, c | n in nodes && c in n.children :: c in nodes
    }

    /** Every edge is a motion without collision, or claimed to be one. */
    ghost predicate Sound()
      reads `nodes, nodes`children
    {
      && planner.Valid() && Closed()
      && (forall n | n in nodes :: planner.Has(n.position))
      && (forall n, c | n in nodes && c in n.children :: Claimed(planner, n.position, c.position))
    }

    method AddNode(node: RoadmapNode)
      modifies `nodes
      ensures nodes == old(nodes) + [node]
    {
      nodes := nodes + [node];
    }

    method AddEdge(from: RoadmapNode, to: RoadmapNode)
      modifies from`children, to`parents, `nEdges
      ensures from.children == old(from.children) + [to]
      ensures to.parents == old(to.parents) + [from]
      ensures nEdges == old(nEdges) + 1
    {
      from.children := from.children + [to];
      to.parents := to.parents + [from];
      nEdges := nEdges + 1;
    }

    /** The first of the nodes nearest to a configuration. */
    method FindNearestNode(cfg: Configuration) returns (node: RoadmapNode?, distance: real)
      requires planner.Has(cfg) && forall n | n in nodes :: planner.Has(n.position)
      ensures node == null <==> nodes == []
      ensures nodes != [] ==>
        && node in nodes && distance == planner.Dist(node.position, cfg)
        && (forall n | n in nodes :: distance <= planner.Dist(n.position, cfg))
        && exists i | 0 <= i < |nodes| ::
             nodes[i] == node && forall k | 0 <= k < i :: distance < planner.Dist(nodes[k].position, cfg)
    {
      hide Distance;
      if |nodes| == 0 {
        return null, 0.0;
      }
      node := nodes[0];
      distance := DistanceOf(planner.space, node.position, cfg, planner.sqrt);
      ghost var first := 0;
      var i := 1;
      while i < |nodes|
        invariant 0 <= first < i <= |nodes| && node == nodes[first] && distance == planner.Dist(node.position, cfg)
        invariant forall k | 0 <= k < i :: distance <= planner.Dist(nodes[k].position, cfg)
        invariant forall k | 0 <= k < first :: distance < planner.Dist(nodes[k].position, cfg)
      {
        var d := DistanceOf(planner.space, nodes[i].position, cfg, planner.sqrt);
        if d < distance {
          distance := d;
          node := nodes[i];
          first := i;
        }
        i := i + 1;
      }
    }

    method FirstUnvisitedChild(node: RoadmapNode) returns (child: RoadmapNode?)
      ensures child == null ==> forall c | c in node.children :: c.visited
      ensures child != null ==> child in node.children && !child.visited
    {
      child := null;
      for i := 0 to |node.children|
        invariant child == null && forall k | 0 <= k < i :: node.children[k].visited
      {
        if !node.children[i].visited {
          child := node.children[i];
          break;
        }
      }
    }

    /** What the search has left behind: visited nodes off the path are not the goal and lead to
        visited nodes only. */
    ghost predicate Explored(path: seq<RoadmapNode>, goal: RoadmapNode)
      reads `nodes, nodes`children, nodes`visited
    {
      forall n {:trigger n.visited} | n in nodes && n.visited && n !in path ::
        n != goal && forall c {:trigger c in n.children} | c in n.children :: c in nodes && c.visited
    }

    method ClearVisited()
      modifies nodes`visited
      ensures forall n | n in nodes :: !n.visited
    {
      var i := 0;
      while i < |nodes|
        invariant 0 <= i <= |nodes|
        invariant forall k | 0 <= k < i :: !nodes[k].visited
      {
        nodes[i].visited := false;
        i := i + 1;
      }
    }

    /** A path under search, with the nodes not visited yet. */
    ghost predicate Searching(path: seq<RoadmapNode>, start: RoadmapNode, goal: RoadmapNode,
                              unvisited: set<RoadmapNode>)
      reads `nodes, nodes`children, nodes`visited, path`children
    {
      && Closed() && start in nodes && start !in unvisited
      && (forall n {:trigger n.visited} | n in nodes :: n.visited <==> n !in unvisited)
      && (forall n {:trigger n in path} | n in path :: n in nodes && n !in unvisited)
      && Distinct(path) && Chain(path) && (path != [] ==> path[0] == start)
      && Explored(path, goal)
    }

    lemma StepBack(path: seq<RoadmapNode>, start: RoadmapNode, goal: RoadmapNode, unvisited: set<RoadmapNode>)
      requires Searching(path, start, goal, unvisited) && path != [] && path[|path| - 1] != goal
      requires forall c | c in path[|path| - 1].children :: c.visited
      ensures Searching(path[..|path| - 1], start, goal, unvisited)
    {
      var front, node := path[..|path| - 1], path[|path| - 1];
      assert path == front + [node];
      assert path[|path| - 1] in path;
      assert node in nodes;
      assert forall n :: n in path <==> n in front || n == node;
    }

    method StepOn(path: seq<RoadmapNode>, child: RoadmapNode, ghost start: RoadmapNode, ghost goal: RoadmapNode,
                  ghost unvisited: set<RoadmapNode>)
      returns (longer: seq<RoadmapNode>)
      requires Searching(path, start, goal, unvisited) && path != [] && child in path[|path| - 1].children
      requires !child.visited
      modifies child`visited
      ensures longer == path + [child] && child in unvisited && Searching(longer, start, goal, unvisited - {child})
    {
      assert path[|path| - 1] in path;
      assert child in nodes && child !in path;
      child.visited := true;
      longer := path + [child];
      assert forall n :: n in longer <==> n in path || n == child;
    }

    /** The search finds a route without repetition exactly when there is a route at all. */
    method DFS(startNode: RoadmapNode, goalNode: RoadmapNode) returns (path: seq<RoadmapNode>)
      requires Closed() && startNode in nodes
      modifies nodes`visited
      ensures path != [] ==> Route(path, startNode, goalNode) && Distinct(path) && forall n | n in path :: n in nodes
      ensures path == [] ==> forall p: seq<RoadmapNode> :: !Route(p, startNode, goalNode)
    {
      ClearVisited();
      ghost var unvisited: set<RoadmapNode> := Elements(nodes) - {startNode};
      startNode.visited := true;
      path := [startNode];
      assert Searching(path, startNode, goalNode, unvisited);
      hide Searching, Explored, Chain, Distinct;
      while |path| > 0
        invariant Searching(path, startNode, goalNode, unvisited)
        decreases |unvisited|, |path|
      {
        var node := path[|path| - 1];
        if node == goalNode {
          break;
        }
        var child := FirstUnvisitedChild(node);
        if child == null {
          StepBack(path, startNode, goalNode, unvisited);
          path := path[..|path| - 1];
        } else {
          var next: RoadmapNode := child;
          ChildInNodes(path, startNode, goalNode, unvisited, next);
          path := StepOn(path, next, startNode, goalNode, unvisited);
          unvisited := unvisited - {next};
        }
      }
      if path == [] {
        forall p: seq<RoadmapNode> | Route(p, startNode, goalNode) ensures false {
          NoRoute(startNode, goalNode, unvisited, p);
        }
      } else {
        RouteFound(path, startNode, goalNode, unvisited);
      }
    }

    lemma NoRoute(start: RoadmapNode, goal: RoadmapNode, unvisited: set<RoadmapNode>, p: seq<RoadmapNode>)
      requires Searching([], start, goal, unvisited)
      ensures !Route(p, start, goal)
    {
      if Route(p, start, goal) {
        ChainStays(p, goal);
      }
    }

    lemma RouteFound(path: seq<RoadmapNode>, start: RoadmapNode, goal: RoadmapNode, unvisited: set<RoadmapNode>)
      requires Searching(path, start, goal, unvisited) && path != [] && path[|path| - 1] == goal
      ensures Route(path, start, goal) && Distinct(path) && forall n | n in path :: n in nodes
    {}

    lemma ChildInNodes(path: seq<RoadmapNode>, start: RoadmapNode, goal: RoadmapNode, unvisited: set<RoadmapNode>,
                       child: RoadmapNode)
      requires Searching(path, start, goal, unvisited) && path != [] && child in path[|path| - 1].children
      ensures child in nodes
    {
      assert path[|path| - 1] in path;
    }

    /** A chain that starts in the explored part never leaves it. */
    lemma {:induction false} ChainStays(p: seq<RoadmapNode>, goal: RoadmapNode)
      requires |p| > 0 && p[0] in nodes && p[0].visited && Chain(p) && Explored([], goal)
      ensures p[|p| - 1] in nodes && p[|p| - 1].visited && p[|p| - 1] != goal
    {
      if |p| > 1 {
        var front := p[..|p| - 1];
        ChainStays(front, goal);
        assert p[|p| - 1] in p[|p| - 2].children;
      }
    }

    /** Whether the way back from `to` counts as a motion. */
    ghost predicate BackTaken(from: RoadmapNode, to: RoadmapNode)
      requires planner.Valid() && planner.Has(from.position) && planner.Has(to.position)
    {
      if planner.reversible then Reachable(planner, from.position, to.position)
      else Reachable(planner, to.position, from.position)
    }

    /** An edge where there is a motion; with tryReverse also the way back where there is a motion back or,
        if motions are claimed to be reversible, where there is one there. */
    method TryConnection(from: RoadmapNode, to: RoadmapNode, tryReverse: bool)
      requires Sound() && from in nodes && to in nodes
      modifies from`children, from`parents, to`children, to`parents, `nEdges
      ensures Sound()
      ensures from != to ==>
        (to in from.children <==> (to in old(from.children) || Reachable(planner, from.position, to.position)))
      ensures from != to ==>
        (from in to.children <==> (from in old(to.children) || (tryReverse && BackTaken(from, to))))
      ensures forall c | c != to ::
                c in from.children <==> (c in old(from.children) || (c == from && to == from && c in from.children))
      ensures forall c | c != from && c != to :: c in to.children <==> c in old(to.children)
    {
      hide Reachable;
      var ok := IsReachable(planner, from.position, to.position, true);
      if ok {
        AddEdge(from, to);
        if tryReverse && planner.reversible {
          AddEdge(to, from);
        }
      }
      if tryReverse && !planner.reversible {
        ok := IsReachable(planner, to.position, from.position, true);
        if ok {
          AddEdge(to, from);
        }
      }
    }
  }
}
