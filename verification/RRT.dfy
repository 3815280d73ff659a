/** Planning with two random trees, one growing from the start and one towards the goals. */
module RRTs {
  import opened LinearAlgebra
  import opened Roots
  import opened OmniWheel
  import opened Mobility
  import opened Roadmaps
  import opened Waypoints

  datatype ExtendResult = Advanced | Trapped | Reached

  /** Node k of a tree that grows from its roots: its first parent is an earlier node that leads to it. */
  ghost predicate Outgrown(t: Roadmap, roots: set<Configuration>, k: nat)
    requires k < |t.nodes| && t.planner.Valid() && forall n | n in t.nodes :: t.planner.Has(n.position)
    reads t`nodes, t.nodes`parents
  {
    if t.nodes[k].parents == [] then t.nodes[k].position in roots
    else exists j | 0 <= j < k :: t.nodes[k].parents[0] == t.nodes[j]
                                  && Reachable(t.planner, t.nodes[j].position, t.nodes[k].position)
  }

  /** Node k of a tree that grows towards its roots: it leads to its first child, an earlier node. */
  ghost predicate Ingrown(t: Roadmap, roots: set<Configuration>, k: nat)
    requires k < |t.nodes| && t.planner.Valid() && forall n | n in t.nodes :: t.planner.Has(n.position)
    reads t`nodes, t.nodes`children
  {
    if t.nodes[k].children == [] then t.nodes[k].position in roots
    else exists j | 0 <= j < k :: t.nodes[k].children[0] == t.nodes[j]
                                  && Reachable(t.planner, t.nodes[k].position, t.nodes[j].position)
  }

  ghost predicate Sized(t: Roadmap)
    reads t`nodes
  {
    t.planner.Valid() && forall n | n in t.nodes :: t.planner.Has(n.position)
  }

  /** A tree that motions climb from the roots, or the other way round. */
  ghost predicate Tree(t: Roadmap, roots: set<Configuration>, reverse: bool)
    reads t`nodes, t.nodes`parents, t.nodes`children
  {
    Sized(t) && forall k {:trigger t.nodes[k]} | 0 <= k < |t.nodes| ::
      if reverse then Ingrown(t, roots, k) else Outgrown(t, roots, k)
  }

  /** The last node of the tree is at q, and is not a root. */
  ghost predicate EndsAt(t: Roadmap, q: Configuration, reverse: bool)
    reads t`nodes, t.nodes`parents, t.nodes`children
  {
    |t.nodes| > 0 &&
    var last := t.nodes[|t.nodes| - 1];
    last.position == q && (if reverse then last.children != [] else last.parents != [])
  }

  /** Going eps of the way leaves eps less to go. */
  lemma AdvanceCuts(pl: Planner, a: Configuration, q: Configuration, eps: real)
    requires pl.Valid() && pl.Has(a) && pl.Has(q) && 0.0 < eps < pl.Dist(a, q)
    ensures var q' := Interpolate(pl.space, a, q, eps / pl.Dist(a, q));
      pl.Dist(q', q) == pl.Dist(a, q) - eps && pl.Dist(a, q') == eps
  {
    hide Product, Distance, Interpolate, OnWay;
    var d := pl.Dist(a, q);
    var r := eps / d;
    var q' := Interpolate(pl.space, a, q, r);
    DivideBack(eps, d);
    assert 0.0 < r < 1.0 by { FractionInside(eps, d); }
    StartOnWay(pl.space, a, q);
    EndOnWay(pl.space, a, q);
    InterpolatedOnWay(pl.space, a, q, r);
    DistanceOnWay(pl.space, a, q, r, 1.0, q', q, pl.sqrt);
    DistanceOnWay(pl.space, a, q, 0.0, r, a, q', pl.sqrt);
    ProductSub(1.0, r, d);
    ProductUnits(d);
  }

  lemma FractionInside(e: real, d: real)
    requires 0.0 < e < d
    ensures 0.0 < e / d < 1.0
  {
    hide Product;
    var r := e / d;
    DivideBack(e, d);
    ProductComm(r, d);
    ProductSub(d, 1.0, r);
    ProductUnits(d);
    PositiveFactor(d, r);
    PositiveFactor(d, 1.0 - r);
  }

  /** Where an extension from node n towards q is to get: to q if it is within eps, otherwise eps of the way. */
  ghost function Aim(pl: Planner, n: Configuration, q: Configuration, eps: real): Configuration
    requires pl.Valid() && pl.Has(n) && pl.Has(q) && eps > 0.0
  {
    if pl.Dist(n, q) > eps then Interpolate(pl.space, n, q, eps / pl.Dist(n, q)) else q
  }

  /** The motion between a node and a configuration in the direction in which the tree grows. */
  ghost predicate Passable(pl: Planner, n: Configuration, q: Configuration, reverse: bool)
    requires pl.Valid() && pl.Has(n) && pl.Has(q)
  {
    if reverse then Reachable(pl, q, n) else Reachable(pl, n, q)
  }

  ghost predicate Nearest(pl: Planner, nodes: seq<RoadmapNode>, q: Configuration, i: int)
    requires pl.Valid() && pl.Has(q) && forall n | n in nodes :: pl.Has(n.position)
  {
    && 0 <= i < |nodes|
    && (forall n | n in nodes :: pl.Dist(nodes[i].position, q) <= pl.Dist(n.position, q))
    && (forall k | 0 <= k < i :: pl.Dist(nodes[i].position, q) < pl.Dist(nodes[k].position, q))
  }

  /** An extension from node i gives the answer that its motion asks for. */
  ghost predicate Answers(pl: Planner, n: Configuration, q: Configuration, eps: real, reverse: bool,
                          ret: ExtendResult, reached: Configuration)
    requires pl.Valid() && pl.Has(n) && pl.Has(q) && eps > 0.0
  {
    var aim := Aim(pl, n, q, eps);
    && pl.Has(aim) && (ret != Trapped ==> reached == aim)
    && ret == if !Passable(pl, n, aim, reverse) then Trapped
              else if pl.Dist(n, q) <= eps then Reached else Advanced
  }

  /** An extension of a tree with these nodes towards q gives the answer of the nearest node, and is trapped if there
      is none. */
  ghost predicate Answered(pl: Planner, nodes: seq<RoadmapNode>, q: Configuration, eps: real, reverse: bool,
                           ret: ExtendResult, reached: Configuration)
    requires pl.Valid() && pl.Has(q) && eps > 0.0 && forall n | n in nodes :: pl.Has(n.position)
  {
    if nodes == [] then ret == Trapped
    else exists i | Nearest(pl, nodes, q, i) :: Answers(pl, nodes[i].position, q, eps, reverse, ret, reached)
  }

  /** There is no way on from the nearest node towards q. */
  ghost predicate Blocked(pl: Planner, nodes: seq<RoadmapNode>, q: Configuration, eps: real, reverse: bool)
    requires pl.Valid() && pl.Has(q) && eps > 0.0 && forall n | n in nodes :: pl.Has(n.position)
  {
    Answered(pl, nodes, q, eps, reverse, Trapped, q)
  }

  /** Nothing is in the way. */
  ghost predicate Free(pl: Planner) { forall c: Configuration :: !pl.collides(c) }

  lemma FreeIsPassable(pl: Planner, n: Configuration, q: Configuration, reverse: bool)
    requires pl.Valid() && pl.Has(n) && pl.Has(q) && Free(pl)
    ensures Passable(pl, n, q, reverse)
  {
    hide PathOf;
  }

  lemma FreeIsOpen(pl: Planner, nodes: seq<RoadmapNode>, q: Configuration, eps: real, reverse: bool)
    requires pl.Valid() && pl.Has(q) && eps > 0.0 && (forall n | n in nodes :: pl.Has(n.position)) && Free(pl)
    requires nodes != []
    ensures !Blocked(pl, nodes, q, eps, reverse)
  {
    hide Reachable, Aim, Passable, Free, Distance;
    forall i | Nearest(pl, nodes, q, i)
      ensures !Answers(pl, nodes[i].position, q, eps, reverse, Trapped, q)
    {
      if pl.Has(Aim(pl, nodes[i].position, q, eps)) {
        FreeIsPassable(pl, nodes[i].position, Aim(pl, nodes[i].position, q, eps), reverse);
      }
    }
  }

  /** A trapped extension says that there is no way on, wherever it got. */
  lemma TrappedIsBlocked(pl: Planner, nodes: seq<RoadmapNode>, q: Configuration, eps: real, reverse: bool,
                         reached: Configuration)
    requires pl.Valid() && pl.Has(q) && eps > 0.0 && forall n | n in nodes :: pl.Has(n.position)
    requires Answered(pl, nodes, q, eps, reverse, Trapped, reached)
    ensures Blocked(pl, nodes, q, eps, reverse)
  {
    hide Reachable, Aim, Passable, Nearest;
  }

  ghost predicate Longer(before: seq<RoadmapNode>, after: seq<RoadmapNode>) {
    |before| <= |after| && after[..|before|] == before
  }

  /** The tree with one more edge, from or to its new last node. */
  method Grow(tree: Roadmap, minNode: RoadmapNode, q: Configuration, reverse: bool, ghost roots: set<Configuration>)
    requires Tree(tree, roots, reverse) && minNode in tree.nodes && tree.planner.Has(q)
    requires if reverse then Reachable(tree.planner, q, minNode.position)
             else Reachable(tree.planner, minNode.position, q)
    modifies tree`nodes, tree`nEdges, minNode`children, minNode`parents
    ensures |tree.nodes| == |old(tree.nodes)| + 1 && tree.nodes[..|old(tree.nodes)|] == old(tree.nodes)
    ensures fresh(tree.nodes[|tree.nodes| - 1]) && EndsAt(tree, q, reverse)
    ensures Tree(tree, roots, reverse)
  {
    hide Reachable;
    ghost var before := tree.nodes;
    ghost var j :| 0 <= j < |tree.nodes| && tree.nodes[j] == minNode;
    var newNode := new RoadmapNode(q);
    tree.AddNode(newNode);
    if reverse {
      tree.AddEdge(newNode, minNode);
    } else {
      tree.AddEdge(minNode, newNode);
    }
    forall k | 0 <= k < |tree.nodes|
      ensures if reverse then Ingrown(tree, roots, k) else Outgrown(tree, roots, k)
    {
      if k < |before| {
        assert tree.nodes[k] == before[k];
        assert if reverse then old(Ingrown(tree, roots, k)) else old(Outgrown(tree, roots, k));
        if reverse && tree.nodes[k].children != [] {
          ghost var i :| 0 <= i < k && tree.nodes[k].children[0] == before[i]
                         && Reachable(tree.planner, tree.nodes[k].position, before[i].position);
          assert tree.nodes[i] == before[i];
        } else if !reverse && tree.nodes[k].parents != [] {
          ghost var i :| 0 <= i < k && tree.nodes[k].parents[0] == before[i]
                         && Reachable(tree.planner, before[i].position, tree.nodes[k].position);
          assert tree.nodes[i] == before[i];
        }
      } else {
        assert tree.nodes[j] == minNode;
      }
    }
  }

  /** Where the tree is to get, and whether it can get there. */
  method TakeAim(pl: Planner, n: Configuration, q: Configuration, min: real, eps: real, reverse: bool)
    returns (aim: Configuration, reachable: bool)
    requires pl.Valid() && pl.Has(n) && pl.Has(q) && eps > 0.0 && min == pl.Dist(n, q)
    ensures aim == Aim(pl, n, q, eps) && pl.Has(aim) && reachable == Passable(pl, n, aim, reverse)
    ensures min > eps ==> pl.Dist(aim, q) == min - eps
    ensures min <= eps ==> aim == q
  {
    hide Distance, Interpolate, Reachable;
    aim := q;
    if min > eps {
      AdvanceCuts(pl, n, q, eps);
      aim := InterpolateConfiguration(pl.space, n, q, eps / min);
    }
    if reverse {
      reachable := IsReachable(pl, aim, n, true);
    } else {
      reachable := IsReachable(pl, n, aim, true);
    }
  }

  /** The tree reaches for a configuration: it gets there, goes eps of the way from its nearest node,
      or is trapped by a collision. */
  method Extend(tree: Roadmap, qRand0: Configuration, eps: real, reverse: bool, ghost roots: set<Configuration>)
    returns (ret: ExtendResult, qRand: Configuration)
    requires Tree(tree, roots, reverse) && tree.planner.Has(qRand0) && eps > 0.0
    modifies tree`nodes, tree`nEdges, tree.nodes`children, tree.nodes`parents
    ensures Tree(tree, roots, reverse) && tree.planner.Has(qRand)
    ensures Answered(tree.planner, old(tree.nodes), qRand0, eps, reverse, ret, qRand)
    ensures ret == Trapped ==> tree.nodes == old(tree.nodes)
    ensures ret != Trapped ==>
      && |tree.nodes| == |old(tree.nodes)| + 1 && Longer(old(tree.nodes), tree.nodes)
      && fresh(tree.nodes[|tree.nodes| - 1]) && EndsAt(tree, qRand, reverse)
    ensures ret == Reached ==> qRand == qRand0
    ensures ret == Advanced ==> forall n | n in old(tree.nodes) ::
      tree.planner.Dist(qRand, qRand0) + eps <= tree.planner.Dist(n.position, qRand0)
    ensures ret == Advanced ==> tree.planner.Dist(qRand, qRand0) > 0.0
  {
    hide Distance, Interpolate, Reachable, Outgrown, Ingrown, Aim, Passable, Nearest, Answered;
    var mobility := tree.planner;
    qRand := qRand0;
    var minNode, min := tree.FindNearestNode(qRand);
    ghost var nodes := tree.nodes;
    if minNode != null {
      var aim, reachable := TakeAim(mobility, minNode.position, qRand, min, eps, reverse);
      qRand := aim;
      if reachable {
        PassableIs(mobility, minNode.position, qRand, reverse);
        Grow(tree, minNode, qRand, reverse, roots);
        ret := if min <= eps then Reached else Advanced;
      } else {
        ret := Trapped;
      }
      AnswerOfNearest(mobility, nodes, minNode, qRand0, eps, reverse, ret, qRand);
    } else {
      ret := Trapped;
      NoAnswer(mobility, qRand0, eps, reverse, qRand);
    }
  }

  lemma PassableIs(pl: Planner, n: Configuration, q: Configuration, reverse: bool)
    requires pl.Valid() && pl.Has(n) && pl.Has(q) && Passable(pl, n, q, reverse)
    ensures if reverse then Reachable(pl, q, n) else Reachable(pl, n, q)
  {}

  lemma NoAnswer(pl: Planner, q: Configuration, eps: real, reverse: bool, reached: Configuration)
    requires pl.Valid() && pl.Has(q) && eps > 0.0
    ensures Answered(pl, [], q, eps, reverse, Trapped, reached)
  {}

  lemma AnswerOfNearest(pl: Planner, nodes: seq<RoadmapNode>, n: RoadmapNode, q: Configuration, eps: real,
                        reverse: bool, ret: ExtendResult, reached: Configuration)
    requires pl.Valid() && pl.Has(q) && eps > 0.0 && n in nodes && forall n | n in nodes :: pl.Has(n.position)
    requires forall k | k in nodes :: pl.Dist(n.position, q) <= pl.Dist(k.position, q)
    requires exists i | 0 <= i < |nodes| ::
               nodes[i] == n && forall k | 0 <= k < i :: pl.Dist(n.position, q) < pl.Dist(nodes[k].position, q)
    requires Answers(pl, n.position, q, eps, reverse, ret, reached)
    ensures Answered(pl, nodes, q, eps, reverse, ret, reached)
  {
    hide Reachable, Aim, Passable, Distance;
    var i :| 0 <= i < |nodes| && nodes[i] == n
             && forall k | 0 <= k < i :: pl.Dist(n.position, q) < pl.Dist(nodes[k].position, q);
    assert Nearest(pl, nodes, q, i);
  }

  /** One more extension towards qNew, of a tree that may end at q0 after the last one. */
  method ExtendOnce(tree: Roadmap, qNew: Configuration, ghost q0: Configuration, eps: real, reverse: bool,
                    ghost roots: set<Configuration>)
    returns (ret: ExtendResult, q: Configuration)
    requires Tree(tree, roots, reverse) && tree.planner.Has(qNew) && tree.planner.Has(q0) && eps > 0.0
    modifies tree`nodes, tree`nEdges, tree.nodes`children, tree.nodes`parents
    ensures Tree(tree, roots, reverse) && tree.planner.Has(q) && Longer(old(tree.nodes), tree.nodes)
    ensures forall k | |old(tree.nodes)| <= k < |tree.nodes| :: fresh(tree.nodes[k])
    ensures ret != Trapped ==> EndsAt(tree, q, reverse)
    ensures ret == Reached ==> q == qNew
    ensures ret == Trapped ==> Stuck(tree, qNew, eps, reverse)
    ensures ret == Advanced ==> tree.planner.Dist(q, qNew) > 0.0
    ensures ret == Advanced && old(EndsAt(tree, q0, reverse)) ==>
              tree.planner.Dist(q, qNew) + eps <= tree.planner.Dist(q0, qNew)
  {
    hide Distance, Tree, Answered, Stuck;
    TreeIsSized(tree, roots, reverse);
    assert EndsAt(tree, q0, reverse) ==> tree.nodes[|tree.nodes| - 1] in tree.nodes;
    ret, q := Extend(tree, qNew, eps, reverse, roots);
    TreeIsSized(tree, roots, reverse);
    if ret == Trapped {
      TrappedIsStuck(tree, qNew, eps, reverse, q);
    }
  }

  /** Extending until trapped or there. Each step that only advances cuts the distance to go by eps,
      so there are finitely many. */
  method Connect(tree: Roadmap, qNew: Configuration, eps: real, reverse: bool, ghost roots: set<Configuration>)
    returns (ret: ExtendResult)
    requires Tree(tree, roots, reverse) && tree.planner.Has(qNew) && eps > 0.0
    modifies tree`nodes, tree`nEdges, tree.nodes`children, tree.nodes`parents
    ensures Tree(tree, roots, reverse) && ret != Advanced
    ensures Longer(old(tree.nodes), tree.nodes)
    ensures forall k | |old(tree.nodes)| <= k < |tree.nodes| :: fresh(tree.nodes[k])
    ensures ret == Reached ==> EndsAt(tree, qNew, reverse)
    ensures ret == Trapped ==> Stuck(tree, qNew, eps, reverse)
  {
    hide Distance, Tree, Answered, Stuck, EndsAt, Sized;
    TreeIsSized(tree, roots, reverse);
    var q;
    ret, q := ExtendOnce(tree, qNew, qNew, eps, reverse, roots);
    ghost var best := q;
    while ret == Advanced
      invariant Tree(tree, roots, reverse)
      invariant Longer(old(tree.nodes), tree.nodes)
      invariant forall k | |old(tree.nodes)| <= k < |tree.nodes| :: fresh(tree.nodes[k])
      invariant ret != Trapped ==> EndsAt(tree, q, reverse)
      invariant ret == Reached ==> q == qNew
      invariant ret == Trapped ==> Stuck(tree, qNew, eps, reverse)
      invariant ret == Advanced ==> tree.planner.Has(q) && best == q && tree.planner.Dist(q, qNew) > 0.0
      decreases if ret == Advanced then (tree.planner.Dist(best, qNew) / eps).Floor + 1 else 0
    {
      ghost var d := tree.planner.Dist(q, qNew);
      ret, q := ExtendOnce(tree, qNew, q, eps, reverse, roots);
      if ret == Advanced {
        FewerLeft(d, tree.planner.Dist(q, qNew), eps);
      }
      best := q;
    }
  }

  lemma FreeIsNotTrapped(pl: Planner, nodes: seq<RoadmapNode>, q: Configuration, eps: real, reverse: bool,
                         ret: ExtendResult, reached: Configuration)
    requires pl.Valid() && pl.Has(q) && eps > 0.0 && forall n | n in nodes :: pl.Has(n.position)
    requires Answered(pl, nodes, q, eps, reverse, ret, reached) && Free(pl) && nodes != []
    ensures ret != Trapped
  {
    hide Answered, Free;
    if ret == Trapped {
      TrappedIsBlocked(pl, nodes, q, eps, reverse, reached);
      FreeIsOpen(pl, nodes, q, eps, reverse);
    }
  }

  /** A tree that has no way on towards q. */
  ghost predicate Stuck(t: Roadmap, q: Configuration, eps: real, reverse: bool)
    reads t`nodes
  {
    Sized(t) && t.planner.Has(q) && eps > 0.0 && Blocked(t.planner, t.nodes, q, eps, reverse)
  }

  lemma TrappedIsStuck(t: Roadmap, q: Configuration, eps: real, reverse: bool, reached: Configuration)
    requires Sized(t) && t.planner.Has(q) && eps > 0.0
    requires Answered(t.planner, t.nodes, q, eps, reverse, Trapped, reached)
    ensures Stuck(t, q, eps, reverse)
  {
    hide Answered;
    TrappedIsBlocked(t.planner, t.nodes, q, eps, reverse, reached);
  }

  lemma FreeIsUnstuck(t: Roadmap, q: Configuration, eps: real, reverse: bool)
    requires Free(t.planner) && t.nodes != []
    ensures !Stuck(t, q, eps, reverse)
  {
    hide Blocked, Free;
    if Stuck(t, q, eps, reverse) {
      FreeIsOpen(t.planner, t.nodes, q, eps, reverse);
    }
  }

  lemma TreeIsSized(t: Roadmap, roots: set<Configuration>, reverse: bool)
    requires Tree(t, roots, reverse)
    ensures Sized(t)
  {}

  lemma FewerLeft(d: real, d': real, eps: real)
    requires eps > 0.0 && 0.0 < d' && d' + eps <= d
    ensures 0 <= (d' / eps).Floor < (d / eps).Floor
  {
    hide Product;
    var x, y := d / eps, d' / eps;
    DivideBack(d, eps);
    DivideBack(d', eps);
    ProductSub(x, y, eps);
    ProductSub(x - y, 1.0, eps);
    ProductUnits(eps);
    ProductComm(eps, x - y - 1.0);
    ProductComm(eps, y);
    PositiveFactor(eps, y);
    PositiveFactor(eps, x - y - 1.0);
    assert x - y - 1.0 >= 0.0;
  }

  function Parent(n: RoadmapNode): RoadmapNode?
    reads n`parents
  {
    if |n.parents| > 0 then n.parents[0] else null
  }

  function Child(n: RoadmapNode): RoadmapNode?
    reads n`children
  {
    if |n.children| > 0 then n.children[0] else null
  }

  /** From a root down to the last node of the tree, found from the last node up. */
  method ClimbToRoot(t: Roadmap, ghost roots: set<Configuration>) returns (path: seq<Configuration>)
    requires Tree(t, roots, false) && |t.nodes| > 0
    ensures Linked(t.planner, path) && |path| > 0 && path[0] in roots
    ensures path[|path| - 1] == t.nodes[|t.nodes| - 1].position
    ensures t.nodes[|t.nodes| - 1].parents != [] ==> |path| >= 2
  {
    hide Reachable;
    path := [];
    var node: RoadmapNode? := t.nodes[|t.nodes| - 1];
    ghost var k := |t.nodes| - 1;
    while node != null
      invariant node != null ==> 0 <= k < |t.nodes| && node == t.nodes[k] && (path == [] ==> k == |t.nodes| - 1)
      invariant Linked(t.planner, path)
      invariant node != null && path != [] ==> Reachable(t.planner, node.position, path[0])
      invariant node == null ==> path != [] && path[0] in roots
      invariant path != [] ==> path[|path| - 1] == t.nodes[|t.nodes| - 1].position
      invariant path != [] && t.nodes[|t.nodes| - 1].parents != [] && node == null ==> |path| >= 2
      decreases if node == null then 0 else k + 1
    {
      ghost var rest := path;
      path := [node.position] + path;
      assert Outgrown(t, roots, k);
      ghost var up := k;
      if node.parents != [] {
        up :| 0 <= up < k && node.parents[0] == t.nodes[up]
            && Reachable(t.planner, t.nodes[up].position, node.position);
      }
      node := Parent(node);
      k := up;
    }
  }

  /** From the last node of the tree to a root. */
  method DescendToGoal(t: Roadmap, ghost roots: set<Configuration>) returns (path: seq<Configuration>)
    requires Tree(t, roots, true) && |t.nodes| > 0
    ensures Linked(t.planner, path) && |path| > 0 && path[|path| - 1] in roots
    ensures path[0] == t.nodes[|t.nodes| - 1].position
    ensures t.nodes[|t.nodes| - 1].children != [] ==> |path| >= 2
  {
    hide Reachable;
    path := [];
    var node: RoadmapNode? := t.nodes[|t.nodes| - 1];
    ghost var k := |t.nodes| - 1;
    while node != null
      invariant node != null ==> 0 <= k < |t.nodes| && node == t.nodes[k] && (path == [] ==> k == |t.nodes| - 1)
      invariant Linked(t.planner, path)
      invariant node != null && path != [] ==> Reachable(t.planner, path[|path| - 1], node.position)
      invariant node == null ==> path != [] && path[|path| - 1] in roots
      invariant path != [] ==> path[0] == t.nodes[|t.nodes| - 1].position
      invariant path != [] && t.nodes[|t.nodes| - 1].children != [] && node == null ==> |path| >= 2
      decreases if node == null then 0 else k + 1
    {
      path := path + [node.position];
      assert Ingrown(t, roots, k);
      ghost var down := k;
      if node.children != [] {
        down :| 0 <= down < k && node.children[0] == t.nodes[down]
            && Reachable(t.planner, node.position, t.nodes[down].position);
      }
      node := Child(node);
      k := down;
    }
  }

  lemma Stay(pl: Planner, q: Configuration)
    requires pl.Valid() && pl.Has(q) && !pl.collides(q)
    ensures Reachable(pl, q, q)
  {
    StartOnWay(pl.space, q, q);
    hide Product, Distance, OnWay;
    DistanceOnWay(pl.space, q, q, 0.0, 0.0, q, q, pl.sqrt);
    ProductUnits(pl.Dist(q, q));
    assert 0.0 / pl.interpolationDistance == 0.0;
    assert Steps(pl, q, q) == 1;
    hide Steps, Interpolate;
    assert PathOf(pl, q, q) == [q, q];
  }

  /** Two linked paths that meet at q, which both of them hold, make one. */
  lemma Meet(pl: Planner, up: seq<Configuration>, down: seq<Configuration>)
    requires pl.Valid() && Linked(pl, up) && Linked(pl, down) && |up| > 0 && |down| > 1 && up[|up| - 1] == down[0]
    ensures Linked(pl, up + down)
  {
    hide Steps;
    assert Reachable(pl, down[0], down[1]) && PathOf(pl, down[0], down[1])[0] == down[0];
    Stay(pl, down[0]);
    hide Reachable;
  }

  /** Both trees end at q. */
  ghost predicate MeetAt(a: Roadmap, b: Roadmap, q: Configuration, reverse: bool)
    reads a`nodes, a.nodes`parents, a.nodes`children, b`nodes, b.nodes`parents, b.nodes`children
  {
    EndsAt(a, q, reverse) && EndsAt(b, q, !reverse)
  }

  lemma EndOf(t: Roadmap, q: Configuration, reverse: bool)
    ensures EndsAt(t, q, reverse) ==> t.nodes != [] && t.nodes[|t.nodes| - 1].position == q
  {}

  /** The second tree has no way on towards the end of the first. */
  ghost predicate StuckAtEnd(first: Roadmap, second: Roadmap, eps: real, reverse: bool)
    reads first`nodes, second`nodes
  {
    first.nodes != [] && Stuck(second, first.nodes[|first.nodes| - 1].position, eps, !reverse)
  }

  /** One tree reaches for a configuration, and the other for where the first one got. */
  method ExtendThenConnect(first: Roadmap, second: Roadmap, q0: Configuration, eps: real, reverse: bool,
                           ghost roots1: set<Configuration>, ghost roots2: set<Configuration>)
    returns (joined: bool)
    requires Tree(first, roots1, reverse) && Tree(second, roots2, !reverse) && first != second && eps > 0.0
    requires first.planner == second.planner && first.planner.Has(q0)
    requires forall n | n in first.nodes :: n !in second.nodes
    modifies first`nodes, first`nEdges, first.nodes`children, first.nodes`parents
    modifies second`nodes, second`nEdges, second.nodes`children, second.nodes`parents
    ensures Tree(first, roots1, reverse) && Tree(second, roots2, !reverse)
    ensures forall n | n in first.nodes :: n !in second.nodes
    ensures Longer(old(first.nodes), first.nodes)
    ensures forall k | |old(first.nodes)| <= k < |first.nodes| :: fresh(first.nodes[k])
    ensures Longer(old(second.nodes), second.nodes)
    ensures forall k | |old(second.nodes)| <= k < |second.nodes| :: fresh(second.nodes[k])
    ensures joined ==> exists q :: MeetAt(first, second, q, reverse)
    ensures Free(first.planner) && old(first.nodes) != [] && old(second.nodes) != [] ==> joined
    ensures !joined ==> Blocked(first.planner, old(first.nodes), q0, eps, reverse)
                        || StuckAtEnd(first, second, eps, reverse)
  {
    hide Tree, Answered, Stuck, Free, EndsAt, Blocked;
    joined := false;
    TreeIsSized(first, roots1, reverse);
    ghost var nodes := first.nodes;
    var ret, q := Extend(first, q0, eps, reverse, roots1);
    if Free(first.planner) && nodes != [] {
      FreeIsNotTrapped(first.planner, nodes, q0, eps, reverse, ret, q);
    }
    assert forall n | n in second.nodes :: n.children == old(n.children) && n.parents == old(n.parents);
    if ret != Trapped {
      assert first.nodes == old(first.nodes) + [first.nodes[|first.nodes| - 1]];
      assert forall n | n in first.nodes :: n !in second.nodes;
      label Extended:
      ret := Connect(second, q, eps, !reverse, roots2);
      assert forall n | n in first.nodes ::
          n.children == old@Extended(n.children) && n.parents == old@Extended(n.parents);
      joined := ret == Reached;
      if Free(second.planner) && second.nodes != [] {
        FreeIsUnstuck(second, q, eps, !reverse);
      }
      assert joined ==> MeetAt(first, second, q, reverse);
      EndOf(first, q, reverse);
    } else {
      TrappedIsBlocked(first.planner, nodes, q0, eps, reverse, q);
    }
  }

  class RRT {
    const Ta: Roadmap
    const Tb: Roadmap
    const start: Configuration
    const goal: Configuration
    const extraGoals: seq<Configuration>
    const eps: real
    const times: int
    const extendFromStart: bool
    const extendFromGoal: bool
    var path: seq<Configuration>

    constructor (pl: Planner, start: Configuration, goal: Configuration, extraGoals: seq<Configuration>,
                 eps: real, times: int, extendFromStart: bool, extendFromGoal: bool)
      requires pl.Valid() && pl.Has(start) && pl.Has(goal) && eps > 0.0
      requires forall i | 0 <= i < |extraGoals| :: pl.Has(extraGoals[i])
      ensures Ready() && fresh(Ta) && fresh(Tb) && Ta.planner == pl
      ensures this.start == start && this.goal == goal && this.extraGoals == extraGoals
      ensures this.extendFromGoal == extendFromGoal
    {
      Ta := new Roadmap(pl);
      Tb := new Roadmap(pl);
      this.start, this.goal, this.extraGoals := start, goal, extraGoals;
      this.eps, this.times, this.extendFromStart, this.extendFromGoal := eps, times, extendFromStart, extendFromGoal;
      path := [];
    }

    /** Fresh trees, and settings the planner can work with. */
    ghost predicate Ready()
      reads Ta, Tb
    {
      && Ta != Tb && Ta.planner == Tb.planner && Ta.planner.Valid() && eps > 0.0
      && Ta.nodes == Tb.nodes == []
      && Ta.planner.Has(start) && Ta.planner.Has(goal)
      && forall i | 0 <= i < |extraGoals| :: Ta.planner.Has(extraGoals[i])
    }

    ghost function Goals(): set<Configuration> {
      {goal} + set i | 0 <= i < |extraGoals| :: extraGoals[i]
    }

    /** The two trees grow from the start and towards the goals, and share no node. */
    ghost predicate Growing()
      reads Ta, Tb, Ta.nodes, Tb.nodes
    {
      && Ta != Tb && Ta.planner == Tb.planner && eps > 0.0 && Ta.planner.Has(goal) && Ta.planner.Valid()
      && Tree(Ta, {start}, false) && Tree(Tb, Goals(), true) && |Ta.nodes| > 0 && |Tb.nodes| > 0
      && forall n | n in Ta.nodes :: n !in Tb.nodes
    }

    /** Both trees end at the same place, or the tree from the start ends at the goal. */
    ghost predicate Joined()
      reads Ta, Tb, Ta.nodes, Tb.nodes
    {
      if extendFromStart && extendFromGoal then
        exists q :: MeetAt(Ta, Tb, q, false)
      else
        extendFromStart && EndsAt(Ta, goal, false)
    }

    method PlantTrees()
      requires Ready()
      modifies Ta`nodes, Tb`nodes
      ensures Growing() && fresh(Ta.nodes) && fresh(Tb.nodes)
      ensures |Ta.nodes| == 1 && Ta.nodes[0].position == start
      ensures |Tb.nodes| == 1 + |extraGoals| && Tb.nodes[0].position == goal
      ensures forall k | 0 <= k < |extraGoals| :: Tb.nodes[1 + k].position == extraGoals[k]
    {
      var startNode := new RoadmapNode(start);
      var goalNode := new RoadmapNode(goal);
      Ta.AddNode(startNode);
      Tb.AddNode(goalNode);
      var i := 0;
      while i < |extraGoals|
        invariant 0 <= i <= |extraGoals|
        invariant Ta.nodes == [startNode] && startNode.parents == [] && startNode.position == start
        invariant startNode !in Tb.nodes && fresh(Tb.nodes) && |Tb.nodes| == 1 + i && Tb.nodes[0].position == goal
        invariant forall k | 0 <= k < i :: Tb.nodes[1 + k].position == extraGoals[k]
        invariant forall n | n in Tb.nodes :: n.children == [] && n.position in Goals() && Tb.planner.Has(n.position)
      {
        var node := new RoadmapNode(extraGoals[i]);
        Tb.AddNode(node);
        i := i + 1;
      }
      assert forall k | 0 <= k < |Ta.nodes| :: Outgrown(Ta, {start}, k);
      forall k | 0 <= k < |Tb.nodes| ensures Ingrown(Tb, Goals(), k) {
        assert Tb.nodes[k] in Tb.nodes;
      }
    }

    /** The tree from the start reaches for a configuration, and then for the goal. */
    method ExtendToGoal(qNew0: Configuration) returns (isSucceed: bool)
      requires Tree(Ta, {start}, false) && Ta.planner.Has(qNew0) && Ta.planner.Has(goal) && eps > 0.0
      modifies Ta`nodes, Ta`nEdges, Ta.nodes`children, Ta.nodes`parents
      ensures Tree(Ta, {start}, false) && (isSucceed ==> EndsAt(Ta, goal, false))
      ensures Free(Ta.planner) && old(Ta.nodes) != [] ==> isSucceed
      ensures !isSucceed ==>
                Blocked(Ta.planner, old(Ta.nodes), qNew0, eps, false) || Stuck(Ta, goal, eps, false)
      ensures Longer(old(Ta.nodes), Ta.nodes) && forall k | |old(Ta.nodes)| <= k < |Ta.nodes| :: fresh(Ta.nodes[k])
    {
      hide Tree, Answered, Stuck, Free, Blocked;
      isSucceed := false;
      TreeIsSized(Ta, {start}, false);
      ghost var nodes := Ta.nodes;
      var ret, qNew := Extend(Ta, qNew0, eps, false, {start});
      if Free(Ta.planner) && nodes != [] {
        FreeIsNotTrapped(Ta.planner, nodes, qNew0, eps, false, ret, qNew);
      }
      if ret != Trapped {
        ret := Connect(Ta, goal, eps, false, {start});
        isSucceed := ret == Reached;
        if Free(Ta.planner) {
          FreeIsUnstuck(Ta, goal, eps, false);
        }
      } else {
        TrappedIsBlocked(Ta.planner, nodes, qNew0, eps, false, qNew);
      }
    }

    /** One trial. A trial that joins the trees ends the search. */
    method Trial(qNew0: Configuration, isTaStart: bool) returns (isSucceed: bool)
      requires Growing() && Ta.planner.Has(qNew0)
      modifies Ta, Tb, Ta.nodes, Tb.nodes
      ensures Growing() && (isSucceed ==> Joined())
      ensures Free(Ta.planner) && extendFromStart ==> isSucceed
      ensures !isSucceed && extendFromStart ==>
                if extendFromGoal && !isTaStart
                then Blocked(Tb.planner, old(Tb.nodes), qNew0, eps, true) || StuckAtEnd(Tb, Ta, eps, true)
                else Blocked(Ta.planner, old(Ta.nodes), qNew0, eps, false)
                     || if extendFromGoal then StuckAtEnd(Ta, Tb, eps, false) else Stuck(Ta, goal, eps, false)
      ensures Longer(old(Ta.nodes), Ta.nodes) && forall k | |old(Ta.nodes)| <= k < |Ta.nodes| :: fresh(Ta.nodes[k])
      ensures Longer(old(Tb.nodes), Tb.nodes) && forall k | |old(Tb.nodes)| <= k < |Tb.nodes| :: fresh(Tb.nodes[k])
    {
      hide Tree, Answered, Stuck, Free, Blocked;
      isSucceed := false;
      var qNew := qNew0;
      if extendFromStart && extendFromGoal {
        if isTaStart {
          isSucceed := ExtendThenConnect(Ta, Tb, qNew, eps, false, {start}, Goals());
        } else {
          isSucceed := ExtendThenConnect(Tb, Ta, qNew, eps, true, Goals(), {start});
          if isSucceed {
            ghost var q :| MeetAt(Tb, Ta, q, true);
            assert MeetAt(Ta, Tb, q, false);
          }
        }
      } else if extendFromStart && !extendFromGoal {
        isSucceed := ExtendToGoal(qNew);
        assert forall n | n in Tb.nodes :: n.children == old(n.children) && n.parents == old(n.parents);
      }
    }

    /** The path found, if any: between the last nodes of the trees and their roots. */
    method ExtractPath(ghost joined: bool)
      requires Growing() && (joined ==> Joined())
      modifies `path
      ensures joined ==> Linked(Ta.planner, path) && |path| >= 2 && path[0] == start
                         && path[|path| - 1] in if extendFromGoal then Goals() else {goal}
    {
      hide Tree, Linked;
      path := [];
      ghost var q := start;
      if joined && extendFromGoal {
        assert extendFromStart && Joined();
        q :| MeetAt(Ta, Tb, q, false);
      }
      var up, down := [], [];
      if extendFromStart {
        up := ClimbToRoot(Ta, {start});
        path := up;
      }
      if extendFromGoal {
        down := DescendToGoal(Tb, Goals());
        path := path + down;
      }
      if joined && extendFromGoal {
        Meet(Ta.planner, up, down);
      }
    }

    /** Trials until one joins the trees, as long as the search is let run. */
    method Search(random: nat -> Configuration, isRunning: nat -> bool) returns (isSucceed: bool, ghost trials: nat)
      requires Growing() && forall i :: Ta.planner.Has(random(i))
      modifies Ta, Tb, Ta.nodes, Tb.nodes
      ensures Growing() && (isSucceed ==> Joined())
      ensures Free(Ta.planner) && extendFromStart && times > 0 && isRunning(0) ==> isSucceed
      ensures !isSucceed ==> trials >= times || !isRunning(trials)
      ensures Longer(old(Ta.nodes), Ta.nodes) && forall k | |old(Ta.nodes)| <= k < |Ta.nodes| :: fresh(Ta.nodes[k])
      ensures Longer(old(Tb.nodes), Tb.nodes) && forall k | |old(Tb.nodes)| <= k < |Tb.nodes| :: fresh(Tb.nodes[k])
    {
      hide Tree, Free, Joined, Blocked, Stuck, StuckAtEnd;
      ghost var a0, b0 := Ta.nodes, Tb.nodes;
      var isTaStart := true;
      isSucceed := false;
      trials := 0;
      var i := 0;
      while i < times
        invariant trials == i && Growing() && !isSucceed && (Free(Ta.planner) && extendFromStart ==> i == 0)
        invariant Longer(a0, Ta.nodes) && forall k | |a0| <= k < |Ta.nodes| :: fresh(Ta.nodes[k])
        invariant Longer(b0, Tb.nodes) && forall k | |b0| <= k < |Tb.nodes| :: fresh(Tb.nodes[k])
      {
        if !isRunning(i) {
          break;
        }
        ghost var a, b := Ta.nodes, Tb.nodes;
        isSucceed := Trial(random(i), isTaStart);
        StillLonger(a0, a, Ta.nodes);
        StillLonger(b0, b, Tb.nodes);
        if isSucceed {
          break;
        }
        isTaStart := !isTaStart;
        i := i + 1;
        trials := i;
      }
    }

    /** When the search succeeds, the path leads from the start to a goal, each waypoint reachable from
        the one before, the place where the trees meet given twice. */
    method CalcPath(random: nat -> Configuration, isRunning: nat -> bool) returns (isSucceed: bool, ghost trials: nat)
      requires Ready() && forall i :: Ta.planner.Has(random(i))
      modifies this, Ta, Tb
      ensures isSucceed ==> Linked(Ta.planner, path) && |path| >= 2 && path[0] == start
                            && path[|path| - 1] in if extendFromGoal then Goals() else {goal}
      ensures Free(Ta.planner) && extendFromStart && times > 0 && isRunning(0) ==> isSucceed
      ensures !isSucceed ==> trials >= times || !isRunning(trials)
      ensures Tb.nodes == [] && forall q | q == start || q in Goals() :: Rooted(Ta.nodes, q)
    {
      hide Growing, Joined, Linked, Free, Goals;
      PlantTrees();
      ghost var a0, b0 := Ta.nodes, Tb.nodes;
      isSucceed, trials := Search(random, isRunning);
      ExtractPath(isSucceed);
      RootsKept(a0, b0, Ta.nodes, Tb.nodes);
      Ta.nodes := Ta.nodes + Tb.nodes;
      Tb.nodes := [];
    }

    lemma StillLonger(a: seq<RoadmapNode>, b: seq<RoadmapNode>, c: seq<RoadmapNode>)
      requires Longer(a, b) && Longer(b, c)
      ensures Longer(a, c) && forall k | |a| <= k < |b| :: c[k] == b[k]
    {
      assert forall k | 0 <= k < |b| :: c[k] == c[..|b|][k];
      assert c[..|a|] == b[..|a|];
    }

    ghost predicate Rooted(nodes: seq<RoadmapNode>, q: Configuration) {
      exists n | n in nodes :: n.position == q
    }

    lemma RootsKept(a0: seq<RoadmapNode>, b0: seq<RoadmapNode>, a: seq<RoadmapNode>, b: seq<RoadmapNode>)
      requires Longer(a0, a) && Longer(b0, b) && |a0| == 1 && a0[0].position == start
      requires |b0| == 1 + |extraGoals| && b0[0].position == goal
      requires forall k | 0 <= k < |extraGoals| :: b0[1 + k].position == extraGoals[k]
      ensures forall q | q == start || q in Goals() :: Rooted(a + b, q)
    {
      assert a[0] == a0[0] && a[0] in a + b;
      assert forall k | 0 <= k < |b0| :: b[k] == b0[k] && b[k] in a + b;
    }
  }
}
