/** The numbers of bounding boxes per depth that a collision model keeps, and the boxes it hands out. */
module ColdetModels {
  import opened LinearAlgebra

  datatype Box = Box(center: Vec3, extents: Vec3)

  datatype Node = Leaf(box: Box) | Inner(box: Box, pos: Node, neg: Node)

  /** The depth of the deepest node below n. */
  function Depth(n: Node): nat {
    if n.Leaf? then 0 else 1 + Max(Depth(n.pos), Depth(n.neg))
  }

  function Max(a: int, b: int): int { if a < b then b else a }

  /** The number of nodes d levels below n. */
  function NodesAt(n: Node, d: int): nat {
    if d < 0 then 0 else if d == 0 then 1 else if n.Leaf? then 0 else NodesAt(n.pos, d - 1) + NodesAt(n.neg, d - 1)
  }

  function LeavesAt(n: Node, d: int): nat {
    if d < 0 then 0 else if n.Leaf? then (if d == 0 then 1 else 0)
    else if d == 0 then 0 else LeavesAt(n.pos, d - 1) + LeavesAt(n.neg, d - 1)
  }

  lemma {:induction false} NothingDeeper(n: Node, d: int)
    requires d > Depth(n)
    ensures NodesAt(n, d) == LeavesAt(n, d) == 0
    decreases n
  {
    if n.Inner? {
      NothingDeeper(n.pos, d - 1);
      NothingDeeper(n.neg, d - 1);
    }
  }

  lemma AtParts(n: Node, d: int)
    ensures n.Inner? ==> NodesAt(n, d) == (if d == 0 then 1 else 0) + NodesAt(n.pos, d - 1) + NodesAt(n.neg, d - 1)
    ensures n.Inner? ==> LeavesAt(n, d) == LeavesAt(n.pos, d - 1) + LeavesAt(n.neg, d - 1)
    ensures n.Leaf? ==> NodesAt(n, d) == LeavesAt(n, d) == if d == 0 then 1 else 0
  {}

  lemma DepthParts(n: Node)
    ensures Depth(n) == if n.Leaf? then 0 else 1 + Max(Depth(n.pos), Depth(n.neg))
  {}

  /** The number of leaves less than d levels below n. */
  function LeavesAbove(n: Node, d: nat): nat {
    if d == 0 then 0 else LeavesAbove(n, d - 1) + LeavesAt(n, d - 1)
  }

  /** The nodes shown at depth d: those at that depth, and the leaves above it. */
  ghost function Shown(n: Node, d: nat): seq<Node> {
    if d == 0 || n.Leaf? then [n] else Shown(n.pos, d - 1) + Shown(n.neg, d - 1)
  }

  function Leaves(n: Node): (r: seq<Node>)
    ensures |r| > 0
  {
    if n.Leaf? then [n] else Leaves(n.pos) + Leaves(n.neg)
  }

  /** The leaves below a list of nodes, in order. */
  ghost function LeavesOf(nodes: seq<Node>): seq<Node> {
    if nodes == [] then [] else Leaves(nodes[0]) + LeavesOf(nodes[1..])
  }

  // ---- the numbers ----

  lemma {:induction false} LeavesAboveParts(n: Node, d: nat)
    requires n.Inner?
    ensures LeavesAbove(n, d + 1) == LeavesAbove(n.pos, d) + LeavesAbove(n.neg, d)
  {
    if d > 0 {
      LeavesAboveParts(n, d - 1);
    }
  }

  lemma {:induction false} LeafAbove(n: Node, d: nat)
    requires n.Leaf?
    ensures LeavesAbove(n, d) == if d == 0 then 0 else 1
  {
    if d > 0 {
      LeafAbove(n, d - 1);
    }
  }

  /** The nodes at depth d and the leaves above it are the nodes shown. */
  lemma {:induction false} ShownCount(n: Node, d: nat)
    ensures |Shown(n, d)| == NodesAt(n, d) + LeavesAbove(n, d)
  {
    if n.Leaf? {
      LeafAbove(n, d);
    } else if d > 0 {
      ShownCount(n.pos, d - 1);
      ShownCount(n.neg, d - 1);
      LeavesAboveParts(n, d - 1);
    }
  }

  lemma {:induction false} LeavesOfAppend(a: seq<Node>, b: seq<Node>)
    ensures LeavesOf(a + b) == LeavesOf(a) + LeavesOf(b)
  {
    if a == [] {
      assert a + b == b;
    } else {
      LeavesOfAppend(a[1..], b);
      assert (a + b)[1..] == a[1..] + b;
    }
  }

  /** The subtrees of the nodes shown at any depth hold each leaf once, in order. */
  lemma {:induction false} ShownPartition(n: Node, d: nat)
    ensures LeavesOf(Shown(n, d)) == Leaves(n)
  {
    if d == 0 || n.Leaf? {
      assert [n][1..] == [];
    } else {
      ShownPartition(n.pos, d - 1);
      ShownPartition(n.neg, d - 1);
      LeavesOfAppend(Shown(n.pos, d - 1), Shown(n.neg, d - 1));
    }
  }

  /** Deeper never shows fewer, and at the full depth exactly the leaves are shown. */
  lemma {:induction false} ShownGrows(n: Node, d: nat)
    ensures |Shown(n, d)| <= |Shown(n, d + 1)|
    ensures d >= Depth(n) ==> Shown(n, d) == Leaves(n)
    decreases n, d
  {
    if n.Inner? {
      if d > 0 {
        ShownGrows(n.pos, d - 1);
        ShownGrows(n.neg, d - 1);
      } else {
        assert |Shown(n.pos, 0)| == 1 && |Shown(n.neg, 0)| == 1;
      }
    }
  }

  // ---- the data set ----

  class ColdetModelSharedDataSet {
    var AABBTreeMaxDepth: int
    var numBBMap: seq<int>
    var numLeafMap: seq<int>

    constructor ()
      ensures AABBTreeMaxDepth == 0 && numBBMap == numLeafMap == []
    {
      AABBTreeMaxDepth, numBBMap, numLeafMap := 0, [], [];
    }

    /** Entry i of a list that may not be that long yet. */
    static function At(s: seq<int>, i: int): int {
      if 0 <= i < |s| then s[i] else 0
    }

    /** Counting the nodes and leaves of a subtree into the two lists, which grow to the depth reached. */
    method ComputeDepth(node: Node, currentDepth: nat, max: int) returns (deepest: int)
      requires -1 <= max && currentDepth <= max + 1 && |numBBMap| == |numLeafMap| >= max + 1
      modifies `numBBMap, `numLeafMap
      ensures deepest == Max(max, currentDepth + Depth(node))
      ensures |numBBMap| == |numLeafMap| == |old(numBBMap)| + deepest - max
      ensures forall i | 0 <= i < |numBBMap| ::
        && numBBMap[i] == At(old(numBBMap), i) + NodesAt(node, i - currentDepth)
        && numLeafMap[i] == At(old(numLeafMap), i) + LeavesAt(node, i - currentDepth)
      decreases node
    {
      hide NodesAt, LeavesAt, Depth;
      deepest := max;
      if deepest < currentDepth {
        deepest := currentDepth;
        numBBMap := numBBMap + [0];
        numLeafMap := numLeafMap + [0];
      }
      numBBMap := numBBMap[currentDepth := numBBMap[currentDepth] + 1];
      DepthParts(node);
      ghost var n := |numBBMap|;
      if node.Inner? {
        deepest := ComputeDepth(node.pos, currentDepth + 1, deepest);
        n := |numBBMap|;
        deepest := ComputeDepth(node.neg, currentDepth + 1, deepest);
      } else {
        numLeafMap := numLeafMap[currentDepth := numLeafMap[currentDepth] + 1];
      }
      forall i | 0 <= i < |numBBMap|
        ensures numBBMap[i] == At(old(numBBMap), i) + NodesAt(node, i - currentDepth)
        ensures numLeafMap[i] == At(old(numLeafMap), i) + LeavesAt(node, i - currentDepth)
      {
        AtParts(node, i - currentDepth);
        if node.Inner? && i >= n {
          NothingDeeper(node.pos, i - currentDepth - 1);
        }
      }
    }

    /** What build leaves when it starts from lists b0 and l0. */
    ghost predicate Built(root: Node, b0: seq<int>, l0: seq<int>)
      reads this
    {
      && AABBTreeMaxDepth == Depth(root) + 1
      && |numBBMap| == |numLeafMap| == |b0| + AABBTreeMaxDepth
      && forall i | 0 <= i < |numBBMap| ::
        && numLeafMap[i] == At(l0, i) + LeavesAt(root, i)
        && numBBMap[i] == At(b0, i) + NodesAt(root, i) + if i < AABBTreeMaxDepth then PrefixSum(numLeafMap, i) else 0
    }

    static ghost function PrefixSum(s: seq<int>, i: nat): int
      requires i <= |s|
    {
      if i == 0 then 0 else PrefixSum(s, i - 1) + s[i - 1]
    }

    /** The lists say how many boxes are shown at each depth. */
    ghost predicate Counts(root: Node)
      reads this
    {
      && AABBTreeMaxDepth == Depth(root) + 1 && |numBBMap| >= AABBTreeMaxDepth
      && forall i | 0 <= i < AABBTreeMaxDepth :: numBBMap[i] == |Shown(root, i)|
    }

    /** Nothing has been counted, or at least one root has. */
    ghost predicate Valid()
      reads `numBBMap, `numLeafMap
    {
      |numBBMap| == |numLeafMap| && (numBBMap == [] || numBBMap[0] > 0)
    }

    /** Building the numbers for a tree. The lists are never cleared, so the numbers come out right
        exactly when nothing had been counted before: the first time only. */
    method Build(root: Node)
      requires Valid()
      modifies this
      ensures Valid() && Built(root, old(numBBMap), old(numLeafMap))
      ensures Counts(root) <==> old(numBBMap) == []
    {
      hide NodesAt, LeavesAt, Depth, Shown, Built, Counts, PrefixSum;
      var deepest := ComputeDepth(root, 0, -1);
      AABBTreeMaxDepth := deepest + 1;
      ghost var counted, leaves := numBBMap, numLeafMap;
      var i := 0;
      while i < AABBTreeMaxDepth
        invariant 0 <= i <= AABBTreeMaxDepth == deepest + 1 <= |numBBMap| && |numBBMap| == |counted|
        invariant numLeafMap == leaves
        invariant forall k | 0 <= k < |numBBMap| ::
                    numBBMap[k] == counted[k] + if k < i then PrefixSum(leaves, k) else 0
      {
        AddLeavesAbove(i);
        i := i + 1;
      }
      BuiltFrom(root, counted, old(numBBMap), old(numLeafMap));
      BuiltOnce(root, old(numBBMap), old(numLeafMap));
    }

    lemma BuiltOnce(root: Node, b0: seq<int>, l0: seq<int>)
      requires Built(root, b0, l0) && |b0| == |l0| && (b0 == [] || b0[0] > 0)
      ensures Valid() && (Counts(root) <==> b0 == [])
    {
      FirstEntry(root, b0, l0);
      if b0 == [] {
        BuiltCounts(root);
      }
    }

    lemma BuiltFrom(root: Node, counted: seq<int>, b0: seq<int>, l0: seq<int>)
      requires AABBTreeMaxDepth == Depth(root) + 1 && |numBBMap| == |numLeafMap| == |counted| == |b0| + AABBTreeMaxDepth
      requires forall i | 0 <= i < |counted| ::
                 counted[i] == At(b0, i) + NodesAt(root, i) && numLeafMap[i] == At(l0, i) + LeavesAt(root, i)
      requires forall k | 0 <= k < |numBBMap| ::
                 numBBMap[k] == counted[k] + if k < AABBTreeMaxDepth then PrefixSum(numLeafMap, k) else 0
      ensures Built(root, b0, l0)
    {
      hide PrefixSum, NodesAt, LeavesAt, Depth;
    }

    method AddLeavesAbove(i: nat)
      requires i < |numBBMap| == |numLeafMap|
      modifies `numBBMap
      ensures numBBMap == old(numBBMap)[i := old(numBBMap[i]) + PrefixSum(numLeafMap, i)]
    {
      var j := 0;
      while j < i
        invariant 0 <= j <= i
        invariant numBBMap == old(numBBMap)[i := old(numBBMap[i]) + PrefixSum(numLeafMap, j)]
      {
        numBBMap := numBBMap[i := numBBMap[i] + numLeafMap[j]];
        j := j + 1;
      }
    }

    lemma FirstEntry(root: Node, b0: seq<int>, l0: seq<int>)
      requires Built(root, b0, l0)
      ensures numBBMap[0] == At(b0, 0) + 1 && |Shown(root, 0)| == 1
    {}

    lemma BuiltCounts(root: Node)
      requires Built(root, [], [])
      ensures Counts(root)
    {
      forall d | 0 <= d < AABBTreeMaxDepth ensures numBBMap[d] == |Shown(root, d)| {
        ShownCount(root, d);
        PrefixIsAbove(root, numLeafMap, d);
      }
    }

    static lemma {:induction false} PrefixIsAbove(root: Node, leaves: seq<int>, d: nat)
      requires d <= |leaves| && forall i | 0 <= i < d :: leaves[i] == LeavesAt(root, i)
      ensures PrefixSum(leaves, d) == LeavesAbove(root, d)
    {
      if d > 0 {
        PrefixIsAbove(root, leaves, d - 1);
      }
    }

    /** The least depth with at least minNumofBB boxes, or the number of depths if there is none. */
    method NumofBBtoDepth(minNumofBB: int) returns (d: int)
      requires 0 <= AABBTreeMaxDepth <= |numBBMap|
      ensures 0 <= d <= AABBTreeMaxDepth
      ensures forall i | 0 <= i < d :: numBBMap[i] < minNumofBB
      ensures d < AABBTreeMaxDepth ==> minNumofBB <= numBBMap[d]
    {
      for i := 0 to AABBTreeMaxDepth
        invariant forall k | 0 <= k < i :: numBBMap[k] < minNumofBB
      {
        if minNumofBB <= numBBMap[i] {
          return i;
        }
      }
      d := AABBTreeMaxDepth;
    }

    /** On a model built once, the depth found is the least that shows enough boxes at all, unless no
        depth does, because there are fewer leaves than that. */
    method LeastSufficientDepth(root: Node, minNumofBB: int) returns (d: int)
      requires Counts(root)
      ensures forall e: nat | e < d :: |Shown(root, e)| < minNumofBB
      ensures 0 <= d <= AABBTreeMaxDepth && (d < AABBTreeMaxDepth ==> minNumofBB <= |Shown(root, d)|)
      ensures d == AABBTreeMaxDepth <==> |Leaves(root)| < minNumofBB
    {
      d := NumofBBtoDepth(minNumofBB);
      ShownGrows(root, Depth(root));
      forall e: nat ensures |Shown(root, e)| <= |Leaves(root)| {
        ShownAtMost(root, e);
      }
    }
  }

  lemma {:induction false} ShownAtMost(n: Node, d: nat)
    ensures |Shown(n, d)| <= |Leaves(n)|
    decreases Max(Depth(n) - d, 0)
  {
    ShownGrows(n, d);
    if d < Depth(n) {
      ShownAtMost(n, d + 1);
    }
  }

  // ---- the boxes ----

  /** The boxes of a list of nodes, center and extents in turn. */
  ghost function BoxesOf(nodes: seq<Node>): seq<Vec3> {
    if nodes == [] then []
    else BoxesOf(nodes[..|nodes| - 1]) + [nodes[|nodes| - 1].box.center, nodes[|nodes| - 1].box.extents]
  }

  lemma {:induction false} BoxesOfAppend(a: seq<Node>, b: seq<Node>)
    ensures BoxesOf(a + b) == BoxesOf(a) + BoxesOf(b)
  {
    if b == [] {
      assert a + b == a;
    } else {
      BoxesOfAppend(a, b[..|b| - 1]);
      assert (a + b)[..|a + b| - 1] == a + b[..|b| - 1];
    }
  }

  lemma {:induction false} BoxesOfCount(nodes: seq<Node>)
    ensures |BoxesOf(nodes)| == 2 * |nodes|
  {
    if nodes != [] {
      BoxesOfCount(nodes[..|nodes| - 1]);
    }
  }

  method GetBoundingBoxDataSub(node: Node, currentDepth0: nat, depth: nat, data: seq<Vec3>) returns (outData: seq<Vec3>)
    requires currentDepth0 <= depth
    ensures outData == data + BoxesOf(Shown(node, depth - currentDepth0))
    decreases node
  {
    outData := data;
    var currentDepth := currentDepth0;
    if currentDepth == depth || node.Leaf? {
      outData := outData + [node.box.center];
      outData := outData + [node.box.extents];
      OneBox(node);
    }
    currentDepth := currentDepth + 1;
    if currentDepth > depth {
      return;
    }
    if node.Inner? {
      BoxesOfAppend(Shown(node.pos, depth - currentDepth), Shown(node.neg, depth - currentDepth));
      outData := GetBoundingBoxDataSub(node.pos, currentDepth, depth, outData);
      outData := GetBoundingBoxDataSub(node.neg, currentDepth, depth, outData);
    }
  }

  lemma OneBox(node: Node)
    ensures BoxesOf([node]) == [node.box.center, node.box.extents]
  {
    assert [node][..0] == [];
  }

  /** The boxes at a depth, as many of them as a model built once has counted. */
  method GetBoundingBoxData(dataSet: ColdetModelSharedDataSet, root: Node, depth: nat) returns (outData: seq<Vec3>)
    requires dataSet.Counts(root)
    ensures outData == BoxesOf(Shown(root, depth))
    ensures depth < dataSet.AABBTreeMaxDepth ==> |outData| == 2 * dataSet.numBBMap[depth]
  {
    outData := GetBoundingBoxDataSub(root, 0, depth, []);
    BoxesOfCount(Shown(root, depth));
  }
}
