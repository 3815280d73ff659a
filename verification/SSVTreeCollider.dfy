/** Distance and collision between two meshes by descending two trees of bounding volumes at once. */
module SSVTreeColliders {
  import opened LinearAlgebra

  /** A tree of bounding volumes over primitives. */
  datatype Node<V> = Leaf(vol: V, primitive: int) | Inner(vol: V, neg: Node<V>, pos: Node<V>)

  function Primitives<V>(n: Node<V>): set<int> {
    match n
    case Leaf(_, p) => {p}
    case Inner(_, a, b) => Primitives(a) + Primitives(b)
  }

  /** A distance and the points it is between. */
  datatype Gap = Gap(dist: real, point0: Vec3, point1: Vec3)

  /** What the collider knows of shapes: the distance between volumes, between primitives, and the size
      of a volume, which only decides which tree to descend first. */
  datatype Geometry<!V> = Geometry(ssvSsvDist: (V, V) -> real, primDist: (int, int) -> Gap, size: V -> real)

  /** The volume distance is a lower bound for all primitives beneath, at every pair of nodes. */
  ghost predicate Bounds<V>(g: Geometry<V>, a: Node<V>, b: Node<V>)
    decreases a, b
  {
    && (forall x, y | x in Primitives(a) && y in Primitives(b) :: g.ssvSsvDist(a.vol, b.vol) <= g.primDist(x, y).dist)
    && (a.Inner? ==> Bounds(g, a.neg, b) && Bounds(g, a.pos, b))
    && (b.Inner? ==> Bounds(g, a, b.neg) && Bounds(g, a, b.pos))
  }

  ghost predicate AtLeast<V>(g: Geometry<V>, a: Node<V>, b: Node<V>, d: real) {
    forall x, y | x in Primitives(a) && y in Primitives(b) :: d <= g.primDist(x, y).dist
  }

  /** The primitives of a node are those of its parts. */
  lemma AtLeastParts<V>(g: Geometry<V>, a: Node<V>, b: Node<V>, d: real)
    ensures a.Inner? ==> (AtLeast(g, a, b, d) <==> AtLeast(g, a.neg, b, d) && AtLeast(g, a.pos, b, d))
    ensures b.Inner? ==> (AtLeast(g, a, b, d) <==> AtLeast(g, a, b.neg, d) && AtLeast(g, a, b.pos, d))
    ensures a.Leaf? && b.Leaf? ==> (AtLeast(g, a, b, d) <==> d <= g.primDist(a.primitive, b.primitive).dist)
  {
    if a.Inner? {
      assert forall x :: x in Primitives(a) <==> x in Primitives(a.neg) || x in Primitives(a.pos);
    }
    if b.Inner? {
      assert forall y :: y in Primitives(b) <==> y in Primitives(b.neg) || y in Primitives(b.pos);
    }
  }

  class SSVTreeCollider<!V> {
    const geometry: Geometry<V>
    var mId0: int
    var mId1: int

    constructor (g: Geometry<V>)
      ensures geometry == g
    {
      geometry, mId0, mId1 := g, 0, 0;
    }

    /** The ids kept are of a pair of primitives beneath a and b that the gap is between. */
    ghost predicate Witness(a: Node<V>, b: Node<V>, gap: Gap)
      reads `mId0, `mId1
    {
      mId0 in Primitives(a) && mId1 in Primitives(b) && gap == geometry.primDist(mId0, mId1)
    }

    /** One step of the descent: the gap so far, improved by what is beneath b0 and b1. */
    method DistanceSub(b0: Node<V>, b1: Node<V>, gap0: Gap, ghost root0: Node<V>, ghost root1: Node<V>)
      returns (gap: Gap)
      requires Bounds(geometry, b0, b1) && Witness(root0, root1, gap0)
      requires Primitives(b0) <= Primitives(root0) && Primitives(b1) <= Primitives(root1)
      modifies `mId0, `mId1
      ensures Witness(root0, root1, gap) && gap.dist <= gap0.dist && AtLeast(geometry, b0, b1, gap.dist)
      decreases b0, b1
    {
      AtLeastParts(geometry, b0, b1, gap0.dist);
      gap := gap0;
      var d := geometry.ssvSsvDist(b0.vol, b1.vol);
      if d > gap.dist {
        return;
      }
      if b0.Leaf? && b1.Leaf? {
        var found := geometry.primDist(b0.primitive, b1.primitive);
        if found.dist < gap.dist {
          gap := found;
          mId0 := b0.primitive;
          mId1 := b1.primitive;
        }
        AtLeastParts(geometry, b0, b1, gap.dist);
        return;
      }
      if b1.Leaf? || (b0.Inner? && geometry.size(b0.vol) > geometry.size(b1.vol)) {
        gap := DistanceSub(b0.neg, b1, gap, root0, root1);
        gap := DistanceSub(b0.pos, b1, gap, root0, root1);
      } else {
        gap := DistanceSub(b0, b1.neg, gap, root0, root1);
        gap := DistanceSub(b0, b1.pos, gap, root0, root1);
      }
      AtLeastParts(geometry, b0, b1, gap.dist);
    }

    /** The first leaf in the order the nodes are stored. */
    method FirstPrimitive(nodes: seq<Node<V>>) returns (id: int)
      requires exists i | 0 <= i < |nodes| :: nodes[i].Leaf?
      ensures exists i | 0 <= i < |nodes| :: nodes[i].Leaf? && nodes[i].primitive == id
    {
      id := 0;
      ghost var found := false;
      for i := 0 to |nodes|
        invariant !found && forall k | 0 <= k < i :: !nodes[k].Leaf?
      {
        if nodes[i].Leaf? {
          id := nodes[i].primitive;
          found := true;
          break;
        }
      }
    }

    /** The stored nodes of a tree, the root first. */
    ghost predicate Stored(nodes: seq<Node<V>>) {
      && |nodes| > 0
      && (exists i | 0 <= i < |nodes| :: nodes[i].Leaf?)
      && forall i | 0 <= i < |nodes| :: Primitives(nodes[i]) <= Primitives(nodes[0])
    }

    /** The least distance between primitives of the two meshes, with the ids of a pair that has it and
        the points it is between. */
    method Distance(tree0: seq<Node<V>>, tree1: seq<Node<V>>, comparable: bool, toWorld: Vec3 -> Vec3)
      returns (ok: bool, minD: real, point0: Vec3, point1: Vec3, id0: int, id1: int)
      requires Stored(tree0) && Stored(tree1) && Bounds(geometry, tree0[0], tree1[0])
      modifies `mId0, `mId1
      ensures ok == comparable
      ensures ok ==> AtLeast(geometry, tree0[0], tree1[0], minD)
      ensures ok ==> id0 in Primitives(tree0[0]) && id1 in Primitives(tree1[0])
      ensures ok ==> geometry.primDist(id0, id1).dist == minD
      ensures ok ==>
        point0 == toWorld(geometry.primDist(id0, id1).point0) && point1 == toWorld(geometry.primDist(id0, id1).point1)
    {
      if !comparable {
        return false, 0.0, ZERO3, ZERO3, 0, 0;
      }
      mId0 := FirstPrimitive(tree0);
      mId1 := FirstPrimitive(tree1);
      FirstIsBeneath(tree0, mId0);
      FirstIsBeneath(tree1, mId1);
      var gap := geometry.primDist(mId0, mId1);
      gap := DistanceSub(tree0[0], tree1[0], gap, tree0[0], tree1[0]);
      return true, gap.dist, toWorld(gap.point0), toWorld(gap.point1), mId0, mId1;
    }

    lemma FirstIsBeneath(tree: seq<Node<V>>, id: int)
      requires Stored(tree) && exists i | 0 <= i < |tree| :: tree[i].Leaf? && tree[i].primitive == id
      ensures id in Primitives(tree[0])
    {
      var i :| 0 <= i < |tree| && tree[i].Leaf? && tree[i].primitive == id;
      assert id in Primitives(tree[i]);
    }

    ghost predicate Within(a: Node<V>, b: Node<V>, tolerance: real) {
      exists x, y :: x in Primitives(a) && y in Primitives(b) && geometry.primDist(x, y).dist <= tolerance
    }

    lemma WithinParts(a: Node<V>, b: Node<V>, d: real)
      ensures a.Inner? ==> (Within(a, b, d) <==> Within(a.neg, b, d) || Within(a.pos, b, d))
      ensures b.Inner? ==> (Within(a, b, d) <==> Within(a, b.neg, d) || Within(a, b.pos, d))
    {
      if a.Inner? {
        assert forall x :: x in Primitives(a) <==> x in Primitives(a.neg) || x in Primitives(a.pos);
      }
      if b.Inner? {
        assert forall y :: y in Primitives(b) <==> y in Primitives(b.neg) || y in Primitives(b.pos);
      }
    }

    /** Collision within a tolerance and the least distance agree, whichever trees were descended first. */
    lemma CollidesIffNear(a: Node<V>, b: Node<V>, minD: real, id0: int, id1: int, tolerance: real)
      requires AtLeast(geometry, a, b, minD)
      requires id0 in Primitives(a) && id1 in Primitives(b) && geometry.primDist(id0, id1).dist == minD
      ensures Within(a, b, tolerance) <==> minD <= tolerance
    {
      if minD <= tolerance {
        assert id0 in Primitives(a) && id1 in Primitives(b);
      }
    }

    /** Whether some pair of primitives is within the tolerance; if so the ids are of such a pair. */
    method Collide(b0: Node<V>, b1: Node<V>, tolerance: real) returns (hit: bool)
      requires Bounds(geometry, b0, b1)
      modifies `mId0, `mId1
      ensures hit <==> Within(b0, b1, tolerance)
      ensures hit ==>
        mId0 in Primitives(b0) && mId1 in Primitives(b1) && geometry.primDist(mId0, mId1).dist <= tolerance
      ensures !hit ==> mId0 == old(mId0) && mId1 == old(mId1)
      decreases b0, b1
    {
      WithinParts(b0, b1, tolerance);
      var d := geometry.ssvSsvDist(b0.vol, b1.vol);
      if d > tolerance {
        return false;
      }
      if b0.Leaf? && b1.Leaf? {
        var found := geometry.primDist(b0.primitive, b1.primitive);
        if found.dist <= tolerance {
          mId0 := b0.primitive;
          mId1 := b1.primitive;
          assert mId0 in Primitives(b0) && mId1 in Primitives(b1);
          return true;
        }
        return false;
      }
      if b1.Leaf? || (b0.Inner? && geometry.size(b0.vol) > geometry.size(b1.vol)) {
        hit := Collide(b0.neg, b1, tolerance);
        if hit { return; }
        hit := Collide(b0.pos, b1, tolerance);
      } else {
        hit := Collide(b0, b1.neg, tolerance);
        if hit { return; }
        hit := Collide(b0, b1.pos, tolerance);
      }
    }
  }
}
