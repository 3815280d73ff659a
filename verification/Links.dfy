/** The link tree of a body: link objects joined by parent, first-child and next-sibling
    pointers, and the same shape as tables of indices. */
module Links {
  import opened LinearAlgebra

  datatype JointType = FIXED_JOINT | FREE_JOINT | ROTATIONAL_JOINT | SLIDE_JOINT

  /** A link of one of the bodies, by index. */
  datatype End = End(body: nat, link: nat)

  class Link {
    var index: int
    var jointType: JointType
    var parent: Link?
    var sibling: Link?
    var child: Link?

    var p: Vec3       // position
    var R: Mat3       // attitude
    var v: Vec3       // linear velocity
    var w: Vec3       // angular velocity
    var dv: Vec3      // linear acceleration
    var q: real       // joint value
    var dq: real      // joint velocity
    var ddq: real     // joint acceleration
    var u: real       // joint torque
    var a: Vec3       // rotational joint axis (self local)
    var d: Vec3       // translational joint axis (self local)
    var b: Vec3       // relative position (parent local)
    var m: real       // mass
    var I: Mat3       // inertia tensor (self local, around c)
    var c: Vec3       // center of mass (self local)
    var wc: Vec3      // R * c + p
    var vo: Vec3      // linear part of the spatial velocity
    var dvo: Vec3     // derivative of vo
    var dw: Vec3      // derivative of w
    var sw: Vec3      // joint axis, angular part
    var sv: Vec3      // joint axis, linear part
    var cv: Vec3      // cross velocity term, linear part
    var cw: Vec3      // cross velocity term, angular part
    var fext: Vec3    // external force
    var tauext: Vec3  // external torque, around the world origin
    var Ivv: Mat3     // blocks of the articulated inertia
    var Iwv: Mat3
    var Iww: Mat3
    var pf: Vec3      // bias force
    var ptau: Vec3
    var hhv: Vec3     // articulated inertia times joint axis
    var hhw: Vec3
    var uu: real
    var dd: real
    var Jm2: real     // equivalent rotor inertia

    constructor ()
      ensures parent == null && sibling == null && child == null && index == -1 && jointType == FIXED_JOINT
    {
      index, jointType, parent, sibling, child := -1, FIXED_JOINT, null, null, null;
      p, v, w, a, d, b, c, wc := ZERO3, ZERO3, ZERO3, ZERO3, ZERO3, ZERO3, ZERO3, ZERO3;
      dv, vo, dvo, dw, sw, sv := ZERO3, ZERO3, ZERO3, ZERO3, ZERO3, ZERO3;
      cv, cw, fext, tauext := ZERO3, ZERO3, ZERO3, ZERO3;
      R, I, Ivv, Iwv, Iww := IDENTITY, IDENTITY, IDENTITY, IDENTITY, IDENTITY;
      pf, ptau, hhv, hhw := ZERO3, ZERO3, ZERO3, ZERO3;
      q, dq, ddq, u, m, uu, dd, Jm2 := 0.0, 0.0, 0.0, 0.0, 0.0, 0.0, 0.0, 0.0;
    }
  }

  /** The stored acceleration of a link, as a spatial vector. */
  ghost function Acceleration(l: Link): Spatial
    reads l`dvo, l`dw
  {
    Spatial(l.dvo, l.dw)
  }

  /** A tree as tables over link indices, -1 standing for the null pointer. Links are numbered
      so that a parent comes before its children and a child before its later siblings, which
      is what Body::updateLinkTree leaves behind. */
  datatype Shape = Shape(parent: seq<int>, child: seq<int>, sibling: seq<int>) {

    ghost predicate Valid() {
      && 0 < |parent| == |child| == |sibling|
      && parent[0] == -1 && sibling[0] == -1
      && (forall i | 0 < i < |parent| :: 0 <= parent[i] < i)
      && (forall i | 0 <= i < |child| && child[i] != -1 :: i < child[i] < |parent| && parent[child[i]] == i)
      && (forall i | 0 <= i < |sibling| && sibling[i] != -1 ::
            i < sibling[i] < |parent| && parent[sibling[i]] == parent[i])
      && (forall i {:trigger InChain(child[parent[i]], i)} | 0 < i < |parent| :: InChain(child[parent[i]], i))
    }

    /** i is k or one of its later siblings. */
    ghost predicate InChain(k: int, i: int)
      requires |parent| == |child| == |sibling|
      decreases |sibling| - k
    {
      && 0 <= k < |sibling|
      && (k == i || (k < sibling[k] && InChain(sibling[k], i)))
    }

    ghost predicate IsLink(i: int) { 0 <= i < |parent| }

    /** An index that may be followed as a pointer: a link, or -1. */
    ghost predicate IsPointer(i: int) { -1 <= i < |parent| }
  }

  ghost function Pointer(links: seq<Link>, k: int): Link? {
    if 0 <= k < |links| then links[k] else null
  }

  /** The link objects, in index order, are joined as the tables say. */
  ghost predicate Represents(links: seq<Link>, t: Shape)
    reads links`index, links`parent, links`child, links`sibling
  {
    && t.Valid()
    && |links| == |t.parent|
    && (forall i {:trigger links[i].index} | 0 <= i < |links| :: links[i].index == i)
    && (forall i {:trigger links[i].parent} | 0 <= i < |links| :: links[i].parent == Pointer(links, t.parent[i]))
    && (forall i {:trigger links[i].child} | 0 <= i < |links| :: links[i].child == Pointer(links, t.child[i]))
    && (forall i {:trigger links[i].sibling} | 0 <= i < |links| :: links[i].sibling == Pointer(links, t.sibling[i]))
  }

  lemma LinksDistinct(links: seq<Link>, t: Shape)
    requires Represents(links, t)
    ensures forall i, j | 0 <= i < |links| && 0 <= j < |links| && i != j :: links[i] != links[j]
  {
    forall i, j | 0 <= i < |links| && 0 <= j < |links| && i != j
      ensures links[i] != links[j]
    {
      assert links[i].index != links[j].index;
    }
  }

  /** The pointers of link k. */
  lemma PointersOf(links: seq<Link>, t: Shape, k: int)
    requires Represents(links, t) && t.IsLink(k)
    ensures |links| == |t.parent| == |t.child| == |t.sibling|
    ensures links[k].index == k && links[k].parent == Pointer(links, t.parent[k])
    ensures links[k].child == Pointer(links, t.child[k]) && links[k].sibling == Pointer(links, t.sibling[k])
    ensures t.child[k] == -1 || (k < t.child[k] < |links| && t.parent[t.child[k]] == k)
    ensures t.sibling[k] == -1 || (k < t.sibling[k] < |links| && t.parent[t.sibling[k]] == t.parent[k])
    ensures if k == 0 then t.parent[k] == -1 else 0 <= t.parent[k] < k
  {}

  lemma ShapeOf(links: seq<Link>, t: Shape)
    requires Represents(links, t)
    ensures t.Valid() && |links| == |t.parent|
  {}

  /** c lies on the path from link i to the root. */
  ghost predicate OnPath(t: Shape, i: int, c: int)
    requires t.Valid() && t.IsLink(i)
    decreases i
  {
    i == c || (i > 0 && OnPath(t, t.parent[i], c))
  }

  lemma {:induction false} PathDescends(t: Shape, i: int, c: int)
    requires t.Valid() && t.IsLink(i) && OnPath(t, i, c)
    ensures 0 <= c <= i
    decreases i
  {
    if i != c {
      PathDescends(t, t.parent[i], c);
    }
  }

  lemma PathStarts(t: Shape, l: int)
    requires t.Valid() && t.IsLink(l)
    ensures OnPath(t, l, l) && forall j | l < j :: !OnPath(t, l, j)
  {
    forall j | l < j
      ensures !OnPath(t, l, j)
    {
      if OnPath(t, l, j) { PathDescends(t, l, j); }
    }
  }

  lemma PathStepUp(t: Shape, i: int)
    requires t.Valid() && t.IsLink(i)
    ensures OnPath(t, i, i)
    ensures i > 0 ==> OnPath(t, i, t.parent[i])
    ensures forall j | 0 <= j < i :: OnPath(t, i, j) <==> OnPath(t, t.parent[i], j)
    ensures i > 0 ==> forall j | t.parent[i] < j < i :: !OnPath(t, i, j)
  {
    if i > 0 {
      PathStarts(t, t.parent[i]);
    }
  }
}
