/** Inverse dynamics by the recursion over first children and next siblings, and that it undoes the
    articulated-body method. */
module InverseDynamics {
  import opened LinearAlgebra
  import opened Links
  import opened ArticulatedBody
  import opened LinkTraverses

  /** What the recursion reads of a link and never writes. */
  ghost predicate Agrees(l: Link, y: LinkState, ddq: real)
    reads l`sv, l`sw, l`cv, l`cw, l`m, l`Iwv, l`Iww, l`pf, l`ptau, l`ddq
  {
    && y.axis == Spatial(l.sv, l.sw) && y.vel == Spatial(l.cv, l.cw) && y.bias == Spatial(l.pf, l.ptau)
    && y.inertia == Inertia(Mat3(Vec3(l.m, 0.0, 0.0), Vec3(0.0, l.m, 0.0), Vec3(0.0, 0.0, l.m)), l.Iwv, l.Iww)
    && ddq == l.ddq
  }

  /** Each link accelerates as its parent does, plus what its joint adds. */
  ghost predicate Accelerated(t: Shape, x: seq<LinkState>, ddq: seq<real>, a: seq<Spatial>)
    requires Fits(t, x) && |ddq| == |a| == |x|
  {
    forall j | 0 < j < |x| :: a[j] == Plus(Plus(a[t.parent[j]], x[j].vel), Times(ddq[j], x[j].axis))
  }

  ghost predicate Given(links: seq<Link>, t: Shape, x: seq<LinkState>, ddq: seq<real>, a: seq<Spatial>)
    reads links`parent, links`child, links`sibling
    reads links`sv, links`sw, links`cv, links`cw, links`m, links`Iwv, links`Iww, links`pf, links`ptau, links`ddq
  {
    && Wired(links, t) && Fits(t, x) && |ddq| == |a| == |x| && Accelerated(t, x, ddq, a)
    && forall j {:trigger x[j]} | 0 <= j < |x| :: Agrees(links[j], x[j], ddq[j])
  }

  /** A link as the recursion leaves it. */
  ghost predicate Computed(l: Link, t: Shape, x: seq<LinkState>, a: seq<Spatial>, j: int)
    requires Fits(t, x) && |a| == |x| && t.IsLink(j)
    reads l`dvo, l`dw, l`u
  {
    Acceleration(l) == a[j] && l.u == Inner(x[j].axis, Force(t, x, a, j))
  }

  /** Links below i, and links on the branches of its later siblings. */
  lemma BranchParts(t: Shape, i: int, l: int)
    requires t.Valid() && t.IsLink(i) && t.IsLink(l)
    ensures InBranch(t, i, -1, l)
      <==> l == i || InBranch(t, t.child[i], -1, l) || InBranch(t, t.sibling[i], -1, l)
    ensures !(l == i && InBranch(t, t.child[i], -1, l)) && !(l == i && InBranch(t, t.sibling[i], -1, l))
    ensures !(InBranch(t, t.child[i], -1, l) && InBranch(t, t.sibling[i], -1, l))
    ensures i != 0 ==> !InBranch(t, i, -1, t.parent[i])
  {
    BelowOrSelf(t, i, -1, l);
    PathStarts(t, i);
    forall c | t.InChain(t.child[i], c) ensures c > i && t.IsLink(c) {
      ChainParent(t, t.child[i], c);
    }
    forall c | t.InChain(t.sibling[i], c) ensures c > i && t.IsLink(c) && t.parent[c] == t.parent[i] {
      ChainParent(t, t.sibling[i], c);
    }
    if i == 0 {
      RootOnPath(t, l);
      assert BranchOf(t, 0, -1, l, 0);
    } else {
      InFirstOrLater(t, i, -1, l);
      PathStarts(t, t.parent[i]);
      forall c | t.InChain(i, c) ensures c >= i {
        ChainParent(t, i, c);
      }
      if c :| BranchOf(t, t.sibling[i], -1, l, c) {
        BranchesApart(t, l, i, c);
      }
    }
  }

  /** The acceleration of a link with a parent. */
  method Accelerate(link: Link, parent: Link, ghost y: LinkState, ghost ddq: real)
    requires link != parent && Agrees(link, y, ddq)
    modifies link`dvo, link`dw
    ensures Acceleration(link) == Plus(Plus(Acceleration(parent), y.vel), Times(ddq, y.axis))
  {
    hide Product;
    link.dvo := Add(Add(parent.dvo, link.cv), Scale(link.ddq, link.sv));
    link.dw := Add(Add(parent.dw, link.cw), Scale(link.ddq, link.sw));
  }

  /** The force through a link's joint, from what its children need, and the torque of the joint. */
  method OwnForce(link: Link, fc: Spatial, ghost y: LinkState, ghost ddq: real, ghost children: Spatial)
    returns (f: Spatial)
    requires Agrees(link, y, ddq) && fc == children
    modifies link`u
    ensures f == Plus(Plus(y.bias, children), Apply(y.inertia, Acceleration(link)))
    ensures link.u == Inner(y.axis, f)
  {
    hide Product;
    var outF, outTau := Add(link.pf, fc.v), Add(link.ptau, fc.w);
    DiagonalMul(link.m, link.dvo);
    outF := Add(outF, Add(Scale(link.m, link.dvo), Mul(Transpose(link.Iwv), link.dw)));
    outTau := Add(outTau, Add(Mul(link.Iwv, link.dvo), Mul(link.Iww, link.dw)));
    link.u := Dot(link.sv, outF) + Dot(link.sw, outTau);
    f := Spatial(outF, outTau);
  }

  /** The branches of a link and of its later siblings are the link, its children's and its siblings'. */
  ghost predicate SplitsAt(t: Shape, i: int)
    requires t.Valid() && t.IsLink(i)
  {
    forall l | t.IsLink(l) ::
      && (InBranch(t, i, -1, l) <==> l == i || InBranch(t, t.child[i], -1, l) || InBranch(t, t.sibling[i], -1, l))
      && !(l == i && InBranch(t, t.child[i], -1, l)) && !(l == i && InBranch(t, t.sibling[i], -1, l))
      && !(InBranch(t, t.child[i], -1, l) && InBranch(t, t.sibling[i], -1, l))
  }

  lemma BranchSplits(t: Shape, i: int)
    requires t.Valid() && t.IsLink(i)
    ensures SplitsAt(t, i) && (i != 0 ==> !InBranch(t, i, -1, t.parent[i]))
  {
    forall l | t.IsLink(l)
      ensures InBranch(t, i, -1, l) <==> l == i || InBranch(t, t.child[i], -1, l) || InBranch(t, t.sibling[i], -1, l)
      ensures !(l == i && InBranch(t, t.child[i], -1, l)) && !(l == i && InBranch(t, t.sibling[i], -1, l))
      ensures !(InBranch(t, t.child[i], -1, l) && InBranch(t, t.sibling[i], -1, l))
    {
      BranchParts(t, i, l);
    }
    BranchParts(t, i, i);
  }

  /** The force that a link needs, its children's included, given that its parent (or, at the root, the
      link) already accelerates. */
  method LinkForce(link: Link, ghost links: seq<Link>, ghost t: Shape, ghost x: seq<LinkState>, ghost ddq: seq<real>,
                   ghost a: seq<Spatial>, ghost i: int) returns (f: Spatial)
    requires Given(links, t, x, ddq, a) && t.IsLink(i) && link == links[i]
    requires if i == 0 then Acceleration(links[0]) == a[0]
             else 0 <= t.parent[i] < |links| && Acceleration(links[t.parent[i]]) == a[t.parent[i]]
    modifies links`dvo, links`dw, links`u
    ensures f == Force(t, x, a, i)
    ensures forall l | 0 <= l < |links| && (l == i || InBranch(t, t.child[i], -1, l)) :: Computed(links[l], t, x, a, l)
    ensures forall l | 0 <= l < |links| && l != i && !InBranch(t, t.child[i], -1, l) ::
      Acceleration(links[l]) == old(Acceleration(links[l])) && links[l].u == old(links[l].u)
    decreases |links| - i, 0
  {
    hide Given, Wired, Shape.Valid, InBranch, Force, SiblingForces, Plus, Times, Inner, Apply, Agrees, Computed;
    GivenAt(links, t, x, ddq, a, i);
    ForceParts(t, x, a, i);
    BranchSplits(t, i);
    var parent := link.parent;
    if parent != null {
      Accelerate(link, parent, x[i], ddq[i]);
    }
    assert Acceleration(links[i]) == a[i];
    var fc := BranchForces(link.child, links, t, x, ddq, a, t.child[i], i);
    f := OwnForce(link, fc, x[i], ddq[i], SiblingForces(t, x, a, t.child[i]));
    ComputedFrom(link, t, x, a, i);
  }

  lemma ComputedFrom(l: Link, t: Shape, x: seq<LinkState>, a: seq<Spatial>, j: int)
    requires Fits(t, x) && |a| == |x| && t.IsLink(j)
    requires Acceleration(l) == a[j] && l.u == Inner(x[j].axis, Force(t, x, a, j))
    ensures Computed(l, t, x, a, j)
  {}

  /** The forces that a link and its later siblings need. */
  method CalcInverseDynamics(link: Link, ghost links: seq<Link>, ghost t: Shape, ghost x: seq<LinkState>,
                             ghost ddq: seq<real>,
                             ghost a: seq<Spatial>, ghost i: int) returns (f: Spatial)
    requires Given(links, t, x, ddq, a) && t.IsLink(i) && link == links[i]
    requires if i == 0 then Acceleration(links[0]) == a[0]
             else 0 <= t.parent[i] < |links| && Acceleration(links[t.parent[i]]) == a[t.parent[i]]
    modifies links`dvo, links`dw, links`u
    ensures f == Plus(Force(t, x, a, i), SiblingForces(t, x, a, t.sibling[i]))
    ensures forall l | 0 <= l < |links| && InBranch(t, i, -1, l) :: Computed(links[l], t, x, a, l)
    ensures forall l | 0 <= l < |links| && !InBranch(t, i, -1, l) ::
              Acceleration(links[l]) == old(Acceleration(links[l])) && links[l].u == old(links[l].u)
    decreases |links| - i, 1
  {
    hide Given, Wired, Shape.Valid, InBranch, Force, SiblingForces, Plus, Computed;
    GivenAt(links, t, x, ddq, a, i);
    ForceParts(t, x, a, i);
    BranchSplits(t, i);
    NoBranches(t, -1, |links|);
    f := LinkForce(link, links, t, x, ddq, a, i);
    if link.sibling != null {
      var fs := BranchForces(link.sibling, links, t, x, ddq, a, t.sibling[i], t.parent[i]);
      f := Plus(f, fs);
    }
  }

  /** The forces that the branches from a child of link p on need; nothing where there is none. */
  method BranchForces(first: Link?, ghost links: seq<Link>, ghost t: Shape, ghost x: seq<LinkState>,
                      ghost ddq: seq<real>,
                      ghost a: seq<Spatial>, ghost k: int, ghost p: int) returns (f: Spatial)
    requires Given(links, t, x, ddq, a) && t.IsPointer(k) && k != 0 && first == Pointer(links, k)
    requires t.IsLink(p) && Acceleration(links[p]) == a[p] && (k != -1 ==> t.parent[k] == p)
    modifies links`dvo, links`dw, links`u
    ensures f == SiblingForces(t, x, a, k)
    ensures forall l | 0 <= l < |links| && InBranch(t, k, -1, l) :: Computed(links[l], t, x, a, l)
    ensures forall l | 0 <= l < |links| && !InBranch(t, k, -1, l) ::
              Acceleration(links[l]) == old(Acceleration(links[l])) && links[l].u == old(links[l].u)
    decreases if k == -1 then 0 else |links| - k, 2
  {
    hide Shape.Valid, InBranch, Force, Computed;
    NoBranches(t, k, |links|);
    if first == null {
      f := ZERO6;
    } else {
      f := CalcInverseDynamics(first, links, t, x, ddq, a, k);
    }
  }

  lemma NoBranches(t: Shape, k: int, n: nat)
    requires t.Valid() && n == |t.parent|
    ensures k == -1 ==> forall l | 0 <= l < n :: !InBranch(t, k, -1, l)
  {}

  lemma GivenAt(links: seq<Link>, t: Shape, x: seq<LinkState>, ddq: seq<real>, a: seq<Spatial>, i: int)
    requires Given(links, t, x, ddq, a) && t.IsLink(i)
    ensures t.Valid() && Fits(t, x) && |ddq| == |a| == |x| == |links| == |t.child| == |t.sibling|
    ensures Agrees(links[i], x[i], ddq[i])
    ensures links[i].parent == Pointer(links, t.parent[i])
    ensures links[i].child == Pointer(links, t.child[i]) && links[i].sibling == Pointer(links, t.sibling[i])
    ensures t.child[i] == -1 || (i < t.child[i] < |links| && t.parent[t.child[i]] == i)
    ensures t.sibling[i] == -1 || (i < t.sibling[i] < |links| && t.parent[t.sibling[i]] == t.parent[i])
    ensures if i == 0 then t.parent[i] == -1 else 0 <= t.parent[i] < i
    ensures i > 0 ==> t.IsLink(t.parent[i]) && a[i] == Plus(Plus(a[t.parent[i]], x[i].vel), Times(ddq[i], x[i].axis))
    ensures forall j | 0 <= j < |links| && links[j] == links[i] :: j == i
  {
    WiresOf(links, t, i);
  }

  lemma ForceParts(t: Shape, x: seq<LinkState>, a: seq<Spatial>, i: int)
    requires Fits(t, x) && |a| == |x| && t.IsLink(i)
    ensures Force(t, x, a, i) == Plus(Plus(x[i].bias, SiblingForces(t, x, a, t.child[i])), Apply(x[i].inertia, a[i]))
    ensures SiblingForces(t, x, a, -1) == ZERO6 && Plus(Force(t, x, a, i), ZERO6) == Force(t, x, a, i)
  {}

  ghost function JointRates(t: Shape, x: seq<LinkState>, a0: Spatial): (r: seq<real>)
    requires Fits(t, x)
    ensures |r| == |x| && forall i | 0 < i < |x| :: r[i] == JointRate(t, x, a0, i)
  {
    seq(|x|, i requires 0 <= i < |x| => if i == 0 then 0.0 else JointRate(t, x, a0, i))
  }

  lemma NoRate(a: Spatial, vel: Spatial, axis: Spatial)
    requires vel == ZERO6
    ensures Plus(Plus(a, vel), Times(0.0, axis)) == a
  {
    hide Product;
    ProductUnits(axis.v.x);
    ProductUnits(axis.v.y);
    ProductUnits(axis.v.z);
    ProductUnits(axis.w.x);
    ProductUnits(axis.w.y);
    ProductUnits(axis.w.z);
  }

  /** Inverse dynamics undoes forward dynamics: from the joint rates of the articulated-body method it
      finds the same accelerations, and at every moving joint the torque that was commanded, less what
      the rotor absorbs. */
  lemma InverseUndoesForward(t: Shape, x: seq<LinkState>, a0: Spatial)
    requires Fits(t, x) && Prepared(t, x) && Regular(t, x)
    ensures Accelerated(t, Loaded(x), JointRates(t, x, a0), Accelerations(t, x, a0))
    ensures forall i | 0 < i < |x| && x[i].Moving() ::
      Inner(Loaded(x)[i].axis, Force(t, Loaded(x), Accelerations(t, x, a0), i))
          == x[i].u - Product(x[i].rotor, JointRates(t, x, a0)[i])
  {
    hide Inner, Force, Plus, Times, Inbound, JointAcceleration, Outbound;
    NewtonEuler(t, x, a0);
    var a, r, y := Accelerations(t, x, a0), JointRates(t, x, a0), Loaded(x);
    forall i | 0 < i < |x|
      ensures a[i] == Plus(Plus(a[t.parent[i]], y[i].vel), Times(r[i], y[i].axis))
      ensures x[i].Moving() ==> Inner(y[i].axis, Force(t, y, a, i)) == x[i].u - Product(x[i].rotor, r[i])
    {
      assert BalancedAt(t, x, a, i, JointRate(t, x, a0, i));
      if !x[i].Moving() {
        NoRate(a[t.parent[i]], y[i].vel, y[i].axis);
      }
    }
  }
}
