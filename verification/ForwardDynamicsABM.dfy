/** The articulated-body method as the loops of ForwardDynamicsABM.cpp over link objects, each
    proved to compute the passes of module ArticulatedBody. */
module ForwardDynamicsABM {
  import opened LinearAlgebra
  import opened Links
  import opened ArticulatedBody
  import opened SplitPasses

  ghost function State(l: Link): LinkState
    reads l`jointType, l`sv, l`sw, l`cv, l`cw, l`Jm2, l`u, l`fext, l`tauext
    reads l`Ivv, l`Iwv, l`Iww, l`pf, l`ptau, l`hhv, l`hhw, l`dd, l`uu
  {
    LinkState(l.jointType, Spatial(l.sv, l.sw), Spatial(l.cv, l.cw), l.Jm2, l.u, Spatial(l.fext, l.tauext),
              Inertia(l.Ivv, l.Iwv, l.Iww), Spatial(l.pf, l.ptau), Spatial(l.hhv, l.hhw), l.dd, l.uu)
  }

  ghost function States(links: seq<Link>): (x: seq<LinkState>)
    reads links
    ensures |x| == |links| && forall i | 0 <= i < |links| :: x[i] == State(links[i])
  {
    seq(|links|, i requires 0 <= i < |links| reads links => State(links[i]))
  }

  /** A child's articulated inertia added to its parent's. */
  method AccumulateInertia(link: Link, child: Link)
    requires link != child
    requires child.jointType != FIXED_JOINT ==> child.dd != 0.0
    modifies link`Ivv, link`Iwv, link`Iww
    ensures Inertia(link.Ivv, link.Iwv, link.Iww)
         == AddChildInertia(Inertia(old(link.Ivv), old(link.Iwv), old(link.Iww)), State(child))
  {
    hide MatAdd, MatSub, Outer, Scale;
    if child.jointType == FIXED_JOINT {
      link.Ivv := MatAdd(link.Ivv, child.Ivv);
      link.Iwv := MatAdd(link.Iwv, child.Iwv);
      link.Iww := MatAdd(link.Iww, child.Iww);
    } else {
      var hhv_dd := Scale(1.0 / child.dd, child.hhv);
      link.Ivv := MatAdd(link.Ivv, MatSub(child.Ivv, Outer(child.hhv, hhv_dd)));
      link.Iwv := MatAdd(link.Iwv, MatSub(child.Iwv, Outer(child.hhw, hhv_dd)));
      link.Iww := MatAdd(link.Iww, MatSub(child.Iww, Outer(child.hhw, Scale(1.0 / child.dd, child.hhw))));
    }
  }

  /** What a child's bias adds to its parent's. */
  method AccumulateBias(link: Link, child: Link)
    requires link != child
    requires child.jointType != FIXED_JOINT ==> child.dd != 0.0
    modifies link`pf, link`ptau
    ensures Spatial(link.pf, link.ptau) == AddChildBias(Spatial(old(link.pf), old(link.ptau)), State(child))
  {
    hide Add, Mul, Scale, Transpose;
    link.pf := Add(link.pf, Add(Add(Mul(child.Ivv, child.cv), Mul(Transpose(child.Iwv), child.cw)), child.pf));
    link.ptau := Add(link.ptau, Add(Add(Mul(child.Iwv, child.cv), Mul(child.Iww, child.cw)), child.ptau));
    if child.jointType != FIXED_JOINT {
      var uu_dd := child.uu / child.dd;
      link.pf := Add(link.pf, Scale(uu_dd, child.hhv));
      link.ptau := Add(link.ptau, Scale(uu_dd, child.hhw));
    }
  }

  /** One turn of the loop over the children of a link. */
  method AccumulateChild(link: Link, child: Link)
    requires link != child
    requires child.jointType != FIXED_JOINT ==> child.dd != 0.0
    modifies link`Ivv, link`Iwv, link`Iww, link`pf, link`ptau
    ensures State(link) == old(State(link)).(
              inertia := AddChildInertia(old(State(link)).inertia, State(child)),
              bias := AddChildBias(old(State(link)).bias, State(child)))
  {
    hide AddChildInertia, AddChildBias;
    AccumulateInertia(link, child);
    AccumulateBias(link, child);
  }

  /** hh, dd and uu of a moving joint from its articulated inertia and bias. */
  method SetJointTerms(link: Link)
    modifies link`hhv, link`hhw, link`dd, link`uu
    ensures State(link) == Joint(old(State(link)))
  {
    hide Add, Mul, MatAdd, MatSub, Outer, Scale, Product, Transpose, Dot;
    link.hhv := Add(Mul(link.Ivv, link.sv), Mul(Transpose(link.Iwv), link.sw));
    link.hhw := Add(Mul(link.Iwv, link.sv), Mul(link.Iww, link.sw));
    link.dd := Dot(link.sv, link.hhv) + Dot(link.sw, link.hhw) + link.Jm2;
    link.uu := link.u - (Dot(link.hhv, link.cv) + Dot(link.hhw, link.cw)
                         + (Dot(link.sv, link.pf) + Dot(link.sw, link.ptau)));
  }

  /** The loop over the children of link i. */
  method AccumulateChildren(traverse: seq<Link>, ghost t: Shape, ghost x: seq<LinkState>, ghost i: int, link: Link)
    requires Represents(traverse, t) && Fits(t, x) && Regular(t, x) && t.IsLink(i) && link == traverse[i]
    requires forall j | i < j < |x| :: State(traverse[j]) == Inbound(t, x, j)
    modifies link`Ivv, link`Iwv, link`Iww, link`pf, link`ptau
    ensures State(link) == old(State(link)).(
              inertia := ChildInertias(t, x, t.child[i], old(State(link)).inertia),
              bias := ChildBiases(t, x, t.child[i], old(State(link)).bias))
  {
    hide Represents, Shape.Valid, AddChildInertia, AddChildBias;
    LinksDistinct(traverse, t);
    PointersOf(traverse, t, i);
    ghost var start := State(link);
    ghost var k := t.child[i];
    var child := link.child;
    while child != null
      invariant t.IsPointer(k) && (k != -1 ==> i < k) && child == Pointer(traverse, k)
      invariant State(link) == start.(inertia := State(link).inertia, bias := State(link).bias)
      invariant ChildInertias(t, x, k, State(link).inertia) == ChildInertias(t, x, t.child[i], start.inertia)
      invariant ChildBiases(t, x, k, State(link).bias) == ChildBiases(t, x, t.child[i], start.bias)
      decreases if k == -1 then 0 else |x| - k
    {
      PointersOf(traverse, t, k);
      assert State(child) == old(State(child)) == Inbound(t, x, k);
      AccumulateChild(link, child);
      child := child.sibling;
      k := t.sibling[k];
    }
  }

  /** The body of the inbound loop for link i. */
  method InboundStep(traverse: seq<Link>, ghost t: Shape, ghost x: seq<LinkState>, i: int, link: Link)
    requires Represents(traverse, t) && Fits(t, x) && Regular(t, x) && t.IsLink(i)
    requires link == traverse[i] && State(link) == x[i]
    requires forall j | i < j < |x| :: State(traverse[j]) == Inbound(t, x, j)
    modifies link`Ivv, link`Iwv, link`Iww, link`pf, link`ptau, link`hhv, link`hhw, link`dd, link`uu
    ensures State(link) == Inbound(t, x, i)
  {
    LinksDistinct(traverse, t);
    link.pf := Sub(link.pf, link.fext);
    link.ptau := Sub(link.ptau, link.tauext);
    AccumulateChildren(traverse, t, x, i, link);
    if i > 0 {
      if link.jointType != FIXED_JOINT {
        SetJointTerms(link);
      }
    }
  }

  method CalcABMPhase2(traverse: seq<Link>, ghost t: Shape)
    requires Represents(traverse, t) && Regular(t, States(traverse))
    modifies traverse`Ivv, traverse`Iwv, traverse`Iww, traverse`pf, traverse`ptau
    modifies traverse`hhv, traverse`hhw, traverse`dd, traverse`uu
    ensures States(traverse) == InboundAll(t, old(States(traverse)))
  {
    hide State, Represents, Shape.Valid, Regular, Inbound;
    LinksDistinct(traverse, t);
    ghost var x := States(traverse);
    ShapeOf(traverse, t);
    var i := |traverse| - 1;
    while i >= 0
      invariant -1 <= i < |traverse|
      invariant Represents(traverse, t)
      invariant forall j | i < j < |traverse| :: State(traverse[j]) == Inbound(t, x, j)
      invariant forall j | 0 <= j <= i :: State(traverse[j]) == x[j]
    {
      InboundStep(traverse, t, x, i, traverse[i]);
      i := i - 1;
    }
  }

  // ---- the inbound pass in two parts ----

  /** One turn of the child loop in the part that needs no forces. */
  method AccumulateChildFirstHalf(link: Link, child: Link)
    requires link != child
    requires child.jointType != FIXED_JOINT ==> child.dd != 0.0
    modifies link`Ivv, link`Iwv, link`Iww, link`pf, link`ptau
    ensures State(link) == old(State(link)).(
              inertia := AddChildInertia(old(State(link)).inertia, State(child)),
              bias := AddChildVelocityBias(old(State(link)).bias, State(child)))
  {
    hide AddChildInertia, AddChildVelocityBias;
    AccumulateInertia(link, child);
    AccumulateVelocityBias(link, child);
  }

  /** What a child's motion adds to its parent's bias. */
  method AccumulateVelocityBias(link: Link, child: Link)
    requires link != child
    modifies link`pf, link`ptau
    ensures Spatial(link.pf, link.ptau) == AddChildVelocityBias(Spatial(old(link.pf), old(link.ptau)), State(child))
  {
    hide Add, Mul, Transpose;
    link.pf := Add(link.pf, Add(Mul(child.Ivv, child.cv), Mul(Transpose(child.Iwv), child.cw)));
    link.ptau := Add(link.ptau, Add(Mul(child.Iwv, child.cv), Mul(child.Iww, child.cw)));
  }

  /** The body of the loop of calcABMPhase2Part1 for link i. */
  method FirstHalfStep(traverse: seq<Link>, ghost t: Shape, ghost x: seq<LinkState>, i: int, link: Link)
    requires Represents(traverse, t) && Fits(t, x) && t.IsLink(i) && link == traverse[i] && State(link) == x[i]
    requires forall j | 0 < j < |x| && x[j].Moving() :: FirstHalf(t, x, j).dd != 0.0
    requires forall j | i < j < |x| :: State(traverse[j]) == FirstHalf(t, x, j)
    modifies link`Ivv, link`Iwv, link`Iww, link`pf, link`ptau, link`hhv, link`hhw, link`dd, link`uu
    ensures State(link) == FirstHalf(t, x, i)
  {
    hide Represents, Shape.Valid, JointFirstHalf, FirstHalfInertias, FirstHalfBiases;
    AccumulateChildrenFirstHalf(traverse, t, x, i, link);
    if i > 0 {
      if link.jointType != FIXED_JOINT {
        SetJointTermsFirstHalf(link);
      }
    }
  }

  /** The loop over the children of link i in the part that needs no forces. */
  method AccumulateChildrenFirstHalf(traverse: seq<Link>, ghost t: Shape, ghost x: seq<LinkState>, i: int, link: Link)
    requires Represents(traverse, t) && Fits(t, x) && t.IsLink(i) && link == traverse[i] && State(link) == x[i]
    requires forall j | 0 < j < |x| && x[j].Moving() :: FirstHalf(t, x, j).dd != 0.0
    requires forall j | i < j < |x| :: State(traverse[j]) == FirstHalf(t, x, j)
    modifies link`Ivv, link`Iwv, link`Iww, link`pf, link`ptau
    ensures State(link) == x[i].(inertia := FirstHalfInertias(t, x, t.child[i], x[i].inertia),
                                 bias := FirstHalfBiases(t, x, t.child[i], x[i].bias))
  {
    hide Represents, Shape.Valid, AddChildInertia, AddChildVelocityBias;
    LinksDistinct(traverse, t);
    PointersOf(traverse, t, i);
    ghost var k := t.child[i];
    var child := link.child;
    while child != null
      invariant t.IsPointer(k) && (k != -1 ==> i < k) && child == Pointer(traverse, k)
      invariant State(link) == x[i].(inertia := State(link).inertia, bias := State(link).bias)
      invariant FirstHalfInertias(t, x, k, State(link).inertia) == FirstHalfInertias(t, x, t.child[i], x[i].inertia)
      invariant FirstHalfBiases(t, x, k, State(link).bias) == FirstHalfBiases(t, x, t.child[i], x[i].bias)
      decreases if k == -1 then 0 else |x| - k
    {
      PointersOf(traverse, t, k);
      assert State(child) == old(State(child)) == FirstHalf(t, x, k);
      AccumulateChildFirstHalf(link, child);
      child := child.sibling;
      k := t.sibling[k];
    }
  }

  method SetJointTermsFirstHalf(link: Link)
    modifies link`hhv, link`hhw, link`dd, link`uu
    ensures State(link) == JointFirstHalf(old(State(link)))
  {
    hide Add, Mul, MatAdd, MatSub, Outer, Scale, Product, Transpose, Dot;
    link.hhv := Add(Mul(link.Ivv, link.sv), Mul(Transpose(link.Iwv), link.sw));
    link.hhw := Add(Mul(link.Iwv, link.sv), Mul(link.Iww, link.sw));
    link.dd := Dot(link.sv, link.hhv) + Dot(link.sw, link.hhw) + link.Jm2;
    link.uu := -(Dot(link.hhv, link.cv) + Dot(link.hhw, link.cw));
  }

  method CalcABMPhase2Part1(traverse: seq<Link>, ghost t: Shape)
    requires Represents(traverse, t)
    requires forall j | 0 < j < |traverse| && State(traverse[j]).Moving() :: FirstHalf(t, States(traverse), j).dd != 0.0
    modifies traverse`Ivv, traverse`Iwv, traverse`Iww, traverse`pf, traverse`ptau
    modifies traverse`hhv, traverse`hhw, traverse`dd, traverse`uu
    ensures forall j | 0 <= j < |traverse| :: State(traverse[j]) == FirstHalf(t, old(States(traverse)), j)
  {
    hide State, Represents, Shape.Valid, FirstHalf;
    LinksDistinct(traverse, t);
    ghost var x := States(traverse);
    ShapeOf(traverse, t);
    var i := |traverse| - 1;
    while i >= 0
      invariant -1 <= i < |traverse|
      invariant Represents(traverse, t)
      invariant forall j | i < j < |traverse| :: State(traverse[j]) == FirstHalf(t, x, j)
      invariant forall j | 0 <= j <= i :: State(traverse[j]) == x[j]
    {
      FirstHalfStep(traverse, t, x, i, traverse[i]);
      i := i - 1;
    }
  }

  lemma DividersOf(links: seq<Link>)
    ensures forall j | 0 <= j < |links| :: State(links[j]).dd == links[j].dd
  {}

  /** One turn of the child loop in the part that needs the forces. */
  method AccumulateChildSecondHalf(link: Link, child: Link)
    requires link != child
    requires child.jointType != FIXED_JOINT ==> child.dd != 0.0
    modifies link`pf, link`ptau
    ensures State(link) == old(State(link)).(bias := AddChildForceBias(old(State(link)).bias, State(child)))
  {
    hide Add, Mul, MatAdd, MatSub, Outer, Scale, Product, Transpose, Dot;
    link.pf := Add(link.pf, child.pf);
    link.ptau := Add(link.ptau, child.ptau);
    if child.jointType != FIXED_JOINT {
      var uu_dd := child.uu / child.dd;
      link.pf := Add(link.pf, Scale(uu_dd, child.hhv));
      link.ptau := Add(link.ptau, Scale(uu_dd, child.hhw));
    }
  }

  /** The body of the loop of calcABMPhase2Part2 for link i. */
  method SecondHalfStep(traverse: seq<Link>, ghost t: Shape, ghost z: seq<LinkState>, i: int, link: Link)
    requires Represents(traverse, t) && Fits(t, z) && t.IsLink(i) && link == traverse[i] && State(link) == z[i]
    requires forall j | 0 < j < |z| && z[j].Moving() :: z[j].dd != 0.0
    requires forall j | i < j < |z| :: State(traverse[j]) == SecondHalf(t, z, j)
    modifies link`pf, link`ptau, link`uu
    ensures State(link) == SecondHalf(t, z, i)
  {
    hide Represents, Shape.Valid, Add, Dot, SecondHalfBiases;
    link.pf := Sub(link.pf, link.fext);
    link.ptau := Sub(link.ptau, link.tauext);
    assert State(link) == z[i].(bias := Minus(z[i].bias, z[i].ext));
    ShapeOf(traverse, t);
    LinksDistinct(traverse, t);
    AccumulateChildrenSecondHalf(traverse, t, z, i, link);
    if i > 0 {
      if link.jointType != FIXED_JOINT {
        link.uu := link.uu + (link.u - (Dot(link.sv, link.pf) + Dot(link.sw, link.ptau)));
      }
    }
  }

  /** The loop over the children of link i in the part that needs the forces. */
  method AccumulateChildrenSecondHalf(traverse: seq<Link>, ghost t: Shape, ghost z: seq<LinkState>, i: int, link: Link)
    requires Represents(traverse, t) && Fits(t, z) && t.IsLink(i) && link == traverse[i]
    requires forall j | 0 < j < |z| && z[j].Moving() :: z[j].dd != 0.0
    requires forall j | i < j < |z| :: State(traverse[j]) == SecondHalf(t, z, j)
    modifies link`pf, link`ptau
    ensures State(link)
         == old(State(link)).(bias := SecondHalfBiases(t, z, t.child[i], old(State(link)).bias))
  {
    hide Represents, Shape.Valid, AddChildForceBias;
    LinksDistinct(traverse, t);
    PointersOf(traverse, t, i);
    ghost var start := State(link);
    ghost var k := t.child[i];
    var child := link.child;
    while child != null
      invariant t.IsPointer(k) && (k != -1 ==> i < k) && child == Pointer(traverse, k)
      invariant State(link) == start.(bias := State(link).bias)
      invariant SecondHalfBiases(t, z, k, State(link).bias) == SecondHalfBiases(t, z, t.child[i], start.bias)
      decreases if k == -1 then 0 else |z| - k
    {
      PointersOf(traverse, t, k);
      assert State(child) == old(State(child)) == SecondHalf(t, z, k);
      AccumulateChildSecondHalf(link, child);
      child := child.sibling;
      k := t.sibling[k];
    }
  }

  method CalcABMPhase2Part2(traverse: seq<Link>, ghost t: Shape)
    requires Represents(traverse, t)
    requires forall j | 0 < j < |traverse| && State(traverse[j]).Moving() :: traverse[j].dd != 0.0
    modifies traverse`pf, traverse`ptau, traverse`uu
    ensures forall j | 0 <= j < |traverse| :: State(traverse[j]) == SecondHalf(t, old(States(traverse)), j)
  {
    hide State, Represents, Shape.Valid, SecondHalf;
    LinksDistinct(traverse, t);
    ghost var z := States(traverse);
    ShapeOf(traverse, t);
    DividersOf(traverse);
    var i := |traverse| - 1;
    while i >= 0
      invariant -1 <= i < |traverse|
      invariant Represents(traverse, t)
      invariant forall j | i < j < |traverse| :: State(traverse[j]) == SecondHalf(t, z, j)
      invariant forall j | 0 <= j <= i :: State(traverse[j]) == z[j]
    {
      SecondHalfStep(traverse, t, z, i, traverse[i]);
      i := i - 1;
    }
  }

  // ---- outbound pass ----

  /** The body of the outbound loop for one link. */
  method OutboundStep(link: Link, parent: Link)
    requires link.jointType != FIXED_JOINT ==> link.dd != 0.0
    requires link != parent
    modifies link`ddq, link`dvo, link`dw
    ensures link.ddq == JointAcceleration(State(link), Acceleration(parent))
    ensures Acceleration(link) == LinkAcceleration(State(link), Acceleration(parent))
  {
    if link.jointType != FIXED_JOINT {
      link.ddq := (link.uu - (Dot(link.hhv, parent.dvo) + Dot(link.hhw, parent.dw))) / link.dd;
      link.dvo := Add(Add(parent.dvo, link.cv), Scale(link.ddq, link.sv));
      link.dw := Add(Add(parent.dw, link.cw), Scale(link.ddq, link.sw));
    } else {
      link.ddq := 0.0;
      link.dvo := parent.dvo;
      link.dw := parent.dw;
    }
  }

  /** The root acceleration: the solution of the six equations for a free root, else none. */
  ghost function RootAcceleration(root: LinkState, solve: (Inertia, Spatial) -> Spatial): Spatial {
    if root.joint == FREE_JOINT then solve(root.inertia, Negated(root.bias)) else ZERO6
  }

  method AccelerateRoot(root: Link, solve: (Inertia, Spatial) -> Spatial)
    modifies root`dvo, root`dw
    ensures Acceleration(root) == RootAcceleration(State(root), solve)
  {
    if root.jointType == FREE_JOINT {
      var a := solve(Inertia(root.Ivv, root.Iwv, root.Iww), Spatial(Neg(root.pf), Neg(root.ptau)));
      root.dvo, root.dw := a.v, a.w;
    } else {
      root.dvo, root.dw := ZERO3, ZERO3;
    }
  }

  /** Link l has been given the acceleration of link j. */
  ghost predicate AcceleratedAt(l: Link, t: Shape, y: seq<LinkState>, a0: Spatial, j: int)
    requires Fits(t, y) && t.IsLink(j)
    reads l`ddq, l`dvo, l`dw
  {
    && Acceleration(l) == Outbound(t, y, a0, j)
    && (j > 0 ==> l.ddq == JointAcceleration(y[j], Outbound(t, y, a0, t.parent[j])))
  }

  lemma MovingDivides(links: seq<Link>)
    requires forall j | 0 < j < |links| && State(links[j]).Moving() :: links[j].dd != 0.0
    ensures forall j | 0 < j < |links| && links[j].jointType != FIXED_JOINT :: links[j].dd != 0.0
  {}

  lemma RootAccelerated(root: Link, t: Shape, y: seq<LinkState>, a0: Spatial)
    requires Fits(t, y) && t.IsLink(0) && Acceleration(root) == a0
    ensures AcceleratedAt(root, t, y, a0, 0)
  {}

  lemma AcceleratedNext(link: Link, parent: Link, t: Shape, y: seq<LinkState>, a0: Spatial, i: int)
    requires Fits(t, y) && t.IsLink(i) && i > 0 && AcceleratedAt(parent, t, y, a0, t.parent[i])
    requires link.ddq == JointAcceleration(y[i], Acceleration(parent))
    requires Acceleration(link) == LinkAcceleration(y[i], Acceleration(parent))
    ensures AcceleratedAt(link, t, y, a0, i)
  {
    hide JointAcceleration, LinkAcceleration;
  }

  method CalcABMPhase3(traverse: seq<Link>, ghost t: Shape, solve: (Inertia, Spatial) -> Spatial)
    requires Represents(traverse, t)
    requires forall j | 0 < j < |traverse| && State(traverse[j]).Moving() :: traverse[j].dd != 0.0
    modifies traverse`ddq, traverse`dvo, traverse`dw
    ensures var y := old(States(traverse));
            forall j | 0 <= j < |traverse| :: AcceleratedAt(traverse[j], t, y, RootAcceleration(y[0], solve), j)
  {
    hide Represents, LinkAcceleration, JointAcceleration, RootAcceleration, State, Shape.Valid, AcceleratedAt;
    LinksDistinct(traverse, t);
    ShapeOf(traverse, t);
    MovingDivides(traverse);
    ghost var y := States(traverse);
    ghost var a0 := RootAcceleration(y[0], solve);
    AccelerateRoot(traverse[0], solve);
    RootAccelerated(traverse[0], t, y, a0);
    var i := 1;
    while i < |traverse|
      invariant 1 <= i <= |traverse|
      invariant forall j | 0 <= j < i :: AcceleratedAt(traverse[j], t, y, a0, j)
    {
      PointersOf(traverse, t, i);
      var link := traverse[i];
      OutboundStep(link, link.parent);
      AcceleratedNext(link, link.parent, t, y, a0, i);
      i := i + 1;
    }
  }

  // ---- whole passes ----

  ghost function AccelerationsOf(links: seq<Link>): (a: seq<Spatial>)
    reads links
    ensures |a| == |links|
  {
    seq(|links|, i requires 0 <= i < |links| reads links => Acceleration(links[i]))
  }

  /** The accelerations stored in the links balance every joint, and the root as its type asks. */
  ghost predicate Balanced(links: seq<Link>, t: Shape, x: seq<LinkState>)
    requires Fits(t, x) && |links| == |x|
    reads links
  {
    && (forall i | 0 < i < |x| :: BalancedAt(t, x, AccelerationsOf(links), i, links[i].ddq))
    && (if x[0].joint == FREE_JOINT then Force(t, Loaded(x), AccelerationsOf(links), 0) == ZERO6
        else Acceleration(links[0]) == ZERO6)
  }

  /** The six equations of a free root are solved exactly. */
  ghost predicate SolvedExactly(t: Shape, x: seq<LinkState>, solve: (Inertia, Spatial) -> Spatial)
    requires Fits(t, x)
  {
    var root := Inbound(t, x, 0);
    root.joint == FREE_JOINT ==> Apply(root.inertia, solve(root.inertia, Negated(root.bias))) == Negated(root.bias)
  }

  lemma PassesBalance(links: seq<Link>, t: Shape, x: seq<LinkState>, solve: (Inertia, Spatial) -> Spatial)
    requires Fits(t, x) && |links| == |x| && Prepared(t, x) && Regular(t, x) && SolvedExactly(t, x, solve)
    requires forall j | 0 <= j < |x| ::
               AcceleratedAt(links[j], t, InboundAll(t, x), RootAcceleration(Inbound(t, x, 0), solve), j)
    ensures Balanced(links, t, x)
    ensures AccelerationsOf(links) == Accelerations(t, x, RootAcceleration(Inbound(t, x, 0), solve))
  {
    hide LinkAcceleration, JointAcceleration, Times, Apply, Plus, Inner, Force;
    var a0 := RootAcceleration(Inbound(t, x, 0), solve);
    assert AccelerationsOf(links) == Accelerations(t, x, a0);
    NewtonEuler(t, x, a0);
    forall i | 0 < i < |x|
      ensures BalancedAt(t, x, AccelerationsOf(links), i, links[i].ddq)
    {
      assert AcceleratedAt(links[i], t, InboundAll(t, x), a0, i);
      assert links[i].ddq == JointRate(t, x, a0, i);
      assert BalancedAt(t, x, Accelerations(t, x, a0), i, JointRate(t, x, a0, i));
    }
    assert Acceleration(links[0]) == a0;
  }

  /** The inbound pass in one piece, then the outbound pass. */
  method CalcABMPhases2And3(traverse: seq<Link>, ghost t: Shape, solve: (Inertia, Spatial) -> Spatial)
    requires Represents(traverse, t) && Prepared(t, States(traverse)) && Regular(t, States(traverse))
    requires SolvedExactly(t, States(traverse), solve)
    modifies traverse`Ivv, traverse`Iwv, traverse`Iww, traverse`pf, traverse`ptau, traverse`ddq
    modifies traverse`hhv, traverse`hhw, traverse`dd, traverse`uu, traverse`dvo, traverse`dw
    ensures Balanced(traverse, t, old(States(traverse)))
  {
    hide Represents, Balanced, SolvedExactly, Prepared, AcceleratedAt;
    ShapeOf(traverse, t);
    ghost var x := States(traverse);
    CalcABMPhase2(traverse, t);
    CalcABMPhase3(traverse, t, solve);
    PassesBalance(traverse, t, x, solve);
  }

  /** The second part of the inbound pass, then the outbound pass, on links that the first part
      left as z: they may have been given new torques and external forces since it started at w. */
  method CalcABMLastHalf(traverse: seq<Link>, ghost t: Shape, solve: (Inertia, Spatial) -> Spatial,
                         ghost w: seq<LinkState>, ghost x: seq<LinkState>)
    requires Represents(traverse, t) && Fits(t, w) && Resupplied(t, w, States(traverse), x)
    requires Prepared(t, x) && Regular(t, x) && SolvedExactly(t, x, solve)
    modifies traverse`pf, traverse`ptau, traverse`uu, traverse`ddq, traverse`dvo, traverse`dw
    ensures Balanced(traverse, t, x)
    ensures AccelerationsOf(traverse) == Accelerations(t, x, RootAcceleration(Inbound(t, x, 0), solve))
  {
    hide Represents, Balanced, SolvedExactly, Prepared, AcceleratedAt;
    ShapeOf(traverse, t);
    ghost var z := States(traverse);
    forall j | 0 <= j < |x|
      ensures SecondHalf(t, z, j) == Inbound(t, x, j)
      ensures j > 0 && x[j].Moving() ==> z[j].dd == Inbound(t, x, j).dd
    {
      HalvesAgree(t, w, z, x, j);
    }
    CalcABMPhase2Part2(traverse, t);
    assert States(traverse) == InboundAll(t, x);
    CalcABMPhase3(traverse, t, solve);
    PassesBalance(traverse, t, x, solve);
  }
}
