/** What the inbound and outbound passes of the articulated-body method compute, as functions of
    the link data before the passes, and the theorem that the resulting accelerations satisfy
    the Newton-Euler balance at every link of every tree. */
module ArticulatedBody {
  import opened LinearAlgebra
  import opened Links

  /** The dynamics fields of one link; pairs of three-vectors are kept as spatial vectors. */
  datatype LinkState = LinkState(
    joint: JointType, axis: Spatial, vel: Spatial, rotor: real, u: real, ext: Spatial,
    inertia: Inertia, bias: Spatial, hh: Spatial, dd: real, uu: real) {

    predicate Moving() { joint != FIXED_JOINT }
  }

  ghost predicate Fits(t: Shape, x: seq<LinkState>) { t.Valid() && |x| == |t.parent| }

  /** Division that is only ever relied on for a non-zero divisor. */
  function Over(a: real, b: real): real { if b == 0.0 then 0.0 else a / b }

  // ---- inbound pass ----

  function AddChildInertia(acc: Inertia, child: LinkState): Inertia {
    if child.joint == FIXED_JOINT || child.dd == 0.0 then
      InertiaAdd(acc, child.inertia)
    else
      InertiaAdd(acc, InertiaSub(child.inertia, RankOne(child.hh, child.dd)))
  }

  function AddChildBias(acc: Spatial, child: LinkState): Spatial {
    var sum := Plus(acc, Plus(Apply(child.inertia, child.vel), child.bias));
    if child.joint == FIXED_JOINT then sum else Plus(sum, Times(Over(child.uu, child.dd), child.hh))
  }

  function Joint(y: LinkState): LinkState {
    var hh := Apply(y.inertia, y.axis);
    y.(hh := hh,
       dd := Inner(y.axis, hh) + y.rotor,
       uu := y.u - (Inner(hh, y.vel) + Inner(y.axis, y.bias)))
  }

  /** Link i after the inbound pass that starts from x. */
  ghost function Inbound(t: Shape, x: seq<LinkState>, i: int): LinkState
    requires Fits(t, x) && t.IsLink(i)
    decreases |x| - i, 1
  {
    var y := x[i].(inertia := ChildInertias(t, x, t.child[i], x[i].inertia),
                   bias := ChildBiases(t, x, t.child[i], Minus(x[i].bias, x[i].ext)));
    if i > 0 && y.Moving() then Joint(y) else y
  }

  /** The accumulator after the loop over k and its later siblings. */
  ghost function ChildInertias(t: Shape, x: seq<LinkState>, k: int, acc: Inertia): Inertia
    requires Fits(t, x) && t.IsPointer(k)
    decreases if k == -1 then 0 else |x| - k, 2
  {
    if k == -1 then acc
    else ChildInertias(t, x, t.sibling[k], AddChildInertia(acc, Inbound(t, x, k)))
  }

  ghost function ChildBiases(t: Shape, x: seq<LinkState>, k: int, acc: Spatial): Spatial
    requires Fits(t, x) && t.IsPointer(k)
    decreases if k == -1 then 0 else |x| - k, 2
  {
    if k == -1 then acc
    else ChildBiases(t, x, t.sibling[k], AddChildBias(acc, Inbound(t, x, k)))
  }

  /** No moving joint has a vanishing dd. */
  ghost predicate Regular(t: Shape, x: seq<LinkState>)
    requires Fits(t, x)
  {
    forall i | 0 < i < |x| && x[i].Moving() :: Inbound(t, x, i).dd != 0.0
  }

  // ---- outbound pass ----

  function JointAcceleration(y: LinkState, parent: Spatial): real {
    if y.joint == FIXED_JOINT then 0.0 else Over(y.uu - Inner(y.hh, parent), y.dd)
  }

  function LinkAcceleration(y: LinkState, parent: Spatial): Spatial {
    if y.joint == FIXED_JOINT then parent
    else Plus(Plus(parent, y.vel), Times(JointAcceleration(y, parent), y.axis))
  }

  /** Acceleration of link i when the links are in state y and the root accelerates by a0. */
  ghost function Outbound(t: Shape, y: seq<LinkState>, a0: Spatial, i: int): Spatial
    requires Fits(t, y) && t.IsLink(i)
    decreases i
  {
    if i == 0 then a0 else LinkAcceleration(y[i], Outbound(t, y, a0, t.parent[i]))
  }

  // ---- Newton-Euler ----

  /** The force that link i receives through its joint when every link j accelerates by a[j]:
      its own inertia force and bias, plus what it passes on to its children. */
  ghost function Force(t: Shape, x: seq<LinkState>, a: seq<Spatial>, i: int): Spatial
    requires Fits(t, x) && |a| == |x| && t.IsLink(i)
    decreases |x| - i, 1
  {
    Plus(Plus(x[i].bias, SiblingForces(t, x, a, t.child[i])), Apply(x[i].inertia, a[i]))
  }

  ghost function SiblingForces(t: Shape, x: seq<LinkState>, a: seq<Spatial>, k: int): Spatial
    requires Fits(t, x) && |a| == |x| && t.IsPointer(k)
    decreases if k == -1 then 0 else |x| - k, 2
  {
    if k == -1 then ZERO6
    else Plus(Force(t, x, a, k), SiblingForces(t, x, a, t.sibling[k]))
  }

  /** The same links with the external forces moved into the bias. */
  function Loaded(x: seq<LinkState>): (r: seq<LinkState>)
    ensures |r| == |x|
  {
    seq(|x|, i requires 0 <= i < |x| => x[i].(bias := Minus(x[i].bias, x[i].ext)))
  }

  /** Link data as calcABMPhase1 leaves it: inertias symmetric, no cross term at a fixed joint. */
  ghost predicate Prepared(t: Shape, x: seq<LinkState>)
    requires Fits(t, x)
  {
    && (forall i | 0 <= i < |x| :: Symmetric(x[i].inertia))
    && (forall i | 0 < i < |x| && !x[i].Moving() :: x[i].vel == ZERO6)
  }

  ghost function InboundAll(t: Shape, x: seq<LinkState>): (y: seq<LinkState>)
    requires Fits(t, x)
    ensures |y| == |x| && forall i | 0 <= i < |x| :: y[i] == Inbound(t, x, i)
  {
    seq(|x|, i requires 0 <= i < |x| => Inbound(t, x, i))
  }

  ghost function OutboundAll(t: Shape, y: seq<LinkState>, a0: Spatial): (a: seq<Spatial>)
    requires Fits(t, y)
    ensures |a| == |y| && forall i | 0 <= i < |y| :: a[i] == Outbound(t, y, a0, i)
  {
    seq(|y|, i requires 0 <= i < |y| => Outbound(t, y, a0, i))
  }

  lemma {:induction false} InboundSymmetric(t: Shape, x: seq<LinkState>, i: int)
    requires Fits(t, x) && Prepared(t, x) && t.IsLink(i)
    ensures Symmetric(Inbound(t, x, i).inertia)
    decreases |x| - i, 1
  {
    ChildInertiasSymmetric(t, x, t.child[i], x[i].inertia);
  }

  lemma {:induction false} ChildInertiasSymmetric(t: Shape, x: seq<LinkState>, k: int, acc: Inertia)
    requires Fits(t, x) && Prepared(t, x) && t.IsPointer(k) && Symmetric(acc)
    ensures Symmetric(ChildInertias(t, x, k, acc))
    decreases if k == -1 then 0 else |x| - k, 2
  {
    if k != -1 {
      InboundSymmetric(t, x, k);
      var y := Inbound(t, x, k);
      SymmetricClosed(acc, y.inertia, y.hh, if y.dd == 0.0 then 1.0 else y.dd);
      ChildInertiasSymmetric(t, x, t.sibling[k], AddChildInertia(acc, y));
    }
  }

  /** Crossing one moving joint: what the child contributes to the parent's inertia and bias,
      applied to the parent's acceleration, is the child's own balance at its acceleration. */
  lemma JointBalance(i: Inertia, hh: Spatial, d: real, uu: real, vel: Spatial, axis: Spatial,
                     bias: Spatial, parent: Spatial, ddq: real)
    requires d != 0.0 && hh == Apply(i, axis) && Product(ddq, d) == uu - Inner(hh, parent)
    ensures Plus(Apply(InertiaSub(i, RankOne(hh, d)), parent), Plus(Plus(Apply(i, vel), bias), Times(Over(uu, d), hh)))
         == Plus(Apply(i, Plus(Plus(parent, vel), Times(ddq, axis))), bias)
  {
    hide Apply, Inner, Plus, Times, Minus, InertiaSub, RankOne, Product;
    var r := Over(Inner(hh, parent), d);
    OverTimes(Inner(hh, parent), d);
    ProductAdd(ddq, r, d);
    OverUnique(ddq + r, d, uu);
    ApplyInertiaSub(i, RankOne(hh, d), parent);
    ApplyRankOne(hh, d, parent, r);
    ApplyPlus(i, Plus(parent, vel), Times(ddq, axis));
    ApplyPlus(i, parent, vel);
    ApplyTimes(i, ddq, axis);
    TimesSum(ddq, r, hh);
    Rearranged(Apply(i, parent), Apply(i, vel), bias, Times(r, hh), Times(ddq, hh));
  }

  lemma OverTimes(a: real, b: real)
    requires b != 0.0
    ensures Product(Over(a, b), b) == a
  {}

  lemma OverUnique(x: real, d: real, n: real)
    requires d != 0.0 && Product(x, d) == n
    ensures Over(n, d) == x
  {}

  lemma Rearranged(p: Spatial, v: Spatial, b: Spatial, r: Spatial, q: Spatial)
    ensures Plus(Minus(p, r), Plus(Plus(v, b), Plus(q, r))) == Plus(Plus(Plus(p, v), q), b)
  {}

  /** The accelerations that the two passes produce. */
  ghost function Accelerations(t: Shape, x: seq<LinkState>, a0: Spatial): (a: seq<Spatial>)
    requires Fits(t, x)
    ensures |a| == |x|
  {
    OutboundAll(t, InboundAll(t, x), a0)
  }

  /** One child's share of its parent's inertia and bias. */
  lemma ChildShare(t: Shape, x: seq<LinkState>, k: int, accI: Inertia, accP: Spatial, parent: Spatial)
    requires Fits(t, x) && Prepared(t, x) && Regular(t, x) && 0 < k < |x|
    ensures var y := Inbound(t, x, k);
      Plus(Apply(AddChildInertia(accI, y), parent), AddChildBias(accP, y))
      == Plus(Plus(Apply(accI, parent), accP), Plus(Apply(y.inertia, LinkAcceleration(y, parent)), y.bias))
  {
    hide Apply, Inner, Plus, Times, InertiaSub, InertiaAdd, RankOne, Product;
    var y := Inbound(t, x, k);
    if y.joint == FIXED_JOINT {
      ApplyInertiaAdd(accI, y.inertia, parent);
      assert y.vel == ZERO6;
      ApplyZero(y.inertia);
      FixedShuffle(Apply(accI, parent), Apply(y.inertia, parent), accP, y.bias);
    } else {
      OverTimes(y.uu - Inner(y.hh, parent), y.dd);
      JointBalance(y.inertia, y.hh, y.dd, y.uu, y.vel, y.axis, y.bias, parent, JointAcceleration(y, parent));
      ApplyInertiaAdd(accI, InertiaSub(y.inertia, RankOne(y.hh, y.dd)), parent);
      Shuffle(Apply(accI, parent), Apply(InertiaSub(y.inertia, RankOne(y.hh, y.dd)), parent), accP,
              Plus(Apply(y.inertia, y.vel), y.bias), Times(Over(y.uu, y.dd), y.hh));
    }
  }

  lemma FixedShuffle(a: Spatial, b: Spatial, c: Spatial, d: Spatial)
    ensures Plus(Plus(a, b), Plus(c, Plus(ZERO6, d))) == Plus(Plus(a, c), Plus(b, d))
  {}

  lemma Shuffle(a: Spatial, b: Spatial, c: Spatial, d: Spatial, e: Spatial)
    ensures Plus(Plus(a, b), Plus(Plus(c, d), e)) == Plus(Plus(a, c), Plus(b, Plus(d, e)))
  {}

  /** Each link's transmitted force is its articulated inertia times its acceleration plus its
      articulated bias. */
  lemma {:induction false} LinkBalance(t: Shape, x: seq<LinkState>, a0: Spatial, i: int)
    requires Fits(t, x) && Prepared(t, x) && Regular(t, x) && t.IsLink(i)
    ensures var y, a := Inbound(t, x, i), Accelerations(t, x, a0);
      Force(t, Loaded(x), a, i) == Plus(Apply(y.inertia, a[i]), y.bias)
    decreases |x| - i, 1
  {
    var a := Accelerations(t, x, a0);
    ChildrenBalance(t, x, a0, i, t.child[i], x[i].inertia, Minus(x[i].bias, x[i].ext));
    OuterShuffle(Minus(x[i].bias, x[i].ext), SiblingForces(t, Loaded(x), a, t.child[i]), Apply(x[i].inertia, a[i]));
  }

  lemma OuterShuffle(a: Spatial, b: Spatial, c: Spatial)
    ensures Plus(Plus(a, b), c) == Plus(Plus(c, a), b)
  {}

  lemma {:induction false} ChildrenBalance(t: Shape, x: seq<LinkState>, a0: Spatial, i: int, k: int, accI: Inertia,
                                           accP: Spatial)
    requires Fits(t, x) && Prepared(t, x) && Regular(t, x) && t.IsLink(i) && t.IsPointer(k)
    requires k != -1 ==> i < k && t.parent[k] == i
    ensures var a := Accelerations(t, x, a0);
      Plus(Apply(ChildInertias(t, x, k, accI), a[i]), ChildBiases(t, x, k, accP))
      == Plus(Plus(Apply(accI, a[i]), accP), SiblingForces(t, Loaded(x), a, k))
    decreases if k == -1 then 0 else |x| - k, 2
  {
    var a := Accelerations(t, x, a0);
    if k != -1 {
      var y := Inbound(t, x, k);
      LinkBalance(t, x, a0, k);
      assert a[k] == LinkAcceleration(y, a[i]);
      ChildShare(t, x, k, accI, accP, a[i]);
      ChildrenBalance(t, x, a0, i, t.sibling[k], AddChildInertia(accI, y), AddChildBias(accP, y));
      PlusAssociative(Plus(Apply(accI, a[i]), accP), Force(t, Loaded(x), a, k),
                      SiblingForces(t, Loaded(x), a, t.sibling[k]));
    } else {
      assert forall s: Spatial :: Plus(s, ZERO6) == s;
    }
  }

  lemma PlusAssociative(a: Spatial, b: Spatial, c: Spatial)
    ensures Plus(Plus(a, b), c) == Plus(a, Plus(b, c))
  {}

  /** A moving joint carries exactly the commanded torque, less what its rotor absorbs. */
  lemma JointTorque(y: LinkState, parent: Spatial)
    requires y == Joint(y) && y.joint != FIXED_JOINT && y.dd != 0.0 && Symmetric(y.inertia)
    ensures Inner(y.axis, Plus(Apply(y.inertia, LinkAcceleration(y, parent)), y.bias))
         + Product(y.rotor, JointAcceleration(y, parent)) == y.u
  {
    hide Apply, Inner, Plus, Times, Symmetric, Product;
    var ddq := JointAcceleration(y, parent);
    var moved := Plus(Plus(parent, y.vel), Times(ddq, y.axis));
    OverTimes(y.uu - Inner(y.hh, parent), y.dd);
    InnerPlus(y.axis, Apply(y.inertia, moved), y.bias);
    ApplySelfAdjoint(y.inertia, y.axis, moved);
    InnerPlus(y.hh, Plus(parent, y.vel), Times(ddq, y.axis));
    InnerPlus(y.hh, parent, y.vel);
    InnerComm(y.hh, y.axis);
    InnerTimes(y.hh, ddq, y.axis);
    ProductAdd(ddq, Inner(y.axis, y.hh), y.rotor);
    ProductComm(ddq, y.rotor);
  }

  /** Joint acceleration ddq of link i in the outbound pass. */
  ghost function JointRate(t: Shape, x: seq<LinkState>, a0: Spatial, i: int): real
    requires Fits(t, x) && 0 < i < |x|
  {
    JointAcceleration(Inbound(t, x, i), Accelerations(t, x, a0)[t.parent[i]])
  }

  /** Newton-Euler at link i under link accelerations a: the link moves relative to its parent
      only as its joint allows, at the rate ddq, and the force through a moving joint does the
      commanded torque. */
  ghost predicate BalancedAt(t: Shape, x: seq<LinkState>, a: seq<Spatial>, i: int, ddq: real)
    requires Fits(t, x) && |a| == |x| && 0 < i < |x|
  {
    if x[i].Moving() then
      && a[i] == Plus(Plus(a[t.parent[i]], x[i].vel), Times(ddq, x[i].axis))
      && Inner(x[i].axis, Force(t, Loaded(x), a, i)) + Product(x[i].rotor, ddq) == x[i].u
    else
      a[i] == a[t.parent[i]] && ddq == 0.0
  }

  lemma MovingLinkBalanced(t: Shape, x: seq<LinkState>, a0: Spatial, i: int)
    requires Fits(t, x) && Prepared(t, x) && Regular(t, x) && 0 < i < |x| && x[i].Moving()
    ensures BalancedAt(t, x, Accelerations(t, x, a0), i, JointRate(t, x, a0, i))
  {
    var y, a := Inbound(t, x, i), Accelerations(t, x, a0);
    var parent := a[t.parent[i]];
    assert a[i] == LinkAcceleration(y, parent);
    LinkBalance(t, x, a0, i);
    InboundSymmetric(t, x, i);
    JointTorque(y, parent);
  }

  /** The Newton-Euler theorem: under the accelerations that the two passes produce, every joint
      of every tree is balanced; and the root carries no force at all exactly when its six
      equations were solved exactly. */
  lemma NewtonEuler(t: Shape, x: seq<LinkState>, a0: Spatial)
    requires Fits(t, x) && Prepared(t, x) && Regular(t, x)
    ensures forall i | 0 < i < |x| :: BalancedAt(t, x, Accelerations(t, x, a0), i, JointRate(t, x, a0, i))
    ensures Apply(Inbound(t, x, 0).inertia, a0) == Negated(Inbound(t, x, 0).bias)
            <==> Force(t, Loaded(x), Accelerations(t, x, a0), 0) == ZERO6
  {
    forall i | 0 < i < |x|
      ensures BalancedAt(t, x, Accelerations(t, x, a0), i, JointRate(t, x, a0, i))
    {
      if x[i].Moving() {
        MovingLinkBalanced(t, x, a0, i);
      } else {
        assert Accelerations(t, x, a0)[i] == LinkAcceleration(Inbound(t, x, i), Accelerations(t, x, a0)[t.parent[i]]);
      }
    }
    LinkBalance(t, x, a0, 0);
    SumIsZero(Apply(Inbound(t, x, 0).inertia, a0), Inbound(t, x, 0).bias);
  }

  lemma SumIsZero(a: Spatial, b: Spatial)
    ensures a == Negated(b) <==> Plus(a, b) == ZERO6
  {}
}
