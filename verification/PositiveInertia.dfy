/** Why no joint of a body with positive inertias divides by zero: articulated inertias stay
    positive definite, so dd is positive at every moving joint. */
module PositiveInertia {
  import opened LinearAlgebra
  import opened Links
  import opened ArticulatedBody

  ghost function Energy(i: Inertia, a: Spatial): real { Inner(a, Apply(i, a)) }

  ghost predicate Positive(i: Inertia) { forall a: Spatial | a != ZERO6 :: Energy(i, a) > 0.0 }

  ghost predicate NonNegative(i: Inertia) { forall a: Spatial :: Energy(i, a) >= 0.0 }

  /** Every link inertia is symmetric and positive, every moving joint has an axis, and no rotor
      inertia is negative. */
  ghost predicate Massive(t: Shape, x: seq<LinkState>)
    requires Fits(t, x)
  {
    && Prepared(t, x)
    && (forall i | 0 <= i < |x| :: Positive(x[i].inertia))
    && (forall i | 0 < i < |x| && x[i].Moving() :: x[i].axis != ZERO6 && x[i].rotor >= 0.0)
  }

  lemma EnergySum(i: Inertia, j: Inertia, a: Spatial)
    ensures Energy(InertiaAdd(i, j), a) == Energy(i, a) + Energy(j, a)
  {
    ApplyInertiaAdd(i, j, a);
    InnerPlus(a, Apply(i, a), Apply(j, a));
  }

  lemma PositiveSum(i: Inertia, j: Inertia)
    requires Positive(i) && NonNegative(j)
    ensures Positive(InertiaAdd(i, j))
  {
    forall a: Spatial | a != ZERO6
      ensures Energy(InertiaAdd(i, j), a) > 0.0
    {
      EnergySum(i, j, a);
    }
  }

  /** Energy along the line a - r s, with h = I s. */
  lemma EnergyOnLine(i: Inertia, s: Spatial, a: Spatial, r: real)
    requires Symmetric(i)
    ensures Energy(i, Plus(a, Times(-r, s)))
         == Energy(i, a) - 2.0 * Product(r, Inner(Apply(i, s), a)) + Product(Product(r, r), Energy(i, s))
  {
    hide Inner, Apply, Plus, Times, Symmetric, Product;
    var h, k := Apply(i, s), -r;
    var b := Plus(a, Times(k, s));
    var ha, sh := Inner(h, a), Energy(i, s);
    ApplyPlus(i, a, Times(k, s));
    ApplyTimes(i, k, s);
    InnerPlus(b, Apply(i, a), Times(k, h));
    InnerTimes(b, k, h);
    InnerComm(b, Apply(i, a));
    InnerPlus(Apply(i, a), a, Times(k, s));
    InnerTimes(Apply(i, a), k, s);
    ApplySelfAdjoint(i, s, a);
    InnerComm(s, Apply(i, a));
    InnerComm(Apply(i, a), a);
    InnerComm(b, h);
    InnerPlus(h, a, Times(k, s));
    InnerComm(h, s);
    InnerTimes(h, k, s);
    ProductAdd(k, ha, Product(k, sh));
    ProductAssoc(k, k, sh);
    ProductNeg(r, k);
    ProductNeg(r, r);
    ProductNeg(r, ha);
  }

  lemma RemovedJointEnergy(i: Inertia, s: Spatial, rotor: real, d: real, a: Spatial)
    requires Symmetric(i) && Positive(i) && rotor >= 0.0 && d > 0.0
    requires d == Energy(i, s) + rotor
    ensures Energy(InertiaSub(i, RankOne(Apply(i, s), d)), a) >= 0.0
  {
    hide Inner, Apply, Plus, Times, InertiaSub, RankOne, Minus, Symmetric, Product;
    var h := Apply(i, s);
    var ha := Inner(h, a);
    var r := Over(ha, d);
    OverTimes(ha, d);
    ApplyInertiaSub(i, RankOne(h, d), a);
    ApplyRankOne(h, d, a, r);
    InnerMinus(a, Apply(i, a), Times(r, h));
    InnerComm(a, h);
    InnerTimes(a, r, h);
    EnergyOnLine(i, s, a, r);
    EnergyNonNegative(i, Plus(a, Times(-r, s)));
    ProductAssoc(r, r, d);
    ProductAdd(Product(r, r), Energy(i, s), rotor);
    ProductSquare(r);
    ProductSign(Product(r, r), rotor);
  }

  lemma EnergyNonNegative(i: Inertia, a: Spatial)
    requires Positive(i)
    ensures Energy(i, a) >= 0.0
  {
    if a == ZERO6 { ApplyZero(i); }
  }

  /** Removing a joint's freedom leaves a non-negative inertia, and its dd is positive. */
  lemma JointNonNegative(i: Inertia, s: Spatial, rotor: real, d: real)
    requires Symmetric(i) && Positive(i) && s != ZERO6 && rotor >= 0.0
    requires d == Inner(s, Apply(i, s)) + rotor
    ensures d > 0.0 && NonNegative(InertiaSub(i, RankOne(Apply(i, s), d)))
  {
    assert Energy(i, s) > 0.0;
    forall a: Spatial
      ensures Energy(InertiaSub(i, RankOne(Apply(i, s), d)), a) >= 0.0
    {
      RemovedJointEnergy(i, s, rotor, d, a);
    }
  }

  /** Positive link inertias make every articulated inertia positive and every dd positive. */
  lemma {:induction false} ArticulatedPositive(t: Shape, x: seq<LinkState>, i: int)
    requires Fits(t, x) && Massive(t, x) && t.IsLink(i)
    ensures Positive(Inbound(t, x, i).inertia)
    ensures i > 0 && x[i].Moving() ==> Inbound(t, x, i).dd > 0.0
    decreases |x| - i, 1
  {
    var y := Inbound(t, x, i);
    ChildrenPositive(t, x, t.child[i], x[i].inertia);
    if i > 0 && x[i].Moving() {
      InboundSymmetric(t, x, i);
      JointNonNegative(y.inertia, y.axis, y.rotor, y.dd);
    }
  }

  lemma {:induction false} ChildrenPositive(t: Shape, x: seq<LinkState>, k: int, acc: Inertia)
    requires Fits(t, x) && Massive(t, x) && t.IsPointer(k) && Positive(acc) && k != 0
    ensures Positive(ChildInertias(t, x, k, acc))
    decreases if k == -1 then 0 else |x| - k, 2
  {
    if k != -1 {
      ArticulatedPositive(t, x, k);
      var y := Inbound(t, x, k);
      if x[k].Moving() {
        InboundSymmetric(t, x, k);
        JointNonNegative(y.inertia, y.axis, y.rotor, y.dd);
        PositiveSum(acc, InertiaSub(y.inertia, RankOne(y.hh, y.dd)));
      } else {
        forall a: Spatial ensures Energy(y.inertia, a) >= 0.0 { EnergyNonNegative(y.inertia, a); }
        PositiveSum(acc, y.inertia);
      }
      ChildrenPositive(t, x, t.sibling[k], AddChildInertia(acc, y));
    }
  }

  /** The regularity that the passes need holds for every body of positive link inertias. */
  lemma MassiveIsRegular(t: Shape, x: seq<LinkState>)
    requires Fits(t, x) && Massive(t, x)
    ensures Regular(t, x)
  {
    forall i | 0 < i < |x| && x[i].Moving()
      ensures Inbound(t, x, i).dd != 0.0
    {
      ArticulatedPositive(t, x, i);
    }
  }
}
