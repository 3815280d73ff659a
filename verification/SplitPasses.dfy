/** The inbound pass in two parts run at different times: the part that does not need the joint
    torques and external forces, and the part that does. Together they give what the single pass
    gives, whatever torques and forces are supplied in between. */
module SplitPasses {
  import opened LinearAlgebra
  import opened Links
  import opened ArticulatedBody

  function AddChildVelocityBias(acc: Spatial, child: LinkState): Spatial {
    Plus(acc, Apply(child.inertia, child.vel))
  }

  function AddChildForceBias(acc: Spatial, child: LinkState): Spatial {
    var sum := Plus(acc, child.bias);
    if child.joint == FIXED_JOINT then sum else Plus(sum, Times(Over(child.uu, child.dd), child.hh))
  }

  function JointFirstHalf(y: LinkState): LinkState {
    var hh := Apply(y.inertia, y.axis);
    y.(hh := hh, dd := Inner(y.axis, hh) + y.rotor, uu := -Inner(hh, y.vel))
  }

  /** Link i after calcABMPhase2Part1 started from x. */
  ghost function FirstHalf(t: Shape, x: seq<LinkState>, i: int): LinkState
    requires Fits(t, x) && t.IsLink(i)
    decreases |x| - i, 1
  {
    var y := x[i].(inertia := FirstHalfInertias(t, x, t.child[i], x[i].inertia),
                   bias := FirstHalfBiases(t, x, t.child[i], x[i].bias));
    if i > 0 && y.Moving() then JointFirstHalf(y) else y
  }

  ghost function FirstHalfInertias(t: Shape, x: seq<LinkState>, k: int, acc: Inertia): Inertia
    requires Fits(t, x) && t.IsPointer(k)
    decreases if k == -1 then 0 else |x| - k, 2
  {
    if k == -1 then acc
    else FirstHalfInertias(t, x, t.sibling[k], AddChildInertia(acc, FirstHalf(t, x, k)))
  }

  ghost function FirstHalfBiases(t: Shape, x: seq<LinkState>, k: int, acc: Spatial): Spatial
    requires Fits(t, x) && t.IsPointer(k)
    decreases if k == -1 then 0 else |x| - k, 2
  {
    if k == -1 then acc
    else FirstHalfBiases(t, x, t.sibling[k], AddChildVelocityBias(acc, FirstHalf(t, x, k)))
  }

  /** Link i after calcABMPhase2Part2 started from z. */
  ghost function SecondHalf(t: Shape, z: seq<LinkState>, i: int): LinkState
    requires Fits(t, z) && t.IsLink(i)
    decreases |z| - i, 1
  {
    var y := z[i].(bias := SecondHalfBiases(t, z, t.child[i], Minus(z[i].bias, z[i].ext)));
    if i > 0 && y.Moving() then y.(uu := y.uu + (y.u - Inner(y.axis, y.bias))) else y
  }

  ghost function SecondHalfBiases(t: Shape, z: seq<LinkState>, k: int, acc: Spatial): Spatial
    requires Fits(t, z) && t.IsPointer(k)
    decreases if k == -1 then 0 else |z| - k, 2
  {
    if k == -1 then acc
    else SecondHalfBiases(t, z, t.sibling[k], AddChildForceBias(acc, SecondHalf(t, z, k)))
  }

  /** z is what the first half leaves behind, except that torques and external forces may have been
      replaced; x is the start of the first half with those torques and forces. */
  ghost predicate Resupplied(t: Shape, w: seq<LinkState>, z: seq<LinkState>, x: seq<LinkState>)
    requires Fits(t, w)
  {
    && |z| == |x| == |w|
    && (forall i | 0 <= i < |w| :: z[i] == FirstHalf(t, w, i).(u := x[i].u, ext := x[i].ext))
    && (forall i | 0 <= i < |w| :: x[i] == w[i].(u := x[i].u, ext := x[i].ext))
  }

  lemma {:induction false} FirstHalfBiasesShift(t: Shape, w: seq<LinkState>, k: int, acc: Spatial, more: Spatial)
    requires Fits(t, w) && t.IsPointer(k)
    ensures FirstHalfBiases(t, w, k, Plus(acc, more)) == Plus(FirstHalfBiases(t, w, k, acc), more)
    decreases if k == -1 then 0 else |w| - k
  {
    if k != -1 {
      var f := FirstHalf(t, w, k);
      var v := Apply(f.inertia, f.vel);
      FirstHalfBiasesShift(t, w, t.sibling[k], Plus(acc, v), more);
      assert Plus(Plus(acc, more), v) == Plus(Plus(acc, v), more);
    }
  }

  /** The two halves agree with the single pass on every field of every link. */
  lemma {:induction false} HalvesAgree(t: Shape, w: seq<LinkState>, z: seq<LinkState>, x: seq<LinkState>, i: int)
    requires Fits(t, w) && Resupplied(t, w, z, x) && t.IsLink(i)
    ensures SecondHalf(t, z, i) == Inbound(t, x, i)
    decreases |x| - i, 1
  {
    hide FirstHalfInertias, FirstHalfBiases, SecondHalfBiases, ChildInertias, ChildBiases;
    InertiasAgree(t, w, z, x, t.child[i], w[i].inertia);
    BiasesAgree(t, w, z, x, t.child[i], w[i].bias, x[i].ext);
    var f, y := FirstHalf(t, w, i), Inbound(t, x, i);
    if i > 0 && x[i].Moving() {
      assert f.hh == y.hh && f.dd == y.dd;
    }
  }

  lemma {:induction false} InertiasAgree(t: Shape, w: seq<LinkState>, z: seq<LinkState>, x: seq<LinkState>, k: int,
                                         acc: Inertia)
    requires Fits(t, w) && Resupplied(t, w, z, x) && t.IsPointer(k)
    ensures FirstHalfInertias(t, w, k, acc) == ChildInertias(t, x, k, acc)
    decreases if k == -1 then 0 else |x| - k, 2
  {
    if k != -1 {
      HalvesAgree(t, w, z, x, k);
      assert AddChildInertia(acc, FirstHalf(t, w, k)) == AddChildInertia(acc, Inbound(t, x, k));
      InertiasAgree(t, w, z, x, t.sibling[k], AddChildInertia(acc, FirstHalf(t, w, k)));
    }
  }

  lemma {:induction false} BiasesAgree(t: Shape, w: seq<LinkState>, z: seq<LinkState>, x: seq<LinkState>, k: int,
                                       acc: Spatial, ext: Spatial)
    requires Fits(t, w) && Resupplied(t, w, z, x) && t.IsPointer(k)
    ensures SecondHalfBiases(t, z, k, Minus(FirstHalfBiases(t, w, k, acc), ext))
        == ChildBiases(t, x, k, Minus(acc, ext))
    decreases if k == -1 then 0 else |x| - k, 2
  {
    if k != -1 {
      HalvesAgree(t, w, z, x, k);
      var f, s, y := FirstHalf(t, w, k), SecondHalf(t, z, k), Inbound(t, x, k);
      var v, e := Apply(f.inertia, f.vel), AddChildForceBias(ZERO6, s);
      var sib := t.sibling[k];
      FirstHalfBiasesShift(t, w, sib, Plus(acc, v), e);
      BiasesAgree(t, w, z, x, sib, Plus(Plus(acc, v), e), ext);
      ForceBiasShift(Minus(FirstHalfBiases(t, w, k, acc), ext), s);
      ForceThenExt(FirstHalfBiases(t, w, sib, Plus(acc, v)), e, ext);
      ForceThenExt(Plus(acc, v), e, ext);
      SingleStep(acc, ext, s, y);
    }
  }

  lemma ForceBiasShift(acc: Spatial, s: LinkState)
    ensures AddChildForceBias(acc, s) == Plus(acc, AddChildForceBias(ZERO6, s))
  {}

  lemma ForceThenExt(a: Spatial, e: Spatial, ext: Spatial)
    ensures Minus(Plus(a, e), ext) == Plus(Minus(a, ext), e)
  {}

  lemma SingleStep(acc: Spatial, ext: Spatial, s: LinkState, y: LinkState)
    requires s == y
    ensures AddChildBias(Minus(acc, ext), y)
         == Plus(Minus(Plus(acc, Apply(s.inertia, s.vel)), ext), AddChildForceBias(ZERO6, s))
  {}
}
