/** The outbound pass of the constraint solver, which leaves out links that carry no constraint, and
    the whole of one test force: walk, pass, and restored joint terms. */
module SkippingPass {
  import opened LinearAlgebra
  import opened Links
  import opened ArticulatedBody
  import opened SplitPasses
  import opened TestForce
  import opened ForwardDynamicsABM
  import opened ConstraintForces
  import opened SkipNumbers

  ghost function AccelerationOf(data: LinkData): Spatial
    reads data`dvo, data`dw
  {
    Spatial(data.dvo, data.dw)
  }

  /** The link is not left out: some constraint acts in its subtree. */
  ghost predicate Reached(data: LinkData)
    reads data`numberToCheckAccelCalcSkip
  {
    data.numberToCheckAccelCalcSkip <= INT_MAX - 1
  }

  /** The links with the joint terms that the link data hold. */
  ghost function WithTerms(z: seq<LinkState>, u: seq<real>): (r: seq<LinkState>)
    requires |u| == |z|
    ensures |r| == |z|
  {
    seq(|z|, i requires 0 <= i < |z| => z[i].(uu := u[i]))
  }

  /** Link data of link j after the pass. */
  ghost predicate PassedAt(data: LinkData, t: Shape, y: seq<LinkState>, a0: Spatial, j: int)
    requires Fits(t, y) && 0 < j < |y|
    reads data`dvo, data`dw, data`ddq, data`uu, data`uu0
  {
    && AccelerationOf(data) == Outbound(t, y, a0, j)
    && data.ddq == JointAcceleration(y[j], Outbound(t, y, a0, t.parent[j]))
    && data.uu == data.uu0
  }

  method AccelerateRootData(root: Link, data: LinkData, delta: Spatial, solve: (Inertia, Spatial) -> Spatial)
    modifies data`dvo, data`dw
    ensures AccelerationOf(data) == RootAcceleration(State(root).(bias := Plus(Bias0(data), delta)), solve)
  {
    if root.jointType == FREE_JOINT {
      var pf, ptau := Add(data.pf0, delta.v), Add(data.ptau0, delta.w);
      var a := solve(Inertia(root.Ivv, root.Iwv, root.Iww), Spatial(Neg(pf), Neg(ptau)));
      data.dvo, data.dw := a.v, a.w;
    } else {
      data.dvo, data.dw := ZERO3, ZERO3;
    }
  }

  method SkippingStep(link: Link, data: LinkData, parentData: LinkData)
    requires data != parentData && (link.jointType != FIXED_JOINT ==> link.dd != 0.0)
    modifies data`ddq, data`dvo, data`dw, data`uu
    ensures data.ddq == JointAcceleration(State(link).(uu := old(data.uu)), AccelerationOf(parentData))
    ensures AccelerationOf(data) == LinkAcceleration(State(link).(uu := old(data.uu)), AccelerationOf(parentData))
    ensures data.uu == data.uu0
  {
    hide Product, Add, Scale, Dot;
    if link.jointType != FIXED_JOINT {
      data.ddq := (data.uu - (Dot(link.hhv, parentData.dvo) + Dot(link.hhw, parentData.dw))) / link.dd;
      data.dvo := Add(Add(parentData.dvo, link.cv), Scale(data.ddq, link.sv));
      data.dw := Add(Add(parentData.dw, link.cw), Scale(data.ddq, link.sw));
    } else {
      data.ddq := 0.0;
      data.dvo := parentData.dvo;
      data.dw := parentData.dw;
    }
    data.uu := data.uu0;
  }

  /** The body of the loop for a link that is not left out. */
  method SkippingStepAt(body: BodyData, data: LinkData, i: int, ghost z: seq<LinkState>, ghost y: seq<LinkState>,
                        ghost a0: Spatial)
    requires body.Aligned() && |y| == |z| == |body.traverse| && 0 < i < |z| && data == body.linksData[i]
    requires State(body.traverse[i]) == z[i] && Fits(body.tree, y) && y[i] == z[i].(uu := data.uu)
    requires z[i].Moving() ==> z[i].dd != 0.0
    requires AccelerationOf(body.linksData[body.tree.parent[i]]) == Outbound(body.tree, y, a0, body.tree.parent[i])
    modifies data`ddq, data`dvo, data`dw, data`uu
    ensures PassedAt(data, body.tree, y, a0, i)
  {
    hide LinkAcceleration, JointAcceleration, BodyData.Aligned;
    body.DataOf(i);
    SkippingStep(data.link, data, body.linksData[data.parentIndex]);
  }

  method CalcAccelsABM(body: BodyData, solve: (Inertia, Spatial) -> Spatial, ghost z: seq<LinkState>)
    requires body.Valid() && z == States(body.traverse) && Fits(body.tree, z)
    requires forall j | 0 < j < |z| && z[j].Moving() :: z[j].dd != 0.0
    requires Monotone(body.tree, Numbers(body.linksData))
    modifies body`dpf, body`dptau
    modifies body.linksData`ddq, body.linksData`dvo, body.linksData`dw, body.linksData`uu
    ensures body.Delta() == ZERO6
    ensures var y := WithTerms(z, old(Uus(body.linksData)));
            var a0 := RootAcceleration(z[0].(bias := Plus(Bias0(body.linksData[0]), old(body.Delta()))), solve);
            && AccelerationOf(body.linksData[0]) == a0
            && (forall j | 0 < j < |z| && Reached(body.linksData[j]) ::
                PassedAt(body.linksData[j], body.tree, y, a0, j))
    ensures forall j | 0 < j < |z| && !Reached(body.linksData[j]) ::
              && AccelerationOf(body.linksData[j]) == old(AccelerationOf(body.linksData[j]))
              && body.linksData[j].uu == old(body.linksData[j].uu)
  {
    hide BodyData.Aligned, Represents, Plus, PassedAt, Numbers;
    body.DataOf(0);
    ghost var y := WithTerms(z, Uus(body.linksData));
    ghost var a0 := RootAcceleration(z[0].(bias := Plus(Bias0(body.linksData[0]), body.Delta())), solve);
    assert State(body.traverse[0]) == z[0];
    AccelerateRootData(body.traverse[0], body.linksData[0], Spatial(body.dpf, body.dptau), solve);
    body.dpf := ZERO3;
    body.dptau := ZERO3;
    PassOutward(body, z, y, a0);
  }

  /** The loop outward from the root. */
  method PassOutward(body: BodyData, ghost z: seq<LinkState>, ghost y: seq<LinkState>, ghost a0: Spatial)
    requires body.Aligned() && z == States(body.traverse) && Fits(body.tree, z)
    requires y == WithTerms(z, Uus(body.linksData)) && AccelerationOf(body.linksData[0]) == a0
    requires forall j | 0 < j < |z| && z[j].Moving() :: z[j].dd != 0.0
    requires Monotone(body.tree, Numbers(body.linksData))
    modifies body.linksData`ddq, body.linksData`dvo, body.linksData`dw, body.linksData`uu
    ensures AccelerationOf(body.linksData[0]) == a0
    ensures forall j | 0 < j < |z| && Reached(body.linksData[j]) :: PassedAt(body.linksData[j], body.tree, y, a0, j)
    ensures forall j | 0 < j < |z| && !Reached(body.linksData[j]) ::
              && AccelerationOf(body.linksData[j]) == old(AccelerationOf(body.linksData[j]))
              && body.linksData[j].uu == old(body.linksData[j].uu)
  {
    hide BodyData.Aligned, Outbound, States, State, PassedAt, AccelerationOf, Numbers, Uus;
    ghost var t, n := body.tree, Numbers(body.linksData);
    body.DataOf(0);
    var i := 1;
    while i < |body.linksData|
      invariant 1 <= i <= |z|
      invariant AccelerationOf(body.linksData[0]) == a0
      invariant forall j | 0 < j < i && Reached(body.linksData[j]) :: PassedAt(body.linksData[j], t, y, a0, j)
      invariant forall j | 0 < j < |z| && (j >= i || !Reached(body.linksData[j])) ::
                  && AccelerationOf(body.linksData[j]) == old(AccelerationOf(body.linksData[j]))
                  && body.linksData[j].uu == y[j].uu
    {
      body.DataOf(i);
      var data := body.linksData[i];
      if data.numberToCheckAccelCalcSkip <= INT_MAX - 1 {
        ghost var up := t.parent[i];
        RootOutbound(t, y, a0);
        assert n[up] <= n[i];
        assert up == 0 || Reached(body.linksData[up]);
        if up > 0 {
          PassedOutbound(body.linksData[up], t, y, a0, up);
        }
        SkippingStepAt(body, data, i, z, y, a0);
      }
      i := i + 1;
    }
  }

  lemma PassedOutbound(data: LinkData, t: Shape, y: seq<LinkState>, a0: Spatial, j: int)
    requires Fits(t, y) && 0 < j < |y| && PassedAt(data, t, y, a0, j)
    ensures AccelerationOf(data) == Outbound(t, y, a0, j)
  {}

  lemma RootOutbound(t: Shape, y: seq<LinkState>, a0: Spatial)
    requires Fits(t, y)
    ensures Outbound(t, y, a0, 0) == a0
  {}

  // ---- one whole test force ----

  /** The numbers that setAccelCalcSkipInformation leaves are as the pass needs them: a link with a
      constraint is never left out, and no link is left out while one below it is not. */
  lemma ConstrainedAreReached(body: BodyData, pairs: seq<LinkPair>, p: LinkPair)
    requires body.Valid() && Numbered(body, Marks(pairs)) && p in pairs && p.constraintIndex < INT_MAX
    ensures body.Aligned() && Monotone(body.tree, Numbers(body.linksData))
    ensures p.body0 == body && body.tree.IsLink(p.link0) ==> Reached(body.linksData[p.link0])
    ensures p.body1 == body && body.tree.IsLink(p.link1) ==> Reached(body.linksData[p.link1])
  {
    hide Inside;
    NumberedMonotone(body, Marks(pairs));
    MarkedIsLeast(pairs, p, body);
  }

  lemma {:induction false} MarkedIsLeast(pairs: seq<LinkPair>, p: LinkPair, body: BodyData)
    requires p in pairs && body.tree.Valid()
    ensures p.body0 == body && body.tree.IsLink(p.link0) ==> Least(Marks(pairs), body, p.link0) <= p.constraintIndex
    ensures p.body1 == body && body.tree.IsLink(p.link1) ==> Least(Marks(pairs), body, p.link1) <= p.constraintIndex
  {
    var front, last := pairs[..|pairs| - 1], pairs[|pairs| - 1];
    if p != last {
      MarkedIsLeast(front, p, body);
    }
  }

  /** Between test forces: biases and joint terms as without any, and no force pending. */
  ghost predicate AtRest(body: BodyData, z: seq<LinkState>)
    requires Fits(body.tree, z) && |body.linksData| == |z|
    reads body`dpf, body`dptau, body.linksData
  {
    && body.Delta() == ZERO6
    && (forall j | 0 <= j < |z| :: Initialized(body.linksData[j], SecondHalf(body.tree, z, j), j))
  }

  /** What running the second half of the inbound pass again leaves. */
  ghost function Rerun(t: Shape, x: seq<LinkState>): (y: seq<LinkState>)
    requires Fits(t, x)
    ensures |y| == |x| && forall j | 0 <= j < |x| :: y[j] == SecondHalf(t, x, j)
  {
    seq(|x|, j requires 0 <= j < |x| => SecondHalf(t, x, j))
  }

  /** Links with the same joint data accelerate alike. */
  lemma {:induction false} SameOutbound(t: Shape, y: seq<LinkState>, y': seq<LinkState>, a0: Spatial, j: int)
    requires Fits(t, y) && Fits(t, y') && t.IsLink(j)
    requires forall k | 0 < k < |y| :: JointDataAgree(y[k], y'[k])
    ensures Outbound(t, y, a0, j) == Outbound(t, y', a0, j)
    ensures j > 0 ==>
      JointAcceleration(y[j], Outbound(t, y, a0, t.parent[j]))
      == JointAcceleration(y'[j], Outbound(t, y', a0, t.parent[j]))
    decreases j
  {
    hide Plus, Times, Inner;
    if j > 0 {
      SameOutbound(t, y, y', a0, t.parent[j]);
    }
  }

  ghost predicate JointDataAgree(x: LinkState, y: LinkState) {
    && x.joint == y.joint && x.axis == y.axis && x.vel == y.vel && x.hh == y.hh && x.dd == y.dd
    && (x.Moving() ==> x.uu == y.uu)
  }

  /** Joint terms after one walk, and after two, are those of the rerun with the forces added. */
  lemma TermsOfRerun(t: Shape, z: seq<LinkState>, i: int, f: Spatial, k: int, g: Spatial, j: int, u: real)
    requires Fits(t, z) && t.IsLink(i) && t.IsLink(k) && 0 < j < |z|
    ensures (z[j].Moving() ==> u == SecondHalf(t, z, j).uu + Owed(t, z, i, f, j))
            ==> JointDataAgree(z[j].(uu := u), SecondHalf(t, WithForce(z, i, f), j))
    ensures (z[j].Moving() ==> u == SecondHalf(t, z, j).uu + Owed(t, z, i, f, j) + Owed(t, z, k, g, j))
            ==> JointDataAgree(z[j].(uu := u), SecondHalf(t, WithForce(WithForce(z, i, f), k, g), j))
  {
    hide Plus, Inner, Negated, BiasChange;
    ForcesSuperpose(t, z, i, f, k, g, j);
    WalkMatchesRerun(t, z, i, f, 0);
    WalkMatchesRerun(t, WithForce(z, i, f), k, g, 0);
    assert ChangedAt(t, z, i, f, j);
    assert ChangedAt(t, WithForce(z, i, f), k, g, j);
    assert SecondHalf(t, z, j).axis == z[j].axis;
  }

  /** A link that is left out is off the path of the test force, so nothing is owed to its joint. */
  lemma LeftOutOwedNothing(t: Shape, z: seq<LinkState>, n: seq<int>, start: int, f: Spatial, j: int)
    requires Fits(t, z) && |n| == |z| && Monotone(t, n) && t.IsLink(start) && t.IsLink(j)
    requires n[start] < INT_MAX <= n[j]
    ensures Owed(t, z, start, f, j) == 0.0
  {
    hide JointChange, BiasChange;
    if OnPath(t, start, j) {
      MonotoneOnPath(t, n, start, j);
    }
    OffPathUnchanged(t, z, start, Negated(f), j);
    NoChange(z[j]);
  }

  /** The joint term of link j after one walk is as the pass needs it. */
  lemma TermAfterWalk(data: LinkData, t: Shape, z: seq<LinkState>, n: seq<int>, i: int, f: Spatial, j: int)
    requires Fits(t, z) && |n| == |z| && Monotone(t, n) && t.IsLink(i) && 0 < j < |z|
    requires n[j] == data.numberToCheckAccelCalcSkip && n[i] < INT_MAX
    requires z[j].Moving() ==> data.uu0 == SecondHalf(t, z, j).uu && data.uu == data.uu0 + Owed(t, z, i, f, j)
    ensures TermAsRerun(data, t, z, WithForce(z, i, f), j)
  {
    hide SecondHalf, Owed, JointDataAgree, Monotone;
    TermsOfRerun(t, z, i, f, 0, ZERO6, j, data.uu);
    if !Reached(data) {
      LeftOutOwedNothing(t, z, n, i, f, j);
    }
  }

  /** The same after two walks. */
  lemma TermAfterWalks(data: LinkData, t: Shape, z: seq<LinkState>, n: seq<int>, i: int, f: Spatial, k: int, g: Spatial,
                       j: int)
    requires Fits(t, z) && |n| == |z| && Monotone(t, n) && t.IsLink(i) && t.IsLink(k) && 0 < j < |z|
    requires n[j] == data.numberToCheckAccelCalcSkip && n[i] < INT_MAX && n[k] < INT_MAX
    requires z[j].Moving() ==>
               data.uu0 == SecondHalf(t, z, j).uu && data.uu == data.uu0 + Owed(t, z, i, f, j) + Owed(t, z, k, g, j)
    ensures TermAsRerun(data, t, z, WithForce(WithForce(z, i, f), k, g), j)
  {
    hide SecondHalf, Owed, JointDataAgree, Monotone;
    TermsOfRerun(t, z, i, f, k, g, j, data.uu);
    if !Reached(data) {
      LeftOutOwedNothing(t, z, n, i, f, j);
      LeftOutOwedNothing(t, z, n, k, g, j);
    }
  }

  /** Restored joint terms and untouched biases are those of rest. */
  lemma RestsAgain(body: BodyData, z: seq<LinkState>)
    requires Fits(body.tree, z) && |body.linksData| == |z| && body.Delta() == ZERO6
    requires forall j | 0 <= j < |z| :: Bias0(body.linksData[j]) == SecondHalf(body.tree, z, j).bias
    requires forall j | 0 < j < |z| && z[j].Moving() ::
      body.linksData[j].uu == body.linksData[j].uu0 == SecondHalf(body.tree, z, j).uu
    ensures AtRest(body, z)
  {
    hide SecondHalf;
    forall j | 0 <= j < |z| ensures SecondHalf(body.tree, z, j).joint == z[j].joint {
      SameJoint(body.tree, z, j);
    }
  }

  /** One test force on a constrained link: every link that is not left out gets the acceleration
      that a complete rerun with the force would give it, and afterwards every joint term is as it
      was, so that the next test force starts afresh. */
  method ApplyTestForce(body: BodyData, start: int, f: Vec3, tau: Vec3, solve: (Inertia, Spatial) -> Spatial,
                        ghost z: seq<LinkState>)
    requires body.Valid() && z == States(body.traverse) && Fits(body.tree, z) && 0 <= start < |body.traverse|
    requires forall j | 0 < j < |z| && z[j].Moving() :: z[j].dd != 0.0
    requires Monotone(body.tree, Numbers(body.linksData)) && Reached(body.linksData[start])
    requires AtRest(body, z)
    modifies body`dpf, body`dptau
    modifies body.linksData`ddq, body.linksData`dvo, body.linksData`dw, body.linksData`uu
    ensures AtRest(body, z)
    ensures AcceleratedAs(body, WithForce(z, start, Spatial(f, tau)), solve)
  {
    hide BodyData.Aligned, Represents, Shape.Valid, Plus, SecondHalf, Owed, States, State, PassedAt, BiasChange,
      Negated, Rerun, Monotone, JointDataAgree, Numbers, TermAsRerun, AtRest, AcceleratedAs, WithForce;
    ghost var t, n := body.tree, Numbers(body.linksData);
    body.DataOf(0);
    RestingTerms(body, z);
    CalcABMForceElementsWithTestForce(body, body.traverse[start], f, tau, z, start);
    assert Numbers(body.linksData) == n;
    forall j | 0 < j < |z|
      ensures TermAsRerun(body.linksData[j], t, z, WithForce(z, start, Spatial(f, tau)), j)
    {
      TermAfterWalk(body.linksData[j], t, z, n, start, Spatial(f, tau), j);
    }
    RootOfRerun(t, z, start, Spatial(f, tau), Bias0(body.linksData[0]), body.Delta(), solve);
    PassAsRerun(body, WithForce(z, start, Spatial(f, tau)), solve, z);
    RestsAgain(body, z);
  }

  /** The two opposite test forces of a pair of links of one body: both walks first, then one pass.
      The result is that of a complete rerun with both forces. */
  method ApplyTestForcePair(body: BodyData, i: int, f: Vec3, tau: Vec3, k: int, g: Vec3, sigma: Vec3,
                            solve: (Inertia, Spatial) -> Spatial, ghost z: seq<LinkState>)
    requires body.Valid() && z == States(body.traverse) && Fits(body.tree, z)
    requires 0 <= i < |body.traverse| && 0 <= k < |body.traverse|
    requires forall j | 0 < j < |z| && z[j].Moving() :: z[j].dd != 0.0
    requires Monotone(body.tree, Numbers(body.linksData)) && Reached(body.linksData[i]) && Reached(body.linksData[k])
    requires AtRest(body, z)
    modifies body`dpf, body`dptau
    modifies body.linksData`ddq, body.linksData`dvo, body.linksData`dw, body.linksData`uu
    ensures AtRest(body, z)
    ensures AcceleratedAs(body, WithForce(WithForce(z, i, Spatial(f, tau)), k, Spatial(g, sigma)), solve)
  {
    hide BodyData.Aligned, Represents, Shape.Valid, Plus, SecondHalf, Owed, States, State, PassedAt, BiasChange,
      Negated, Rerun, Monotone, JointDataAgree, Numbers, TermAsRerun, AtRest, AcceleratedAs, WithForce;
    ghost var t, n := body.tree, Numbers(body.linksData);
    ghost var x := WithForce(WithForce(z, i, Spatial(f, tau)), k, Spatial(g, sigma));
    body.DataOf(0);
    RestingTerms(body, z);
    WalkTwice(body, i, f, tau, k, g, sigma, z);
    assert Numbers(body.linksData) == n;
    forall j | 0 < j < |z|
      ensures TermAsRerun(body.linksData[j], t, z, x, j)
    {
      TermAfterWalks(body.linksData[j], t, z, n, i, Spatial(f, tau), k, Spatial(g, sigma), j);
    }
    RootOfBoth(t, z, i, Spatial(f, tau), k, Spatial(g, sigma), Bias0(body.linksData[0]), body.Delta(), solve);
    PassAsRerun(body, x, solve, z);
    RestsAgain(body, z);
  }

  /** The walks for two forces, one after the other. */
  method WalkTwice(body: BodyData, i: int, f: Vec3, tau: Vec3, k: int, g: Vec3, sigma: Vec3, ghost z: seq<LinkState>)
    requires body.Valid() && z == States(body.traverse) && Fits(body.tree, z)
    requires 0 <= i < |body.traverse| && 0 <= k < |body.traverse| && |body.linksData| == |z|
    requires forall j | 0 < j < |z| && z[j].Moving() :: z[j].dd != 0.0
    modifies body`dpf, body`dptau, body.linksData`uu
    ensures forall j | 0 < j < |z| ::
              body.linksData[j].uu == old(body.linksData[j].uu)
                + Owed(body.tree, z, i, Spatial(f, tau), j) + Owed(body.tree, z, k, Spatial(g, sigma), j)
    ensures body.Delta() == Plus(Plus(old(body.Delta()), BiasChange(body.tree, z, i, Negated(Spatial(f, tau)), 0)),
                                 BiasChange(body.tree, z, k, Negated(Spatial(g, sigma)), 0))
  {
    hide BodyData.Valid, BodyData.Aligned, Shape.Valid, Plus, Owed, States, State, BiasChange, Negated;
    CalcABMForceElementsWithTestForce(body, body.traverse[i], f, tau, z, i);
    ghost var u1 := Uus(body.linksData);
    assert forall j | 0 < j < |z| :: u1[j] == old(body.linksData[j].uu) + Owed(body.tree, z, i, Spatial(f, tau), j);
    CalcABMForceElementsWithTestForce(body, body.traverse[k], g, sigma, z, k);
  }

  /** The root and every link that is not left out accelerate as after a rerun from x. */
  ghost predicate AcceleratedAs(body: BodyData, x: seq<LinkState>, solve: (Inertia, Spatial) -> Spatial)
    requires Fits(body.tree, x) && |body.linksData| == |x|
    reads body.linksData
  {
    var y := Rerun(body.tree, x);
    var a0 := RootAcceleration(y[0], solve);
    && AccelerationOf(body.linksData[0]) == a0
    && (forall j | 0 < j < |y| && Reached(body.linksData[j]) :: PassedAt(body.linksData[j], body.tree, y, a0, j))
  }

  /** The joint term of link j is that of the rerun from x, and can be restored to that of z. */
  ghost predicate TermAsRerun(data: LinkData, t: Shape, z: seq<LinkState>, x: seq<LinkState>, j: int)
    requires Fits(t, z) && Fits(t, x) && 0 < j < |z|
    reads data`uu, data`uu0, data`numberToCheckAccelCalcSkip
  {
    && JointDataAgree(z[j].(uu := data.uu), SecondHalf(t, x, j))
    && (z[j].Moving() ==> data.uu0 == SecondHalf(t, z, j).uu)
    && (z[j].Moving() && !Reached(data) ==> data.uu == data.uu0)
  }

  /** The pass after the walks. */
  method PassAsRerun(body: BodyData, ghost x: seq<LinkState>, solve: (Inertia, Spatial) -> Spatial,
                     ghost z: seq<LinkState>)
    requires body.Valid() && z == States(body.traverse) && Fits(body.tree, z) && Fits(body.tree, x)
    requires 0 < |z| == |x| == |body.linksData|
    requires forall j | 0 < j < |z| && z[j].Moving() :: z[j].dd != 0.0
    requires Monotone(body.tree, Numbers(body.linksData))
    requires forall j | 0 < j < |z| :: TermAsRerun(body.linksData[j], body.tree, z, x, j)
    requires RootAcceleration(z[0].(bias := Plus(Bias0(body.linksData[0]), body.Delta())), solve)
          == RootAcceleration(Rerun(body.tree, x)[0], solve)
    modifies body`dpf, body`dptau
    modifies body.linksData`ddq, body.linksData`dvo, body.linksData`dw, body.linksData`uu
    ensures body.Delta() == ZERO6 && AcceleratedAs(body, x, solve)
    ensures forall j | 0 < j < |z| && z[j].Moving() :: body.linksData[j].uu == SecondHalf(body.tree, z, j).uu
  {
    hide BodyData.Valid, BodyData.Aligned, Shape.Valid, Plus, Outbound, SecondHalf, States, State, PassedAt,
      JointDataAgree, Numbers;
    ghost var t, n, u1 := body.tree, Numbers(body.linksData), Uus(body.linksData);
    ghost var y, a0 := Rerun(t, x), RootAcceleration(Rerun(t, x)[0], solve);
    assert forall j | 0 < j < |z| :: JointDataAgree(z[j].(uu := u1[j]), y[j]);
    CalcAccelsABM(body, solve, z);
    assert Numbers(body.linksData) == n;
    forall j | 0 < j < |z|
      ensures Reached(body.linksData[j]) ==> PassedAt(body.linksData[j], t, y, a0, j)
      ensures z[j].Moving() ==> body.linksData[j].uu == SecondHalf(t, z, j).uu
    {
      if Reached(body.linksData[j]) {
        PassedAsRerun(body.linksData[j], t, WithTerms(z, u1), y, a0, j);
        PassedRestores(body.linksData[j], t, y, a0, j);
      }
    }
  }

  /** What rest says of the joint terms. */
  lemma RestingTerms(body: BodyData, z: seq<LinkState>)
    requires Fits(body.tree, z) && |body.linksData| == |z| && AtRest(body, z)
    ensures forall j | 0 <= j < |z| :: Bias0(body.linksData[j]) == SecondHalf(body.tree, z, j).bias
    ensures forall j | 0 < j < |z| && z[j].Moving() ::
      body.linksData[j].uu == body.linksData[j].uu0 == SecondHalf(body.tree, z, j).uu
    ensures body.Delta() == ZERO6
  {
    hide SecondHalf;
    forall j | 0 <= j < |z| ensures SecondHalf(body.tree, z, j).joint == z[j].joint {
      SameJoint(body.tree, z, j);
    }
    forall j | 0 <= j < |z| ensures Bias0(body.linksData[j]) == SecondHalf(body.tree, z, j).bias {
      assert Initialized(body.linksData[j], SecondHalf(body.tree, z, j), j);
    }
  }

  /** A link that was reached passes as the rerun would have it. */
  lemma PassedAsRerun(data: LinkData, t: Shape, x: seq<LinkState>, y: seq<LinkState>, a0: Spatial, j: int)
    requires Fits(t, x) && Fits(t, y) && 0 < j < |x| && PassedAt(data, t, x, a0, j)
    requires forall k | 0 < k < |x| :: JointDataAgree(x[k], y[k])
    ensures PassedAt(data, t, y, a0, j)
  {
    hide Outbound, JointAcceleration;
    SameOutbound(t, x, y, a0, j);
  }

  lemma PassedRestores(data: LinkData, t: Shape, y: seq<LinkState>, a0: Spatial, j: int)
    requires Fits(t, y) && 0 < j < |y| && PassedAt(data, t, y, a0, j)
    ensures data.uu == data.uu0
  {}

  lemma SameJoint(t: Shape, z: seq<LinkState>, j: int)
    requires Fits(t, z) && t.IsLink(j)
    ensures SecondHalf(t, z, j).joint == z[j].joint
  {
    hide Plus, Minus, Inner;
  }

  /** The root equations after one walk are those of the rerun. */
  lemma RootOfRerun(t: Shape, z: seq<LinkState>, start: int, f: Spatial, bias: Spatial, delta: Spatial,
                    solve: (Inertia, Spatial) -> Spatial)
    requires Fits(t, z) && t.IsLink(start) && bias == SecondHalf(t, z, 0).bias
    requires delta == Plus(ZERO6, BiasChange(t, z, start, Negated(f), 0))
    ensures RootAcceleration(z[0].(bias := Plus(bias, delta)), solve)
         == RootAcceleration(Rerun(t, WithForce(z, start, f))[0], solve)
  {
    hide Plus, Inner, BiasChange;
    PlusNothing(BiasChange(t, z, start, Negated(f), 0));
    WalkMatchesRerun(t, z, start, f, 0);
    assert ChangedAt(t, z, start, f, 0);
  }

  /** The root equations after two walks are those of the rerun with both forces. */
  lemma RootOfBoth(t: Shape, z: seq<LinkState>, i: int, f: Spatial, k: int, g: Spatial, bias: Spatial, delta: Spatial,
                   solve: (Inertia, Spatial) -> Spatial)
    requires Fits(t, z) && t.IsLink(i) && t.IsLink(k) && bias == SecondHalf(t, z, 0).bias
    requires delta == Plus(Plus(ZERO6, BiasChange(t, z, i, Negated(f), 0)), BiasChange(t, z, k, Negated(g), 0))
    ensures RootAcceleration(z[0].(bias := Plus(bias, delta)), solve)
         == RootAcceleration(Rerun(t, WithForce(WithForce(z, i, f), k, g))[0], solve)
  {
    hide Plus, Inner, BiasChange, Negated;
    var d, e := BiasChange(t, z, i, Negated(f), 0), BiasChange(t, z, k, Negated(g), 0);
    PlusNothing(d);
    PlusAssociative(bias, d, e);
    ForcesSuperpose(t, z, i, f, k, g, 0);
    WalkMatchesRerun(t, z, i, f, 0);
    WalkMatchesRerun(t, WithForce(z, i, f), k, g, 0);
    assert ChangedAt(t, z, i, f, 0);
    assert ChangedAt(t, WithForce(z, i, f), k, g, 0);
  }
}
