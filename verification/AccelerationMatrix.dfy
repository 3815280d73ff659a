/** How the constraint solver measures the matrix of the contact problem: test forces on the two ends
    of a row, and the relative accelerations they add at every row. */
module AccelerationMatrix {
  import opened LinearAlgebra
  import opened Links
  import opened ArticulatedBody
  import opened SplitPasses
  import opened PositiveInertia
  import opened ForwardDynamicsABM
  import opened RigidLinks
  import opened Sums
  import opened SingularRows
  import opened TestForce
  import opened ConstraintForces
  import opened SkipNumbers
  import opened SkippingPass
  import opened Reciprocity
  import opened ConstraintMatrix

  /** A body's links before the first half of the inbound pass, after it, and before it with the forces
      and torques that are supplied since; and their velocities. */
  datatype Snapshot = Snapshot(w: seq<LinkState>, z: seq<LinkState>, x: seq<LinkState>, vel: seq<Spatial>)

  ghost predicate Taken(t: Shape, s: Snapshot) {
    && Fits(t, s.w) && Fits(t, s.z) && Fits(t, s.x)
    && Resupplied(t, s.w, s.z, s.x) && Prepared(t, s.x) && Regular(t, s.x)
  }

  /** The six equations of a free root are solved exactly, whatever the bias. */
  ghost predicate RootSolvable(t: Shape, x: seq<LinkState>, solve: (Inertia, Spatial) -> Spatial)
    requires Fits(t, x)
  {
    var i := Inbound(t, x, 0).inertia;
    x[0].joint == FREE_JOINT ==> forall b {:trigger solve(i, b)} :: Apply(i, solve(i, b)) == b
  }

  /** Bodies of positive inertias are as they must be, with a solver that is exact for such inertias. */
  lemma MassiveIsTaken(t: Shape, s: Snapshot, solve: (Inertia, Spatial) -> Spatial)
    requires Fits(t, s.w) && Fits(t, s.z) && Fits(t, s.x) && Resupplied(t, s.w, s.z, s.x) && Massive(t, s.x)
    requires forall i, b | Symmetric(i) && Positive(i) :: Apply(i, solve(i, b)) == b
    ensures Taken(t, s) && RootSolvable(t, s.x, solve)
  {
    hide Positive, Symmetric, Apply, Inbound;
    MassiveIsRegular(t, s.x);
    ArticulatedPositive(t, s.x, 0);
    InboundSymmetric(t, s.x, 0);
  }

  /** The rerun with added forces is the whole inbound pass with added forces, and divides by no zero. */
  lemma RerunIsInbound(t: Shape, s: Snapshot, f: seq<Spatial>)
    requires Taken(t, s) && |f| == |s.x|
    ensures Fits(t, WithForces(s.z, f)) && Fits(t, WithForces(s.x, f))
    ensures Rerun(t, WithForces(s.z, f)) == InboundAll(t, WithForces(s.x, f))
    ensures Regular(t, WithForces(s.x, f))
    ensures forall j | 0 < j < |s.z| && s.z[j].Moving() :: s.z[j].dd != 0.0
  {
    hide Plus, FirstHalf, Inbound, SecondHalf, Symmetric;
    var z', x' := WithForces(s.z, f), WithForces(s.x, f);
    assert Resupplied(t, s.w, z', x');
    SameRegular(t, s.x, f);
    forall j | 0 <= j < |s.x|
      ensures SecondHalf(t, z', j) == Inbound(t, x', j)
      ensures j > 0 && s.z[j].Moving() ==> s.z[j].dd == Inbound(t, x', j).dd && s.x[j].Moving()
    {
      HalvesAgree(t, s.w, z', x', j);
      KeptFields(t, z', x', j);
    }
  }

  lemma KeptFields(t: Shape, z: seq<LinkState>, x: seq<LinkState>, j: int)
    requires Fits(t, z) && Fits(t, x) && t.IsLink(j)
    ensures SecondHalf(t, z, j).dd == z[j].dd && SecondHalf(t, z, j).joint == z[j].joint
    ensures Inbound(t, x, j).joint == x[j].joint
  {
    hide Plus, Minus, Inner, Apply, ChildInertias, ChildBiases, SecondHalfBiases;
  }

  lemma RootSolved(t: Shape, x: seq<LinkState>, f: seq<Spatial>, solve: (Inertia, Spatial) -> Spatial)
    requires Fits(t, x) && |f| == |x| && RootSolvable(t, x, solve)
    ensures RootMoves(t, x, RootAcceleration(Inbound(t, x, 0), solve))
    ensures RootMoves(t, WithForces(x, f), RootAcceleration(Inbound(t, WithForces(x, f), 0), solve))
  {
    hide Apply, ChildInertias, ChildBiases, Plus;
    SameInertia(t, x, f, 0);
  }

  /** Root acceleration without test forces, and with test forces f. */
  ghost function RootUnder(t: Shape, x: seq<LinkState>, solve: (Inertia, Spatial) -> Spatial): Spatial
    requires Fits(t, x)
  {
    RootAcceleration(Inbound(t, x, 0), solve)
  }

  /** The motion that test forces f add to a body. */
  ghost function Added(t: Shape, x: seq<LinkState>, f: seq<Spatial>, solve: (Inertia, Spatial) -> Spatial): (m: Motion)
    requires Fits(t, x) && |f| == |x|
    ensures |m.a| == |m.ddq| == |x|
  {
    AddedMotion(t, x, f, RootUnder(t, x, solve), RootUnder(t, WithForces(x, f), solve))
  }

  lemma AddedResponds(t: Shape, x: seq<LinkState>, f: seq<Spatial>, solve: (Inertia, Spatial) -> Spatial)
    requires Fits(t, x) && |f| == |x| && Prepared(t, x) && Regular(t, x) && RootSolvable(t, x, solve)
    ensures Responds(t, x, f, Added(t, x, f, solve))
  {
    hide Prepared, RootMoves, Responds, Regular, RootSolvable;
    RootSolved(t, x, f, solve);
    AddedForcesRespond(t, x, f, RootUnder(t, x, solve), RootUnder(t, WithForces(x, f), solve));
  }

  /** Acceleration of link j without test forces. */
  ghost function Before(t: Shape, x: seq<LinkState>, solve: (Inertia, Spatial) -> Spatial, j: int): Spatial
    requires Fits(t, x) && t.IsLink(j)
  {
    Accelerations(t, x, RootUnder(t, x, solve))[j]
  }

  /** What the pass leaves in the data of a link that is not left out, after test forces f. */
  lemma MeasuredAt(body: BodyData, s: Snapshot, f: seq<Spatial>, solve: (Inertia, Spatial) -> Spatial, j: int)
    requires Taken(body.tree, s) && |f| == |s.x| == |body.linksData| && 0 <= j < |s.x|
    requires Fits(body.tree, WithForces(s.z, f)) && AcceleratedAs(body, WithForces(s.z, f), solve)
    requires j == 0 || Reached(body.linksData[j])
    ensures AccelerationOf(body.linksData[j])
         == Plus(Before(body.tree, s.x, solve, j), Added(body.tree, s.x, f, solve).a[j])
  {
    hide Outbound, Inbound, Reached, Taken, Rerun, Plus, Minus;
    var t := body.tree;
    RerunIsInbound(t, s, f);
    var a0 := RootUnder(t, WithForces(s.x, f), solve);
    assert j > 0 ==> PassedAt(body.linksData[j], t, Rerun(t, WithForces(s.z, f)), a0, j);
    RootOutbound(t, Rerun(t, WithForces(s.z, f)), a0);
    PlusMinus(Before(t, s.x, solve, j), AccelerationOf(body.linksData[j]));
  }

  // ---- reading off relative accelerations ----

  /** The acceleration of the point of a link that is at p. */
  function PointAccel(acc: Spatial, w: Vec3, vo: Vec3, p: Vec3): Vec3 {
    Add(Sub(acc.v, Cross(p, acc.w)), Cross(w, Add(vo, Cross(w, p))))
  }

  /** What an added acceleration adds at a point, along a direction. */
  lemma PointAccelChange(n: Vec3, a: Spatial, d: Spatial, w: Vec3, vo: Vec3, p: Vec3)
    ensures Dot(n, PointAccel(Plus(a, d), w, vo, p)) == Dot(n, PointAccel(a, w, vo, p)) + Inner(Wrench(p, n), d)
  {
    hide Dot, Cross, Product;
    var c := Cross(w, Add(vo, Cross(w, p)));
    CrossAdd(p, a.w, d.w);
    DotAdd(n, Sub(Add(a.v, d.v), Cross(p, Add(a.w, d.w))), c);
    DotAdd(n, Sub(a.v, Cross(p, a.w)), c);
    DotSub(n, Add(a.v, d.v), Cross(p, Add(a.w, d.w)));
    DotSub(n, a.v, Cross(p, a.w));
    DotAdd(n, a.v, d.v);
    DotAdd(n, Cross(p, a.w), Cross(p, d.w));
    DotCrossSlides(n, p, d.w);
    CrossTurns(n, p);
    NegDot(Cross(p, n), d.w);
  }

  /** What the pass leaves in the data of a link that is not left out, without test forces. */
  lemma MeasuredBefore(body: BodyData, s: Snapshot, solve: (Inertia, Spatial) -> Spatial, j: int)
    requires Taken(body.tree, s) && |s.x| == |body.linksData| && 0 <= j < |s.x|
    requires AcceleratedAs(body, s.z, solve)
    requires j == 0 || Reached(body.linksData[j])
    ensures AccelerationOf(body.linksData[j]) == Before(body.tree, s.x, solve, j)
  {
    hide Outbound, Inbound, Reached, Prepared, Regular, Resupplied, Rerun, Plus, Minus;
    var t := body.tree;
    var none := seq(|s.x|, i => ZERO6);
    NoForces(s.z, none);
    NoForces(s.x, none);
    RerunIsInbound(t, s, none);
    var a0 := RootUnder(t, s.x, solve);
    assert j > 0 ==> PassedAt(body.linksData[j], t, Rerun(t, s.z), a0, j);
    RootOutbound(t, Rerun(t, s.z), a0);
  }

  lemma NoForces(x: seq<LinkState>, none: seq<Spatial>)
    requires |none| == |x| && forall i | 0 <= i < |x| :: none[i] == ZERO6
    ensures WithForces(x, none) == x
  {
    forall i | 0 <= i < |x| ensures WithForces(x, none)[i] == x[i] {
      PlusNothing(x[i].ext);
    }
  }

  /** The relative acceleration that the force being tested adds at a constraint point, in one direction.
      A body that no force is tested on accelerates as by default. */
  method ExtractRelAccel(r: Row, body0: BodyData, body1: BodyData, defaultAccel: DefaultAccel, a: real,
                         ghost before0: Spatial, ghost before1: Spatial, ghost change0: Spatial, ghost change1: Spatial)
    returns (k: real)
    requires r.end0.link < |body0.linksData| && r.end1.link < |body1.linksData|
    requires a == Dot(r.dir, Sub(defaultAccel.on1, defaultAccel.on0))
    requires AcceleratesBy(body0, body0.linksData[r.end0.link], r.point, defaultAccel.on0, before0, change0)
    requires AcceleratesBy(body1, body1.linksData[r.end1.link], r.point, defaultAccel.on1, before1, change1)
    ensures k == Inner(r.Push0(), change0) + Inner(r.Push1(), change1)
  {
    hide Inner, Dot, PointAccel, Plus, Wrench, Sub, Neg;
    var data0, data1 := body0.linksData[r.end0.link], body1.linksData[r.end1.link];
    var link0, link1 := data0.link, data1.link;
    NegDot(r.dir, Sub(defaultAccel.on1, defaultAccel.on0));
    if body0.isTestForceBeingApplied {
      var dv0 := PointAccel(Spatial(data0.dvo, data0.dw), link0.w, link0.vo, r.point);
      PointAccelChange(r.dir, before0, change0, link0.w, link0.vo, r.point);
      if body1.isTestForceBeingApplied {
        var dv1 := PointAccel(Spatial(data1.dvo, data1.dw), link1.w, link1.vo, r.point);
        PointAccelChange(r.dir, before1, change1, link1.w, link1.vo, r.point);
        k := Dot(r.dir, Sub(dv1, dv0)) - a;
        DotSub(r.dir, dv1, dv0);
      } else {
        k := Dot(r.dir, Sub(defaultAccel.on1, dv0)) - a;
        DotSub(r.dir, defaultAccel.on1, dv0);
        InnerZero(r.Push1());
      }
    } else if body1.isTestForceBeingApplied {
      var dv1 := PointAccel(Spatial(data1.dvo, data1.dw), link1.w, link1.vo, r.point);
      PointAccelChange(r.dir, before1, change1, link1.w, link1.vo, r.point);
      k := Dot(Neg(r.dir), Sub(defaultAccel.on0, dv1)) - a;
      NegDot(r.dir, Sub(defaultAccel.on0, dv1));
      DotSub(r.dir, defaultAccel.on0, dv1);
      InnerZero(r.Push0());
    } else {
      k := 0.0;
      InnerZero(r.Push0());
      InnerZero(r.Push1());
    }
    DotSub(r.dir, defaultAccel.on1, defaultAccel.on0);
    PushBack(r, change0);
  }

  /** The two ends are pushed oppositely. */
  lemma PushBack(r: Row, d: Spatial)
    ensures Inner(r.Push0(), d) == -Inner(Wrench(r.point, r.dir), d)
  {
    hide Dot, Cross, Product;
    CrossNeg(r.point, r.dir);
    NegDot(r.dir, d.v);
    NegDot(Cross(r.point, r.dir), d.w);
  }

  /** The default accelerations of a constraint point, on the links of its two ends. */
  datatype DefaultAccel = DefaultAccel(on0: Vec3, on1: Vec3)

  /** The data of a link hold its acceleration `before`, at which the point accelerates as by default, and
      the change that the force being tested makes; untested bodies do not change. */
  ghost predicate AcceleratesBy(body: BodyData, data: LinkData, p: Vec3, def: Vec3, before: Spatial, change: Spatial)
    reads body`isTestForceBeingApplied, data`dvo, data`dw, data.link`w, data.link`vo
  {
    if body.isTestForceBeingApplied then
      AccelerationOf(data) == Plus(before, change) && def == PointAccel(before, data.link.w, data.link.vo, p)
    else change == ZERO6
  }

  // ---- all bodies ----

  /** A direction of a constraint point and its place in the matrix. */
  datatype Direction = Direction(row: Row, index: int)

  ghost predicate BodyFits(body: BodyData, s: Snapshot)
    reads body.traverse
  {
    && body.Valid() && Fits(body.tree, s.x) && |body.linksData| == |s.x|
    && (if body.isStatic then Anchored(body.tree, s.x)
        else s.z == States(body.traverse) && Taken(body.tree, s) && AtVelocities(body.traverse, s.vel))
  }

  /** The links move at the given velocities. */
  ghost predicate AtVelocities(links: seq<Link>, vel: seq<Spatial>)
    reads links`vo, links`w
  {
    |vel| == |links| && forall j | 0 <= j < |links| :: VelocityOf(links[j]) == vel[j]
  }

  /** The body takes part in the contact problem and can move. */
  ghost predicate Active(body: BodyData)
    reads body`hasConstrainedLinks
  {
    body.hasConstrainedLinks && !body.isStatic
  }

  ghost function LinksOfAll(bodies: seq<BodyData>): (r: set<Link>)
    ensures forall b, l | b in bodies && l in b.traverse :: l in r
  {
    set b, l | b in bodies && l in b.traverse :: l
  }

  ghost predicate World(bodies: seq<BodyData>, s: seq<Snapshot>)
    reads LinksOfAll(bodies)
  {
    && |bodies| == |s| && Separate(bodies)
    && (forall i, j | 0 <= i < j < |bodies| :: bodies[i] != bodies[j])
    && (forall b | 0 <= b < |bodies| :: BodyFits(bodies[b], s[b]))
  }

  /** The root equations of every body that can move are solved exactly. */
  ghost predicate Exact(bodies: seq<BodyData>, s: seq<Snapshot>, solve: (Inertia, Spatial) -> Spatial)
  {
    forall b | 0 <= b < |bodies| && b < |s| && !bodies[b].isStatic ::
      Fits(bodies[b].tree, s[b].x) && RootSolvable(bodies[b].tree, s[b].x, solve)
  }

  /** Between test forces, with skip numbers that grow outward. */
  ghost predicate Resting(body: BodyData, s: Snapshot)
    reads body`dpf, body`dptau, body.linksData
  {
    && Fits(body.tree, s.z) && |body.linksData| == |s.z|
    && AtRest(body, s.z) && Monotone(body.tree, Numbers(body.linksData))
  }

  /** The root and every link that is not left out accelerate as with the forces of row r. */
  ghost predicate Tested(body: BodyData, s: Snapshot, r: Row, b: nat, solve: (Inertia, Spatial) -> Spatial)
    reads body.linksData
  {
    && Fits(body.tree, s.z) && |body.linksData| == |s.z|
    && AcceleratedAs(body, WithForces(s.z, LoadOn(r, b, |s.z|)), solve)
  }

  /** The end is a link that some constraint acts on. */
  ghost predicate EndReached(body: BodyData, e: End)
    reads body.linksData`numberToCheckAccelCalcSkip
  {
    e.link < |body.linksData| && (body.isStatic || Reached(body.linksData[e.link]))
  }

  /** The force of row r on a body that only one of its ends lies on. */
  method TestOneEnd(body: BodyData, e: End, point: Vec3, dir: Vec3, solve: (Inertia, Spatial) -> Spatial,
                    ghost s: Snapshot, ghost r: Row)
    requires BodyFits(body, s) && !body.isStatic && Resting(body, s) && EndReached(body, e)
    requires r.point == point && r.end0.body != r.end1.body
    requires (e == r.end0 && dir == Neg(r.dir)) || (e == r.end1 && dir == r.dir)
    modifies body`dpf, body`dptau, body`isTestForceBeingApplied
    modifies body.linksData`ddq, body.linksData`dvo, body.linksData`dw, body.linksData`uu
    ensures body.isTestForceBeingApplied && Resting(body, s) && Tested(body, s, r, e.body, solve)
  {
    hide Represents, BodyData.Aligned, Taken, AtRest, Monotone, Reached, AcceleratedAs, LoadOn, States, Shape.Valid;
    NoZeroDivisor(body, s);
    OneEndLoad(s.z, r, e, Spatial(dir, Cross(point, dir)));
    body.isTestForceBeingApplied := true;
    ghost var n := Numbers(body.linksData);
    ApplyTestForce(body, e.link, dir, Cross(point, dir), solve, s.z);
    assert Numbers(body.linksData) == n;
  }

  /** The forces of row r on a body that both its ends lie on. */
  method TestBothEnds(body: BodyData, r: Row, solve: (Inertia, Spatial) -> Spatial, ghost s: Snapshot)
    requires BodyFits(body, s) && !body.isStatic && Resting(body, s) && EndReached(body, r.end0)
    requires EndReached(body, r.end1)
    requires r.end0.body == r.end1.body
    modifies body`dpf, body`dptau, body`isTestForceBeingApplied
    modifies body.linksData`ddq, body.linksData`dvo, body.linksData`dw, body.linksData`uu
    ensures body.isTestForceBeingApplied && Resting(body, s) && Tested(body, s, r, r.end0.body, solve)
  {
    hide Represents, BodyData.Aligned, Taken, AtRest, Monotone, Reached, AcceleratedAs, LoadOn, States, Shape.Valid;
    NoZeroDivisor(body, s);
    BothEndsLoad(s.z, r);
    body.isTestForceBeingApplied := true;
    ghost var n := Numbers(body.linksData);
    ApplyTestForcePair(body, r.end0.link, Neg(r.dir), Cross(r.point, Neg(r.dir)),
                       r.end1.link, r.dir, Cross(r.point, r.dir), solve, s.z);
    assert Numbers(body.linksData) == n;
  }

  lemma NoZeroDivisor(body: BodyData, s: Snapshot)
    requires BodyFits(body, s) && !body.isStatic
    ensures Fits(body.tree, s.z) && forall j | 0 < j < |s.z| && s.z[j].Moving() :: s.z[j].dd != 0.0
  {
    hide Represents, BodyData.Aligned, Massive, Resupplied, States;
    RerunIsInbound(body.tree, s, seq(|s.x|, i => ZERO6));
  }

  lemma OneEndLoad(z: seq<LinkState>, r: Row, e: End, f: Spatial)
    requires r.end0.body != r.end1.body && e.link < |z|
    requires (e == r.end0 && f == r.Push0()) || (e == r.end1 && f == r.Push1())
    ensures WithForces(z, LoadOn(r, e.body, |z|)) == WithForce(z, e.link, f)
  {
    hide Plus, Wrench, Neg;
    forall j | 0 <= j < |z|
      ensures WithForces(z, LoadOn(r, e.body, |z|))[j] == WithForce(z, e.link, f)[j]
    {
      PlusNothing(f);
      PlusNothing(ZERO6);
      PlusNothing(z[j].ext);
    }
  }

  lemma BothEndsLoad(z: seq<LinkState>, r: Row)
    requires r.end0.body == r.end1.body && r.end0.link < |z| && r.end1.link < |z|
    ensures WithForces(z, LoadOn(r, r.end0.body, |z|))
         == WithForce(WithForce(z, r.end0.link, r.Push0()), r.end1.link, r.Push1())
  {
    hide Plus, Wrench, Neg;
    forall j | 0 <= j < |z|
      ensures WithForces(z, LoadOn(r, r.end0.body, |z|))[j]
           == WithForce(WithForce(z, r.end0.link, r.Push0()), r.end1.link, r.Push1())[j]
    {
      PlusNothing(r.Push0());
      PlusNothing(r.Push1());
      PlusNothing(ZERO6);
      PlusNothing(z[j].ext);
      PlusAssociative(z[j].ext, r.Push0(), r.Push1());
    }
  }

  // ---- one row ----

  ghost predicate AllRest(bodies: seq<BodyData>, s: seq<Snapshot>)
    reads bodies`hasConstrainedLinks, bodies`dpf, bodies`dptau, DataOfAll(bodies)
  {
    |bodies| == |s| && forall b | 0 <= b < |bodies| && Active(bodies[b]) :: Resting(bodies[b], s[b])
  }

  ghost predicate RowReached(bodies: seq<BodyData>, r: Row)
    reads bodies`hasConstrainedLinks, DataOfAll(bodies)`numberToCheckAccelCalcSkip
  {
    && r.end0.body < |bodies| && bodies[r.end0.body].hasConstrainedLinks && EndReached(bodies[r.end0.body], r.end0)
    && r.end1.body < |bodies| && bodies[r.end1.body].hasConstrainedLinks && EndReached(bodies[r.end1.body], r.end1)
  }

  predicate On(r: Row, b: nat) { b == r.end0.body || b == r.end1.body }

  /** The flagged bodies are the moving ones that row r acts on, and they accelerate under its force. */
  ghost predicate AllTested(bodies: seq<BodyData>, s: seq<Snapshot>, r: Row, solve: (Inertia, Spatial) -> Spatial)
    reads bodies`isTestForceBeingApplied, DataOfAll(bodies)
  {
    && |bodies| == |s|
    && (forall b | 0 <= b < |bodies| :: bodies[b].isTestForceBeingApplied <==> !bodies[b].isStatic && On(r, b))
    && (forall b | 0 <= b < |bodies| && bodies[b].isTestForceBeingApplied :: Tested(bodies[b], s[b], r, b, solve))
  }

  /** Distinct bodies have nothing in common. */
  lemma BodiesApart(bodies: seq<BodyData>, s: seq<Snapshot>, b: nat)
    requires World(bodies, s) && b < |bodies|
    ensures |bodies| == |s| && BodyFits(bodies[b], s[b])
    ensures forall c | 0 <= c < |bodies| && c != b :: bodies[c] != bodies[b]
    ensures forall c, k | 0 <= c < |bodies| && c != b && 0 <= k < |bodies[c].linksData| ::
              bodies[c].linksData[k] !in bodies[b].linksData
    ensures forall d | d in bodies[b].linksData :: d in DataOfAll(bodies)
  {
    hide BodyFits;
  }

  /** The test force of one row on the body of one of its ends. */
  method TestEndAmong(bodies: seq<BodyData>, body: BodyData, e: End, dir: Vec3, r: Row,
                      solve: (Inertia, Spatial) -> Spatial,
                      ghost s: seq<Snapshot>)
    requires World(bodies, s) && AllRest(bodies, s) && e.body < |bodies| && body == bodies[e.body]
    requires r.end0.body != r.end1.body
    requires Active(body) && EndReached(body, e)
    requires (e == r.end0 && dir == Neg(r.dir)) || (e == r.end1 && dir == r.dir)
    modifies body`dpf, body`dptau, body`isTestForceBeingApplied
    modifies body.linksData`ddq, body.linksData`dvo, body.linksData`dw, body.linksData`uu
    ensures AllRest(bodies, s)
    ensures body.isTestForceBeingApplied && Tested(body, s[e.body], r, e.body, solve)
  {
    hide World, BodyFits, Resting, Tested, Separate, EndReached;
    BodiesApart(bodies, s, e.body);
    assert Resting(body, s[e.body]);
    TestOneEnd(body, e, r.point, dir, solve, s[e.body], r);
    forall c | 0 <= c < |bodies| && Active(bodies[c])
      ensures Resting(bodies[c], s[c])
    {
      assert c == e.body || old(Resting(bodies[c], s[c]));
    }
  }

  /** The test force of one row, on the bodies of both its ends. */
  method ApplyRow(bodies: seq<BodyData>, r: Row, solve: (Inertia, Spatial) -> Spatial, ghost s: seq<Snapshot>)
    requires World(bodies, s) && AllRest(bodies, s) && RowReached(bodies, r)
    requires forall b | 0 <= b < |bodies| :: !bodies[b].isTestForceBeingApplied
    modifies bodies`dpf, bodies`dptau, bodies`isTestForceBeingApplied
    modifies DataOfAll(bodies)`ddq, DataOfAll(bodies)`dvo, DataOfAll(bodies)`dw, DataOfAll(bodies)`uu
    ensures AllRest(bodies, s) && AllTested(bodies, s, r, solve)
  {
    hide BodyFits, Resting, Tested, Separate, EndReached;
    var i, j := r.end0.body, r.end1.body;
    var body0, body1 := bodies[i], bodies[j];
    BodiesApart(bodies, s, i);
    BodiesApart(bodies, s, j);
    if i == j {
      if !body0.isStatic {
        TestBothEnds(body0, r, solve, s[i]);
      }
    } else {
      if !body0.isStatic {
        TestEndAmong(bodies, body0, r.end0, Neg(r.dir), r, solve, s);
      }
      assert !body0.isStatic ==> Tested(body0, s[i], r, i, solve);
      label between:
      if !body1.isStatic {
        assert EndReached(body1, r.end1);
        TestEndAmong(bodies, body1, r.end1, r.dir, r, solve, s);
        assert !body0.isStatic ==> Tested(body0, s[i], r, i, solve);
      }
    }
  }

  // ---- the motion that a row's force adds, and reading it off ----

  ghost predicate Shaped(bodies: seq<BodyData>, s: seq<Snapshot>) {
    |bodies| == |s| && forall b | 0 <= b < |bodies| :: Fits(bodies[b].tree, s[b].x)
  }

  function Still(n: nat): (m: Motion)
    ensures |m.a| == |m.ddq| == n
  {
    Motion(seq(n, j => ZERO6), seq(n, j => 0.0))
  }

  /** The motion that the force of row r adds to each body. */
  ghost function RowMotion(bodies: seq<BodyData>, s: seq<Snapshot>, r: Row, solve: (Inertia, Spatial) -> Spatial)
    : (d: seq<Motion>)
    requires Shaped(bodies, s)
    ensures |d| == |bodies| && forall b | 0 <= b < |bodies| :: |d[b].a| == |s[b].x|
  {
    seq(|bodies|, b requires 0 <= b < |bodies| =>
      if bodies[b].isStatic then Still(|s[b].x|)
      else Added(bodies[b].tree, s[b].x, LoadOn(r, b, |s[b].x|), solve))
  }

  ghost function Models(bodies: seq<BodyData>, s: seq<Snapshot>): (m: seq<BodyModel>)
    requires Shaped(bodies, s)
    ensures |m| == |bodies|
  {
    seq(|bodies|, b requires 0 <= b < |bodies| => BodyModel(bodies[b].tree, s[b].x))
  }

  lemma WorldShaped(bodies: seq<BodyData>, s: seq<Snapshot>)
    requires World(bodies, s)
    ensures Shaped(bodies, s) && Bodies(Models(bodies, s))
  {
    hide BodyData.Valid, States, Resupplied, Regular, Anchored, Separate, Symmetric;
  }

  lemma StillResponds(t: Shape, x: seq<LinkState>, f: seq<Spatial>)
    requires Fits(t, x) && Anchored(t, x) && |f| == |x|
    ensures Responds(t, x, f, Still(|x|))
  {}

  lemma RowMotionResponds(bodies: seq<BodyData>, s: seq<Snapshot>, r: Row, solve: (Inertia, Spatial) -> Spatial)
    requires World(bodies, s) && Exact(bodies, s, solve)
    ensures Shaped(bodies, s) && Bodies(Models(bodies, s))
    ensures RespondsToRow(Models(bodies, s), r, RowMotion(bodies, s, r, solve))
  {
    hide BodyData.Valid, States, Resupplied, Prepared, Regular, RootSolvable, Anchored, Separate, Responds, Added,
      Still;
    WorldShaped(bodies, s);
    forall b | 0 <= b < |bodies|
      ensures Responds(bodies[b].tree, s[b].x, LoadOn(r, b, |s[b].x|), RowMotion(bodies, s, r, solve)[b])
    {
      if bodies[b].isStatic {
        StillResponds(bodies[b].tree, s[b].x, LoadOn(r, b, |s[b].x|));
      } else {
        AddedResponds(bodies[b].tree, s[b].x, LoadOn(r, b, |s[b].x|), solve);
      }
    }
  }

  /** A body that the row does not act on does not move. */
  lemma UntestedStays(bodies: seq<BodyData>, s: seq<Snapshot>, r: Row, solve: (Inertia, Spatial) -> Spatial, b: nat,
                      j: nat)
    requires World(bodies, s) && Exact(bodies, s, solve) && b < |bodies| && (bodies[b].isStatic || !On(r, b))
    ensures Shaped(bodies, s) && (j < |s[b].x| ==> RowMotion(bodies, s, r, solve)[b].a[j] == ZERO6)
  {
    hide BodyData.Valid, States, Resupplied, Prepared, Regular, Anchored, Separate, Exact, Responds, Added, Wrench,
      Plus;
    WorldShaped(bodies, s);
    if !bodies[b].isStatic {
      PlusNothing(ZERO6);
      NothingAdded(bodies[b].tree, s[b].x, LoadOn(r, b, |s[b].x|), solve);
    }
  }

  /** No force, no motion. */
  lemma NothingAdded(t: Shape, x: seq<LinkState>, f: seq<Spatial>, solve: (Inertia, Spatial) -> Spatial)
    requires Fits(t, x) && |f| == |x| && forall j | 0 <= j < |f| :: f[j] == ZERO6
    ensures forall j | 0 <= j < |x| :: Added(t, x, f, solve).a[j] == ZERO6
  {
    hide Inbound, Outbound, Minus;
    NoForces(x, f);
    var a := Accelerations(t, x, RootUnder(t, x, solve));
    forall j | 0 <= j < |x| ensures Added(t, x, f, solve).a[j] == ZERO6 {
      MinusItself(a[j]);
    }
  }

  /** How a point on an end accelerates by default; a body that cannot move does not. */
  ghost function DefaultAt(body: BodyData, s: Snapshot, e: End, p: Vec3, solve: (Inertia, Spatial) -> Spatial): Vec3
    requires Fits(body.tree, s.x) && e.link < |s.x|
  {
    if body.isStatic || e.link >= |s.vel| then ZERO3
    else PointAccel(Before(body.tree, s.x, solve, e.link), s.vel[e.link].w, s.vel[e.link].v, p)
  }

  /** The default accelerations of row r, and their relative value along its direction. */
  ghost predicate HasDefaults(bodies: seq<BodyData>, s: seq<Snapshot>, r: Row, def: DefaultAccel, a: real,
                              solve: (Inertia, Spatial) -> Spatial)
  {
    && Shaped(bodies, s) && EndsIn(s, r) && r.end0.body < |bodies| && r.end1.body < |bodies|
    && def.on0 == DefaultAt(bodies[r.end0.body], s[r.end0.body], r.end0, r.point, solve)
    && def.on1 == DefaultAt(bodies[r.end1.body], s[r.end1.body], r.end1, r.point, solve)
    && a == Dot(r.dir, Sub(def.on1, def.on0))
  }

  ghost predicate EndsIn(s: seq<Snapshot>, r: Row) {
    && r.end0.body < |s| && r.end0.link < |s[r.end0.body].x|
    && r.end1.body < |s| && r.end1.link < |s[r.end1.body].x|
  }

  /** While row c is tested, every end of another row accelerates by the motion that row c adds. */
  lemma EndAccelerates(bodies: seq<BodyData>, s: seq<Snapshot>, c: Row, solve: (Inertia, Spatial) -> Spatial,
                       e: End, p: Vec3, def: Vec3)
    requires World(bodies, s) && Exact(bodies, s, solve) && AllTested(bodies, s, c, solve) && Shaped(bodies, s)
    requires e.body < |bodies| && EndReached(bodies[e.body], e) && e.link < |s[e.body].x|
    requires def == DefaultAt(bodies[e.body], s[e.body], e, p, solve)
    ensures bodies[e.body].isStatic || Fits(bodies[e.body].tree, s[e.body].x)
    ensures AcceleratesBy(bodies[e.body], bodies[e.body].linksData[e.link], p, def,
              Before(bodies[e.body].tree, s[e.body].x, solve, e.link),
              RowMotion(bodies, s, c, solve)[e.body].a[e.link])
  {
    hide BodyData.Valid, States, Resupplied, Prepared, Regular, Anchored, Separate, Exact, Added, PointAccel, Reached,
      Before, AcceleratedAs, LoadOn, Plus;
    var b := e.body;
    var body := bodies[b];
    if body.isTestForceBeingApplied {
      assert Tested(body, s[b], c, b, solve);
      LinkMoves(body, s[b], e.link);
      MeasuredAt(body, s[b], LoadOn(c, b, |s[b].x|), solve, e.link);
    } else {
      UntestedStays(bodies, s, c, solve, b, e.link);
    }
  }

  lemma LinkMoves(body: BodyData, s: Snapshot, l: nat)
    requires BodyFits(body, s) && !body.isStatic && l < |s.x|
    ensures |body.linksData| == |s.x| == |s.vel| && VelocityOf(body.linksData[l].link) == s.vel[l]
  {
    hide Represents, Resupplied, Prepared, Regular, States;
    body.DataOf(l);
  }

  // ---- the whole matrix ----

  /** The directions fill n places, one each. */
  ghost predicate Places(dirs: seq<Direction>, n: nat) {
    && |dirs| == n
    && (forall i | 0 <= i < n :: 0 <= dirs[i].index < n)
    && (forall i, j | 0 <= i < j < n :: dirs[i].index != dirs[j].index)
    && (forall k | 0 <= k < n :: Filled(dirs, k))
  }

  ghost predicate Filled(dirs: seq<Direction>, k: int) { exists i | 0 <= i < |dirs| :: dirs[i].index == k }

  ghost predicate AllReached(bodies: seq<BodyData>, dirs: seq<Direction>)
    reads bodies`hasConstrainedLinks, DataOfAll(bodies)`numberToCheckAccelCalcSkip
  {
    forall i | 0 <= i < |dirs| :: RowReached(bodies, dirs[i].row)
  }

  ghost predicate AllDefaults(bodies: seq<BodyData>, s: seq<Snapshot>, dirs: seq<Direction>,
                              defaults: seq<DefaultAccel>,
                              an: seq<real>, solve: (Inertia, Spatial) -> Spatial)
  {
    && |defaults| == |dirs| == |an|
    && forall i | 0 <= i < |dirs| ::
         0 <= dirs[i].index < |an| && HasDefaults(bodies, s, dirs[i].row, defaults[i], an[dirs[i].index], solve)
  }

  /** The relative acceleration at one direction while row c is tested. */
  method ExtractAt(bodies: seq<BodyData>, r: Row, def: DefaultAccel, a: real, ghost c: Row,
                   ghost solve: (Inertia, Spatial) -> Spatial, ghost s: seq<Snapshot>) returns (k: real)
    requires World(bodies, s) && Exact(bodies, s, solve) && AllTested(bodies, s, c, solve) && RowReached(bodies, r)
    requires HasDefaults(bodies, s, r, def, a, solve)
    ensures Shaped(bodies, s) && IsEntry(r, RowMotion(bodies, s, c, solve), k)
  {
    hide World, Exact, AllTested, Before, RowMotion, Inner, DefaultAt, AcceleratesBy, Reached, Dot;
    var i, j := r.end0.body, r.end1.body;
    EndAccelerates(bodies, s, c, solve, r.end0, r.point, def.on0);
    EndAccelerates(bodies, s, c, solve, r.end1, r.point, def.on1);
    ghost var d := RowMotion(bodies, s, c, solve);
    k := ExtractRelAccel(r, bodies[i], bodies[j], def, a,
                         Before(bodies[i].tree, s[i].x, solve, r.end0.link),
                         Before(bodies[j].tree, s[j].x, solve, r.end1.link),
                         d[i].a[r.end0.link], d[j].a[r.end1.link]);
  }

  /** One column of the matrix: what the force of row c does to every row. */
  method ExtractColumn(bodies: seq<BodyData>, dirs: seq<Direction>, defaults: seq<DefaultAccel>, an: seq<real>,
                       M: array2<real>, col: nat, ghost c: Row, ghost solve: (Inertia, Spatial) -> Spatial,
                       ghost s: seq<Snapshot>)
    requires World(bodies, s) && Exact(bodies, s, solve) && AllTested(bodies, s, c, solve) && AllReached(bodies, dirs)
    requires AllDefaults(bodies, s, dirs, defaults, an, solve) && Places(dirs, |an|)
    requires M.Length0 == M.Length1 == |an| && col < |an|
    modifies M
    ensures Shaped(bodies, s) && ColumnHeld(Entries(M), dirs, col, RowMotion(bodies, s, c, solve))
    ensures SameBut(Entries(M), old(Entries(M)), col)
  {
    hide Exact, AllTested, RowMotion, Entry, HasDefaults, BodyFits, Separate, RowReached, IsEntry;
    WorldShaped(bodies, s);
    assert forall d | d in DataOfAll(bodies) :: d as object != M;
    assert forall l | l in LinksOfAll(bodies) :: l as object != M;
    ghost var d, vals := RowMotion(bodies, s, c, solve), [];
    var i := 0;
    while i < |dirs|
      invariant 0 <= i <= |dirs|
      invariant |vals| == i && forall j | 0 <= j < i :: IsEntry(dirs[j].row, d, vals[j])
      invariant forall j | 0 <= j < i :: M[dirs[j].index, col] == vals[j]
      invariant forall k, l | 0 <= k < |an| && 0 <= l < |an| && l != col :: M[k, l] == old(M[k, l])
    {
      var k := ExtractAt(bodies, dirs[i].row, defaults[i], an[dirs[i].index], c, solve, s);
      vals := vals + [k];
      M[dirs[i].index, col] := k;
      i := i + 1;
    }
    ghost var m := Entries(M);
    forall j | 0 <= j < |dirs| ensures HoldsEntry(m, dirs[j], col, d) {
      assert m[dirs[j].index][col] == vals[j];
    }
  }

  ghost predicate IsEntry(r: Row, m: seq<Motion>, v: real)
    { EndMoves(r.end0, m) && EndMoves(r.end1, m) && v == Entry(r, m) }

  /** The matrix holds, at the place of direction d in column col, what motion m does to it. */
  ghost predicate HoldsEntry(M: seq<seq<real>>, d: Direction, col: int, m: seq<Motion>) {
    IsSquare(M) && 0 <= d.index < |M| && 0 <= col < |M| && IsEntry(d.row, m, M[d.index][col])
  }

  ghost predicate EndMoves(e: End, m: seq<Motion>) { e.body < |m| && e.link < |m[e.body].a| }

  ghost predicate ColumnHeld(M: seq<seq<real>>, dirs: seq<Direction>, col: int, m: seq<Motion>) {
    forall i | 0 <= i < |dirs| :: HoldsEntry(M, dirs[i], col, m)
  }

  /** Nothing but column col differs. */
  ghost predicate SameBut(M: seq<seq<real>>, N: seq<seq<real>>, col: int)
    requires IsSquare(M) && IsSquare(N)
  {
    |M| == |N| && forall k, l | 0 <= k < |M| && 0 <= l < |M| && l != col :: M[k][l] == N[k][l]
  }

  lemma ColumnKept(M: seq<seq<real>>, N: seq<seq<real>>, dirs: seq<Direction>, col: int, other: int, m: seq<Motion>)
    requires IsSquare(M) && IsSquare(N) && SameBut(M, N, other) && col != other && ColumnHeld(N, dirs, col, m)
    ensures ColumnHeld(M, dirs, col, m)
  {
    hide Entry;
    forall i | 0 <= i < |dirs| ensures HoldsEntry(M, dirs[i], col, m) {
      assert HoldsEntry(N, dirs[i], col, m);
    }
  }

  ghost predicate NoneTested(bodies: seq<BodyData>)
    reads bodies`isTestForceBeingApplied
  {
    forall b | 0 <= b < |bodies| :: !bodies[b].isTestForceBeingApplied
  }

  /** Link objects are neither link data nor bodies. */
  lemma ObjectsApart(bodies: seq<BodyData>)
    ensures forall l, d | l in LinksOfAll(bodies) && d in DataOfAll(bodies) :: l as object != d
    ensures forall l, b | l in LinksOfAll(bodies) && b in bodies :: l as object != b
  {}

  /** The test force of direction c, and its column filled. */
  method TestColumn(bodies: seq<BodyData>, dirs: seq<Direction>, defaults: seq<DefaultAccel>, an: seq<real>,
                    M: array2<real>, c: nat, solve: (Inertia, Spatial) -> Spatial, ghost s: seq<Snapshot>)
    requires World(bodies, s) && AllRest(bodies, s) && Exact(bodies, s, solve)
    requires AllReached(bodies, dirs) && NoneTested(bodies)
    requires AllDefaults(bodies, s, dirs, defaults, an, solve) && Places(dirs, |an|)
    requires M.Length0 == M.Length1 == |an| && c < |dirs| && 0 <= dirs[c].index < |an|
    modifies M, bodies`dpf, bodies`dptau, bodies`isTestForceBeingApplied
    modifies DataOfAll(bodies)`ddq, DataOfAll(bodies)`dvo, DataOfAll(bodies)`dw, DataOfAll(bodies)`uu
    ensures AllRest(bodies, s) && OnlyTested(bodies, dirs[c].row)
    ensures Shaped(bodies, s)
    ensures ColumnHeld(Entries(M), dirs, dirs[c].index, RowMotion(bodies, s, dirs[c].row, solve))
    ensures SameBut(Entries(M), old(Entries(M)), dirs[c].index)
  {
    hide World, Exact, AllTested, AllRest, ColumnHeld, SameBut, AllDefaults, EndReached, OnlyTested, Places, RowMotion;
    WorldShaped(bodies, s);
    assert forall d | d in DataOfAll(bodies) :: d as object != M;
    assert forall b | b in bodies :: b as object != M;
    ObjectsApart(bodies);
    var r := dirs[c].row;
    assert RowReached(bodies, r);
    ApplyRow(bodies, r, solve, s);
    OnlyOn(bodies, s, r, solve);
    ExtractColumn(bodies, dirs, defaults, an, M, dirs[c].index, r, solve, s);
  }

  /** Direction c tested: its column filled, every other column kept. */
  method MeasureColumn(bodies: seq<BodyData>, dirs: seq<Direction>, defaults: seq<DefaultAccel>, an: seq<real>,
                       M: array2<real>, c: nat, solve: (Inertia, Spatial) -> Spatial, ghost s: seq<Snapshot>)
    requires World(bodies, s) && AllRest(bodies, s) && Exact(bodies, s, solve)
    requires AllReached(bodies, dirs) && NoneTested(bodies)
    requires AllDefaults(bodies, s, dirs, defaults, an, solve) && Places(dirs, |an|)
    requires M.Length0 == M.Length1 == |an| && c < |dirs|
    modifies M, bodies`dpf, bodies`dptau, bodies`isTestForceBeingApplied
    modifies DataOfAll(bodies)`ddq, DataOfAll(bodies)`dvo, DataOfAll(bodies)`dw, DataOfAll(bodies)`uu
    ensures AllRest(bodies, s) && NoneTested(bodies)
    ensures Shaped(bodies, s)
    ensures ColumnHeld(Entries(M), dirs, dirs[c].index, RowMotion(bodies, s, dirs[c].row, solve))
    ensures SameBut(Entries(M), old(Entries(M)), dirs[c].index)
  {
    hide World, Exact, AllRest, ColumnHeld, SameBut, AllDefaults, EndReached, RowMotion, HasDefaults;
    var r := dirs[c].row;
    assert RowReached(bodies, r);
    TestColumn(bodies, dirs, defaults, an, M, c, solve, s);
    bodies[r.end0.body].isTestForceBeingApplied := false;
    bodies[r.end1.body].isTestForceBeingApplied := false;
  }

  /** Test forces act on no body that row r does not act on. */
  ghost predicate OnlyTested(bodies: seq<BodyData>, r: Row)
    reads bodies`isTestForceBeingApplied
  {
    forall b | 0 <= b < |bodies| :: bodies[b].isTestForceBeingApplied ==> On(r, b)
  }

  lemma OnlyOn(bodies: seq<BodyData>, s: seq<Snapshot>, r: Row, solve: (Inertia, Spatial) -> Spatial)
    requires AllTested(bodies, s, r, solve)
    ensures OnlyTested(bodies, r)
  {
    hide Tested;
  }

  /** Every column holds what its direction's force does. */
  ghost predicate ColumnsHeld(M: seq<seq<real>>, bodies: seq<BodyData>, s: seq<Snapshot>, dirs: seq<Direction>, n: nat,
                              solve: (Inertia, Spatial) -> Spatial)
    requires Shaped(bodies, s) && n <= |dirs|
  {
    forall c | 0 <= c < n :: ColumnHeld(M, dirs, dirs[c].index, RowMotion(bodies, s, dirs[c].row, solve))
  }

  /** The whole matrix, column by column. It comes out symmetric. If all links have mass no diagonal entry is
      negative, and one is zero exactly when its row's force moves no link of any body. */
  method SetAccelerationMatrix(bodies: seq<BodyData>, dirs: seq<Direction>, defaults: seq<DefaultAccel>, an: seq<real>,
                               M: array2<real>, solve: (Inertia, Spatial) -> Spatial, ghost s: seq<Snapshot>)
    requires World(bodies, s) && AllRest(bodies, s) && Exact(bodies, s, solve)
    requires AllReached(bodies, dirs) && NoneTested(bodies)
    requires AllDefaults(bodies, s, dirs, defaults, an, solve) && Places(dirs, |an|)
    requires M.Length0 == M.Length1 == |an|
    modifies M, bodies`dpf, bodies`dptau, bodies`isTestForceBeingApplied
    modifies DataOfAll(bodies)`ddq, DataOfAll(bodies)`dvo, DataOfAll(bodies)`dw, DataOfAll(bodies)`uu
    ensures AllRest(bodies, s) && NoneTested(bodies)
    ensures Shaped(bodies, s) && ColumnsHeld(Entries(M), bodies, s, dirs, |dirs|, solve)
    ensures IsSymmetricMatrix(Entries(M))
    ensures HeavyBodies(Models(bodies, s)) ==> Forward(Entries(M), bodies, s, dirs, solve)
  {
    hide Exact, AllRest, ColumnHeld, RowMotion, BodyFits, Separate, AllDefaults, AllReached, NoneTested, World,
      SameBut, IsSymmetricMatrix, Forward;
    WorldShaped(bodies, s);
    assert forall d | d in DataOfAll(bodies) :: d as object != M;
    assert forall l | l in LinksOfAll(bodies) :: l as object != M;
    var c := 0;
    while c < |dirs|
      invariant 0 <= c <= |dirs|
      invariant World(bodies, s) && AllRest(bodies, s) && NoneTested(bodies) && AllReached(bodies, dirs)
      invariant ColumnsHeld(Entries(M), bodies, s, dirs, c, solve)
    {
      ghost var before := Entries(M);
      MeasureColumn(bodies, dirs, defaults, an, M, c, solve, s);
      forall j | 0 <= j < c
        ensures ColumnHeld(Entries(M), dirs, dirs[j].index, RowMotion(bodies, s, dirs[j].row, solve))
      {
        ColumnKept(Entries(M), before, dirs, dirs[j].index, dirs[c].index, RowMotion(bodies, s, dirs[j].row, solve));
      }
      c := c + 1;
    }
    HeldIsReciprocal(Entries(M), bodies, s, dirs, solve);
  }

  /** No diagonal entry is negative, and one is zero exactly when its row's force moves no link of any body. */
  ghost predicate Forward(M: seq<seq<real>>, bodies: seq<BodyData>, s: seq<Snapshot>, dirs: seq<Direction>,
                          solve: (Inertia, Spatial) -> Spatial)
    requires Shaped(bodies, s)
  {
    IsSquare(M) && forall i | 0 <= i < |dirs| :: ForwardAt(M, dirs[i].index, RowMotion(bodies, s, dirs[i].row, solve))
  }

  ghost predicate ForwardAt(M: seq<seq<real>>, k: int, m: seq<Motion>)
    requires IsSquare(M)
  {
    0 <= k < |M| && M[k][k] >= 0.0 && (M[k][k] == 0.0 <==> AtStandstill(m))
  }

  /** The direction that takes place k. */
  ghost function DirectionAt(dirs: seq<Direction>, k: int): (d: Direction)
    requires Filled(dirs, k)
    ensures d in dirs && d.index == k
  {
    var i :| 0 <= i < |dirs| && dirs[i].index == k;
    dirs[i]
  }

  ghost function RowsInPlace(dirs: seq<Direction>, n: nat): (r: seq<Row>)
    requires Places(dirs, n)
    ensures |r| == n && forall k | 0 <= k < n :: r[k] == DirectionAt(dirs, k).row
  {
    seq(n, k requires 0 <= k < n => DirectionAt(dirs, k).row)
  }

  ghost function MotionsInPlace(bodies: seq<BodyData>, s: seq<Snapshot>, dirs: seq<Direction>, n: nat,
                                solve: (Inertia, Spatial) -> Spatial): (d: seq<seq<Motion>>)
    requires Shaped(bodies, s) && Places(dirs, n)
    ensures |d| == n && forall k | 0 <= k < n :: d[k] == RowMotion(bodies, s, DirectionAt(dirs, k).row, solve)
  {
    seq(n, k requires 0 <= k < n => RowMotion(bodies, s, DirectionAt(dirs, k).row, solve))
  }

  /** A matrix whose columns hold what the test forces do is the measured one, and so is reciprocal. */
  lemma HeldIsReciprocal(M: seq<seq<real>>, bodies: seq<BodyData>, s: seq<Snapshot>, dirs: seq<Direction>,
                         solve: (Inertia, Spatial) -> Spatial)
    requires World(bodies, s) && Exact(bodies, s, solve) && Shaped(bodies, s) && Places(dirs, |dirs|)
    requires IsSquare(M) && |M| == |dirs| && ColumnsHeld(M, bodies, s, dirs, |dirs|, solve)
    ensures IsSymmetricMatrix(M)
    ensures HeavyBodies(Models(bodies, s)) ==> Forward(M, bodies, s, dirs, solve)
  {
    hide World, Exact, RowMotion, Entry, AtStandstill, IsSymmetricMatrix, Bodies, Models, RespondsToRow, RowIn,
      HeavyBodies;
    var rows, d := RowsInPlace(dirs, |dirs|), MotionsInPlace(bodies, s, dirs, |dirs|, solve);
    WorldShaped(bodies, s);
    forall c | 0 <= c < |rows|
      ensures RowIn(Models(bodies, s), rows[c]) && RespondsToRow(Models(bodies, s), rows[c], d[c])
      ensures |d[c]| == |bodies| && Sized(Models(bodies, s), d[c])
    {
      assert ColumnHeld(M, dirs, c, d[c]);
      ColumnRowIn(M, bodies, s, dirs, c, solve);
      RowMotionResponds(bodies, s, rows[c], solve);
      ModelsSized(bodies, s, rows[c], solve);
    }
    forall r, c | 0 <= r < |rows| && 0 <= c < |rows| ensures IsEntry(rows[r], d[c], M[r][c]) {
      assert ColumnHeld(M, dirs, c, d[c]);
      assert HoldsEntry(M, DirectionAt(dirs, r), c, d[c]);
    }
    MeasuredIsSymmetric(Models(bodies, s), rows, M, d);
    forall i | 0 <= i < |dirs| && HeavyBodies(Models(bodies, s))
      ensures ForwardAt(M, dirs[i].index, RowMotion(bodies, s, dirs[i].row, solve))
    {
      assert DirectionAt(dirs, dirs[i].index) == dirs[i];
    }
  }

  lemma ModelsSized(bodies: seq<BodyData>, s: seq<Snapshot>, r: Row, solve: (Inertia, Spatial) -> Spatial)
    requires Shaped(bodies, s)
    ensures Sized(Models(bodies, s), RowMotion(bodies, s, r, solve))
  {}

  lemma ColumnRowIn(M: seq<seq<real>>, bodies: seq<BodyData>, s: seq<Snapshot>, dirs: seq<Direction>, c: nat,
                    solve: (Inertia, Spatial) -> Spatial)
    requires Shaped(bodies, s) && Places(dirs, |dirs|) && c < |dirs|
    requires ColumnHeld(M, dirs, c, RowMotion(bodies, s, DirectionAt(dirs, c).row, solve))
    ensures RowIn(Models(bodies, s), DirectionAt(dirs, c).row)
  {
    hide Entry;
    assert HoldsEntry(M, DirectionAt(dirs, c), c, RowMotion(bodies, s, DirectionAt(dirs, c).row, solve));
  }

  // ---- the accelerations without test forces ----

  /** Biases, joint terms and accelerations of one body, with no test force. */
  method SetDefaultOf(body: BodyData, solve: (Inertia, Spatial) -> Spatial, ghost s: Snapshot)
    requires BodyFits(body, s) && !body.isStatic && Monotone(body.tree, Numbers(body.linksData))
    modifies body`dpf, body`dptau, body.linksData`pf0, body.linksData`ptau0, body.linksData`uu0, body.linksData`uu
    modifies body.linksData`ddq, body.linksData`dvo, body.linksData`dw
    ensures Resting(body, s) && AcceleratedAs(body, s.z, solve)
  {
    hide Represents, BodyData.Aligned, Taken, States, Shape.Valid, Monotone, SecondHalf, Rerun, Plus, AtRest, Numbers,
      Initialized, TermAsRerun, AcceleratedAs;
    NoZeroDivisor(body, s);
    assert |body.traverse| == |s.z| > 0 by { hide *; FitsLinks(body, s); }
    body.DataOf(0);
    ghost var t, n := body.tree, Numbers(body.linksData);
    InitABMForceElementsWithNoExtForce(body, s.z);
    assert Numbers(body.linksData) == n;
    InitializedRests(body, s.z);
    RestingTerms(body, s.z);
    forall j | 0 < j < |s.z| ensures TermAsRerun(body.linksData[j], t, s.z, s.z, j) {
      TermAtRest(body.linksData[j], t, s.z, j);
    }
    RootAtRest(t, s.z, Bias0(body.linksData[0]), solve);
    PassAsRerun(body, s.z, solve, s.z);
    assert Numbers(body.linksData) == n;
    RestsAgain(body, s.z);
  }

  lemma InitializedRests(body: BodyData, z: seq<LinkState>)
    requires Fits(body.tree, z) && |body.linksData| == |z| && body.Delta() == ZERO6
    requires forall j | 0 <= j < |z| :: Initialized(body.linksData[j], SecondHalf(body.tree, z, j), j)
    ensures AtRest(body, z)
  {}

  lemma FitsLinks(body: BodyData, s: Snapshot)
    requires BodyFits(body, s)
    ensures |body.traverse| == |body.linksData| == |s.x| > 0
    ensures !body.isStatic ==> |s.z| == |s.x|
  {
    hide Represents, Resupplied, Prepared, Regular, States, Anchored;
  }

  lemma TermAtRest(data: LinkData, t: Shape, z: seq<LinkState>, j: int)
    requires Fits(t, z) && 0 < j < |z|
    requires z[j].Moving() ==> data.uu == data.uu0 == SecondHalf(t, z, j).uu
    ensures TermAsRerun(data, t, z, z, j)
  {
    hide Plus, Minus, Inner, SecondHalfBiases;
  }

  lemma RootAtRest(t: Shape, z: seq<LinkState>, bias: Spatial, solve: (Inertia, Spatial) -> Spatial)
    requires Fits(t, z) && bias == SecondHalf(t, z, 0).bias
    ensures RootAcceleration(z[0].(bias := Plus(bias, ZERO6)), solve) == RootAcceleration(Rerun(t, z)[0], solve)
  {
    hide Plus, Minus, SecondHalfBiases;
    PlusNothing(bias);
  }

  /** Skip numbers grow outward on every body that takes part. */
  ghost predicate NumbersGrow(bodies: seq<BodyData>)
    reads bodies`hasConstrainedLinks, DataOfAll(bodies)`numberToCheckAccelCalcSkip
  {
    forall b | 0 <= b < |bodies| && Active(bodies[b]) :: GrowsOutward(bodies[b])
  }

  ghost predicate GrowsOutward(body: BodyData)
    reads body.linksData`numberToCheckAccelCalcSkip
  {
    body.tree.Valid() && |body.linksData| == |body.tree.parent| && Monotone(body.tree, Numbers(body.linksData))
  }

  /** The body rests, and its links accelerate as without test forces. */
  ghost predicate Defaulted(body: BodyData, s: Snapshot, solve: (Inertia, Spatial) -> Spatial)
    reads body`dpf, body`dptau, body.linksData
  {
    Resting(body, s) && AcceleratedAs(body, s.z, solve)
  }

  /** Biases, joint terms and accelerations of all the bodies that take part. */
  method SetDefaultsOfAll(bodies: seq<BodyData>, solve: (Inertia, Spatial) -> Spatial, ghost s: seq<Snapshot>)
    requires World(bodies, s) && NumbersGrow(bodies)
    modifies bodies`dpf, bodies`dptau, DataOfAll(bodies)`pf0, DataOfAll(bodies)`ptau0, DataOfAll(bodies)`uu0
    modifies DataOfAll(bodies)`uu, DataOfAll(bodies)`ddq, DataOfAll(bodies)`dvo, DataOfAll(bodies)`dw
    ensures |bodies| == |s|
    ensures forall b | 0 <= b < |bodies| && Active(bodies[b]) :: Defaulted(bodies[b], s[b], solve)
  {
    hide World, BodyFits, Defaulted, Separate, GrowsOutward;
    ObjectsApart(bodies);
    BodiesMatch(bodies, s);
    var c := 0;
    while c < |bodies|
      invariant 0 <= c <= |bodies| && World(bodies, s) && NumbersGrow(bodies)
      invariant forall b | 0 <= b < c && Active(bodies[b]) :: Defaulted(bodies[b], s[b], solve)
    {
      BodiesApart(bodies, s, c);
      if bodies[c].hasConstrainedLinks && !bodies[c].isStatic {
        assert GrowsOutward(bodies[c]);
        SetDefaultOfActive(bodies[c], solve, s[c]);
      }
      c := c + 1;
    }
  }

  lemma BodiesMatch(bodies: seq<BodyData>, s: seq<Snapshot>)
    requires World(bodies, s)
    ensures |bodies| == |s|
  {}

  method SetDefaultOfActive(body: BodyData, solve: (Inertia, Spatial) -> Spatial, ghost s: Snapshot)
    requires BodyFits(body, s) && !body.isStatic && GrowsOutward(body)
    modifies body`dpf, body`dptau, body.linksData`pf0, body.linksData`ptau0, body.linksData`uu0, body.linksData`uu
    modifies body.linksData`ddq, body.linksData`dvo, body.linksData`dw
    ensures Defaulted(body, s, solve)
  {
    hide BodyFits, Monotone, Resting, AcceleratedAs;
    SetDefaultOf(body, solve, s);
  }

  /** The acceleration of a constraint point on the link of one end; none on a body that cannot move. */
  method DefaultAccelAt(body: BodyData, e: End, point: Vec3, ghost s: Snapshot,
                        ghost solve: (Inertia, Spatial) -> Spatial)
    returns (v: Vec3)
    requires BodyFits(body, s) && EndReached(body, e) && (!body.isStatic ==> Defaulted(body, s, solve))
    ensures Fits(body.tree, s.x) && e.link < |s.x| && v == DefaultAt(body, s, e, point, solve)
  {
    hide Represents, BodyData.Aligned, Resupplied, Prepared, Regular, States, Anchored, AtVelocities, Before,
      PointAccel, Reached, AcceleratedAs;
    if body.isStatic {
      v := ZERO3;
    } else {
      var data := body.linksData[e.link];
      LinkMoves(body, s, e.link);
      MeasuredBefore(body, s, solve, e.link);
      v := PointAccel(Spatial(data.dvo, data.dw), data.link.w, data.link.vo, point);
    }
  }

  /** The default accelerations of one direction, and their relative value along it. */
  method DefaultsOf(bodies: seq<BodyData>, r: Row, ghost s: seq<Snapshot>, ghost solve: (Inertia, Spatial) -> Spatial)
    returns (def: DefaultAccel, a: real)
    requires World(bodies, s) && RowReached(bodies, r) && |bodies| == |s|
    requires forall b | 0 <= b < |bodies| && Active(bodies[b]) :: Defaulted(bodies[b], s[b], solve)
    ensures HasDefaults(bodies, s, r, def, a, solve)
  {
    hide World, BodyFits, Defaulted, EndReached, DefaultAt, Dot, Sub;
    BodiesApart(bodies, s, r.end0.body);
    BodiesApart(bodies, s, r.end1.body);
    WorldShaped(bodies, s);
    var on0 := DefaultAccelAt(bodies[r.end0.body], r.end0, r.point, s[r.end0.body], solve);
    var on1 := DefaultAccelAt(bodies[r.end1.body], r.end1, r.point, s[r.end1.body], solve);
    def, a := DefaultAccel(on0, on1), Dot(r.dir, Sub(on1, on0));
  }

  /** The accelerations without test forces: of the bodies, at the constraint points, and along their directions. */
  method SetDefaultAccelerationVector(bodies: seq<BodyData>, dirs: seq<Direction>, an: array<real>,
                                      solve: (Inertia, Spatial) -> Spatial, ghost s: seq<Snapshot>)
    returns (defaults: seq<DefaultAccel>)
    requires World(bodies, s) && NumbersGrow(bodies) && AllReached(bodies, dirs) && Places(dirs, an.Length)
    modifies bodies`dpf, bodies`dptau, DataOfAll(bodies)`pf0, DataOfAll(bodies)`ptau0, DataOfAll(bodies)`uu0
    modifies DataOfAll(bodies)`uu, DataOfAll(bodies)`ddq, DataOfAll(bodies)`dvo, DataOfAll(bodies)`dw, an
    ensures AllRest(bodies, s) && AllDefaults(bodies, s, dirs, defaults, an[..], solve)
  {
    hide World, Defaulted, RowReached, HasDefaults, Resting;
    ObjectsApart(bodies);
    assert forall d | d in DataOfAll(bodies) :: d as object != an;
    assert forall l | l in LinksOfAll(bodies) :: l as object != an;
    assert forall b | b in bodies :: b as object != an;
    SetDefaultsOfAll(bodies, solve, s);
    defaults := [];
    while |defaults| < |dirs|
      invariant |defaults| <= |dirs| && World(bodies, s) && AllReached(bodies, dirs)
      invariant forall b | 0 <= b < |bodies| && Active(bodies[b]) :: Defaulted(bodies[b], s[b], solve)
      invariant forall j | 0 <= j < |defaults| ::
                  HasDefaults(bodies, s, dirs[j].row, defaults[j], an[dirs[j].index], solve)
    {
      var i := |defaults|;
      var def, a := DefaultsOf(bodies, dirs[i].row, s, solve);
      an[dirs[i].index] := a;
      defaults := defaults + [def];
    }
    DefaultedRest(bodies, s, solve);
  }

  lemma DefaultedRest(bodies: seq<BodyData>, s: seq<Snapshot>, solve: (Inertia, Spatial) -> Spatial)
    requires |bodies| == |s|
    requires forall b | 0 <= b < |bodies| && Active(bodies[b]) :: Defaulted(bodies[b], s[b], solve)
    ensures AllRest(bodies, s)
  {
    hide Resting, AcceleratedAs;
  }
}
