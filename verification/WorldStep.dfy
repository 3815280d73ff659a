/** From the contacts of a frame to the accelerations of all links: the solved forces, put on the links, make forward
    dynamics move the contacts as the contact problem asked. */
module WorldStep {
  import opened LinearAlgebra
  import opened Links
  import opened ArticulatedBody
  import opened SplitPasses
  import opened PositiveInertia
  import opened ForwardDynamicsABM
  import opened Roots
  import opened Counting
  import opened Sums
  import opened RigidLinks
  import opened ConstraintForces
  import opened ConstraintMatrix
  import opened AccelerationMatrix
  import opened GaussSeidel
  import opened SingularRows
  import opened ContactIndices
  import opened MatrixRows
  import opened ContactProblem
  import opened AfterStep
  import opened Superposition
  import opened ConstraintLoads
  import opened ContactFrame
  import Skip = SkipNumbers

  /** The links of the body have the accelerations of forward dynamics for its snapshot, and its velocities. */
  ghost predicate Moved(body: BodyData, s: Snapshot, solve: (Inertia, Spatial) -> Spatial)
    reads body.traverse
  {
    && Fits(body.tree, s.x) && AtVelocities(body.traverse, s.vel)
    && AccelerationsOf(body.traverse) == Accelerations(body.tree, s.x, RootUnder(body.tree, s.x, solve))
  }

  // ---- how the points of a row accelerate ----

  ghost predicate EndOnLinks(bodies: seq<BodyData>, e: End) {
    e.body < |bodies| && e.link < |bodies[e.body].traverse|
  }

  /** How the point p of an end accelerates; a body that cannot move does not. */
  ghost function AccelOfEnd(bodies: seq<BodyData>, e: End, p: Vec3): Vec3
    requires EndOnLinks(bodies, e)
    reads LinksOfAll(bodies)`dvo, LinksOfAll(bodies)`dw, LinksOfAll(bodies)`vo, LinksOfAll(bodies)`w
  {
    var body := bodies[e.body];
    if body.isStatic then ZERO3
    else
      var link := body.traverse[e.link];
      PointAccel(Acceleration(link), link.w, link.vo, p)
  }

  /** How the points of row r accelerate against each other, along its direction. */
  ghost function RelAccel(bodies: seq<BodyData>, r: Row): real
    requires EndOnLinks(bodies, r.end0) && EndOnLinks(bodies, r.end1)
    reads LinksOfAll(bodies)`dvo, LinksOfAll(bodies)`dw, LinksOfAll(bodies)`vo, LinksOfAll(bodies)`w
  {
    Dot(r.dir, Sub(AccelOfEnd(bodies, r.end1, r.point), AccelOfEnd(bodies, r.end0, r.point)))
  }

  lemma EndOfLinks(bodies: seq<BodyData>, s: seq<Snapshot>, e: End, p: Vec3, solve: (Inertia, Spatial) -> Spatial)
    requires |s| == |bodies| && e.body < |bodies| && Fits(bodies[e.body].tree, s[e.body].x)
    requires e.link < |s[e.body].x| == |bodies[e.body].traverse|
    requires !bodies[e.body].isStatic ==> Moved(bodies[e.body], s[e.body], solve)
    ensures AccelOfEnd(bodies, e, p) == DefaultAt(bodies[e.body], s[e.body], e, p, solve)
  {
    hide PointAccel, Accelerations, RootUnder;
    var body := bodies[e.body];
    if !body.isStatic {
      assert AccelerationsOf(body.traverse)[e.link] == Acceleration(body.traverse[e.link]);
      assert VelocityOf(body.traverse[e.link]) == s[e.body].vel[e.link];
    }
  }

  /** The tree of each body has the links of its snapshot, and the bodies that can move have moved. */
  ghost predicate AllMoved(bodies: seq<BodyData>, s: seq<Snapshot>, solve: (Inertia, Spatial) -> Spatial)
    reads LinksOfAll(bodies)
  {
    && |s| == |bodies|
    && (forall b | 0 <= b < |bodies| :: |s[b].x| == |bodies[b].traverse|)
    && (forall b | 0 <= b < |bodies| && !bodies[b].isStatic :: Moved(bodies[b], s[b], solve))
  }

  lemma RowOfLinks(bodies: seq<BodyData>, s: seq<Snapshot>, r: Row, a: real, solve: (Inertia, Spatial) -> Spatial)
    requires AllMoved(bodies, s, solve) && RowAccelerates(bodies, s, r, a, solve)
    ensures EndOnLinks(bodies, r.end0) && EndOnLinks(bodies, r.end1) && a == RelAccel(bodies, r)
  {
    hide Moved, DefaultAt, Dot, Sub, AccelOfEnd;
    EndOfLinks(bodies, s, r.end0, r.point, solve);
    EndOfLinks(bodies, s, r.end1, r.point, solve);
  }

  /** Along each of its rows the links accelerate as measured without the forces x, and by the row of the measured
      matrix times x. */
  ghost predicate LinksMove(bodies: seq<BodyData>, m: Measurement, x: seq<real>)
    reads LinksOfAll(bodies)
  {
    && Within(m.dirs, |x|) && IsSquare(m.matrix) && |m.matrix| == |m.an| == |x|
    && forall i | 0 <= i < |m.dirs| :: DirectionMoves(bodies, m.dirs[i], m, x)
  }

  ghost predicate DirectionMoves(bodies: seq<BodyData>, d: Direction, m: Measurement, x: seq<real>)
    requires 0 <= d.index < |x| && IsSquare(m.matrix) && |m.matrix| == |m.an| == |x|
    reads LinksOfAll(bodies)
  {
    && EndOnLinks(bodies, d.row.end0) && EndOnLinks(bodies, d.row.end1)
    && RelAccel(bodies, d.row) == m.an[d.index] + SeqDot(m.matrix[d.index], x)
  }

  lemma AllLinksMove(bodies: seq<BodyData>, s: seq<Snapshot>, m: Measurement, x: seq<real>,
                     solve: (Inertia, Spatial) -> Spatial)
    requires AllMove(bodies, s, m.dirs, x, m.matrix, m.an, solve) && AllMoved(bodies, Under(s, m.dirs, x), solve)
    ensures LinksMove(bodies, m, x)
  {
    hide AllMoved, RowAccelerates, RelAccel, SeqDot, UnderAt;
    forall i | 0 <= i < |m.dirs| ensures DirectionMoves(bodies, m.dirs[i], m, x) {
      var k := m.dirs[i].index;
      assert MovesAt(bodies, s, m.dirs, x, m.matrix, m.an, solve, i);
      RowOfLinks(bodies, Under(s, m.dirs, x), m.dirs[i].row, m.an[k] + SeqDot(m.matrix[k], x), solve);
    }
  }

  // ---- forward dynamics ----

  /** The second half of forward dynamics for one body. */
  method AccelerateBody(body: BodyData, solve: (Inertia, Spatial) -> Spatial, ghost s: Snapshot)
    requires BodyFits(body, s) && !body.isStatic && RootSolvable(body.tree, s.x, solve)
    modifies body.traverse`pf, body.traverse`ptau, body.traverse`uu, body.traverse`ddq, body.traverse`dvo
    modifies body.traverse`dw
    ensures Moved(body, s, solve)
  {
    hide Balanced, Resupplied, Regular, Prepared, Represents, States, BodyData.Aligned;
    assert SolvedExactly(body.tree, s.x, solve);
    CalcABMLastHalf(body.traverse, body.tree, solve, s.w, s.x);
  }

  /** The second half of forward dynamics for all bodies that can move. */
  method AccelerateBodies(bodies: seq<BodyData>, solve: (Inertia, Spatial) -> Spatial, ghost s: seq<Snapshot>)
    requires World(bodies, s) && Exact(bodies, s, solve) && LinksApart(bodies)
    modifies LinksOfAll(bodies)`pf, LinksOfAll(bodies)`ptau, LinksOfAll(bodies)`uu, LinksOfAll(bodies)`ddq
    modifies LinksOfAll(bodies)`dvo, LinksOfAll(bodies)`dw
    ensures AllMoved(bodies, s, solve)
  {
    hide BodyFits, Moved, RootSolvable, Skip.Separate;
    forall b | 0 <= b < |bodies| ensures |s[b].x| == |bodies[b].traverse| {
      FitsLinks(bodies[b], s[b]);
    }
    var c := 0;
    while c < |bodies|
      invariant 0 <= c <= |bodies|
      invariant forall b | 0 <= b < c && !bodies[b].isStatic :: Moved(bodies[b], s[b], solve)
      invariant forall b | c <= b < |bodies| :: BodyFits(bodies[b], s[b])
    {
      if !bodies[c].isStatic {
        AccelerateBody(bodies[c], solve, s[c]);
      }
      c := c + 1;
    }
  }

  /** One frame and the accelerations that follow: the contact problem is posed and solved, its forces are put on the
      links, and forward dynamics finds how all bodies accelerate. */
  method SolveAndAccelerate(solver: ContactSolver, bodies: seq<BodyData>, pairs: seq<LinkPair>,
                            reported: seq<seq<CollisionPoint>>, connections: seq<LinkPair>, poses: seq<Pose>,
                            solve: (Inertia, Spatial) -> Spatial, dtinv: real, exp: real -> real,
                            maxNumIteration: int, maxRelError: real, ghost s: seq<Snapshot>)
    returns (p: Problem, error: real, ghost m: Measurement)
    requires solver.Sized() && IsSqrt(solver.sqrt) && maxNumIteration > -10
    requires |reported| == |pairs| && Distinct(pairs) && forall p | p in pairs :: !p.connected
    requires Ready(connections, poses) && Proper(bodies, pairs) && forall p | p in connections :: EndsExist(bodies, p)
    requires PointsReported(reported) + AxesHeld(poses) < INT_MAX
    requires World(bodies, s) && Exact(bodies, s, solve) && NoneTested(bodies) && LinksApart(bodies)
    modifies solver, pairs`constraintPoints, connections`constraintPoints
    modifies bodies`hasConstrainedLinks, bodies`dpf, bodies`dptau, bodies`isTestForceBeingApplied
    modifies Skip.DataOfAll(bodies), solver.contactIndexToMu, solver.frictionIndexToContactIndex
    modifies solver.mcpHi, solver.solution, LinksOfAll(bodies)
    ensures solver.globalNumConstraintVectors == 0 ==> AllMoved(bodies, s, solve)
    ensures solver.globalNumConstraintVectors > 0 ==>
              && FrameSolved(solver, bodies, p, m, solver.StepOf(dtinv, exp), error, s, solve)
              && LinksMove(bodies, m, solver.solution[..])
    ensures solver.globalNumConstraintVectors > 0 && error == 0.0 && dtinv > 0.0 && IsExp(exp) ==>
              FrameAchieves(solver, p, m, dtinv)
  {
    hide ContactSolver.Indexed, ContactSolver.Ordered, World, Exact, NoneTested, FrameSolved, AllPoints, Rough,
      ContactSolver.ContactsHeld, Held, PointsReported, AxesHeld, Distinct, Ready, Proper, ContactSolver.Sized,
      ContactSolver.TablesFit, IsExp, FrameAchieves, LinksApart, MovesAt, AllMoved, LinksMove, Under;
    p, error, m := SolveFrame(solver, bodies, pairs, reported, connections, poses, solve, dtinv, exp, maxNumIteration,
                              maxRelError, s);
    SolutionApart(solver, bodies);
    if solver.globalNumConstraintVectors > 0 {
      AccelerateBodies(bodies, solve, Under(s, m.dirs, solver.solution[..]));
      AllLinksMove(bodies, s, m, solver.solution[..], solve);
    } else {
      AccelerateBodies(bodies, solve, s);
    }
  }

  // ---- what that makes of the contacts ----

  /** The force of no singular row shows in row k. */
  ghost predicate Undisturbed(M: seq<seq<real>>, x: seq<real>, k: nat)
    requires IsSquare(M) && |x| == |M| && k < |M|
  {
    M[k][k] >= SMALL && forall j | 0 <= j < |M| && M[j][j] < SMALL :: Product(M[k][j], x[j]) == 0.0
  }

  /** The velocity after the step that the constants of the rows aim at is the one that the links reach. */
  lemma LinksReach(bodies: seq<BodyData>, p: Problem, m: Measurement, x: seq<real>, dtinv: real, v: real,
                   d: Direction)
    requires LinksMove(bodies, m, x) && d in m.dirs && p.Fits(x) && p.M == ClearedMatrix(m.matrix) && dtinv != 0.0
    requires Undisturbed(m.matrix, x, d.index)
    ensures EndOnLinks(bodies, d.row.end0) && EndOnLinks(bodies, d.row.end1)
    ensures VelocityAfter(p, x, m.an, dtinv, v, d.index) == v + RelAccel(bodies, d.row) / dtinv
  {
    hide RelAccel, SeqDot, ClearedMatrix;
    assert DirectionMoves(bodies, d, m, x);
    ClearedActs(m.matrix, x, d.index);
  }

  /** The direction of a row of point q of all the points. */
  lemma {:induction false} DirectionOfPoint(pairs: seq<LinkPair>, n: nat, q: nat)
    requires q < |AllPoints(pairs)|
    ensures |Owners(pairs)| == |AllPoints(pairs)|
    ensures var c, o := AllPoints(pairs)[q], Owners(pairs)[q];
      forall d | d in DirectionsAt(o.end0, o.end1, c, n) :: d in Directions(pairs, n)
  {
    hide DirectionsAt;
    OwnersMatch(pairs);
    var k := |pairs| - 1;
    OwnersMatch(pairs[..k]);
    var before := |AllPoints(pairs[..k])|;
    if q < before {
      DirectionOfPoint(pairs[..k], n, q);
    } else {
      DirectionInPair(pairs[k].end0, pairs[k].end1, pairs[k].constraintPoints, n, q - before);
    }
  }

  lemma {:induction false} DirectionInPair(e0: End, e1: End, points: seq<ConstraintPoint>, n: nat, q: nat)
    requires q < |points|
    ensures forall d | d in DirectionsAt(e0, e1, points[q], n) :: d in PairDirections(e0, e1, points, n)
  {
    hide DirectionsAt;
    var k := |points| - 1;
    if q < k {
      DirectionInPair(e0, e1, points[..k], n, q);
    }
  }

  /** A contact of the frame bounces: with what the links have got as accelerations, its points do not go on approaching
      faster than they are to by the end of the step, and where they push they part at exactly the speed that
      restitution and recovery from penetration ask for. */
  ghost predicate LinksBounce(bodies: seq<BodyData>, o: LinkPair, c: ConstraintPoint, force: real, dtinv: real,
                              allowedDepth: real, ratio: real)
    requires dtinv != 0.0
    reads LinksOfAll(bodies), o`restitution
  {
    var r, v := Row(o.end0, o.end1, c.point, c.normal), c.normalProjectionOfRelVelocityOn0;
    && EndOnLinks(bodies, o.end0) && EndOnLinks(bodies, o.end1)
    && var after, target := v + RelAccel(bodies, r) / dtinv, -o.restitution * v - ratio * (allowedDepth - c.depth);
       after >= target && (force > 0.0 ==> after == target)
  }

  /** Every contact whose row no singular row disturbs bounces, as its links really move. */
  lemma ContactsBounce(solver: ContactSolver, bodies: seq<BodyData>, p: Problem, m: Measurement, dtinv: real,
                       step: Step, k: nat)
    requires Posed(solver, p, m, step) && FrameAchieves(solver, p, m, dtinv) && dtinv != 0.0
    requires LinksMove(bodies, m, solver.solution[..]) && k < |p.mu| && Undisturbed(m.matrix, solver.solution[..], k)
    ensures |AllPoints(solver.constrainedLinkPairs)| == |Owners(solver.constrainedLinkPairs)| == p.n
    ensures LinksBounce(bodies, Owners(solver.constrainedLinkPairs)[k], AllPoints(solver.constrainedLinkPairs)[k],
                        solver.solution[k], dtinv, solver.allowedPenetrationDepth,
                        solver.negativeVelocityRatioForPenetration)
  {
    hide RelAccel, ClearedMatrix, VelocityAfter, LinksMove, Undisturbed, ConstantsUpTo, Directions, Resists, AllPoints,
      Owners, Tabulates;
    var pairs, n := solver.constrainedLinkPairs, solver.globalNumConstraintVectors;
    var c, o := AllPoints(pairs)[k], Owners(pairs)[k];
    var d := Direction(Row(o.end0, o.end1, c.point, c.normal), c.globalIndex);
    assert NumberedPoint(AllPoints(pairs), |p.mu|, k);
    DirectionOfPoint(pairs, n, k);
    assert d == DirectionsAt(o.end0, o.end1, c, n)[0];
    LinksReach(bodies, p, m, solver.solution[..], dtinv, c.normalProjectionOfRelVelocityOn0, d);
    assert Bounces(p, solver.solution[..], m.an, dtinv, c, o.restitution, solver.allowedPenetrationDepth,
                   solver.negativeVelocityRatioForPenetration, k);
  }
}
