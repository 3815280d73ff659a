/** A whole frame of the constraint solver: rows for the contacts and connections, the matrix measured by test
    forces, the constants, and the forces that the projected Gauss-Seidel solver finds. */
module ContactFrame {
  import opened LinearAlgebra
  import opened Links
  import opened Counting
  import opened Roots
  import opened Sums
  import opened ConstraintForces
  import opened ConstraintMatrix
  import opened AccelerationMatrix
  import opened GaussSeidel
  import opened McpSolution
  import opened GaussSeidelSolver
  import opened SingularRows
  import opened ContactIndices
  import opened MatrixRows
  import opened ContactProblem
  import opened AfterStep
  import opened Superposition
  import opened ConstraintLoads
  import Skip = SkipNumbers

  /** What a frame measures of its rows: the matrix of its test forces, and the accelerations without them. */
  datatype Measurement = Measurement(matrix: seq<seq<real>>, dirs: seq<Direction>, defaults: seq<DefaultAccel>,
                                     an: seq<real>)

  /** The matrix of the rows: symmetric, column by column the motion that the test force of its row causes, and with
      a sound diagonal where the bodies have mass. */
  ghost predicate Measured(m: Measurement, bodies: seq<BodyData>, s: seq<Snapshot>,
                           solve: (Inertia, Spatial) -> Spatial)
  {
    && IsSquare(m.matrix) && IsSymmetricMatrix(m.matrix) && Places(m.dirs, |m.matrix|) && Shaped(bodies, s)
    && ColumnsHeld(m.matrix, bodies, s, m.dirs, |m.dirs|, solve)
    && AllDefaults(bodies, s, m.dirs, m.defaults, m.an, solve)
    && (HeavyBodies(Models(bodies, s)) ==> Forward(m.matrix, bodies, s, m.dirs, solve))
  }

  /** The problem that the rows of a frame pose: the measured matrix less its singular rows, the constants of the
      rows over the default accelerations, and the friction coefficient of each contact. */
  ghost predicate Posed(solver: ContactSolver, p: Problem, m: Measurement, step: Step)
    reads solver, solver.constrainedLinkPairs
  {
    OwnersAmong(solver.constrainedLinkPairs);
    var points, owners := AllPoints(solver.constrainedLinkPairs), Owners(solver.constrainedLinkPairs);
    assert forall i | 0 <= i < |owners| :: owners[i] in solver.constrainedLinkPairs;
    && m.dirs == Directions(solver.constrainedLinkPairs, solver.globalNumConstraintVectors)
    && IsSquare(m.matrix) && p.M == ClearedMatrix(m.matrix)
    && p.n == solver.globalNumConstraintVectors == |points| && |p.mu| == solver.globalNumContactNormalVectors
    && Tabulates(p.mu, points) && InOrder(points, owners, |p.mu|)
    && ConstantsUpTo(points, owners, p.b, m.an, step, p.n)
  }

  ghost predicate Tabulates(mu: seq<real>, points: seq<ConstraintPoint>) {
    |mu| <= |points| && forall i | 0 <= i < |mu| :: mu[i] == points[i].mu
  }

  ghost predicate Rough(points: seq<ConstraintPoint>, contacts: nat) {
    contacts <= |points| && forall i | 0 <= i < contacts :: points[i].mu >= 0.0
  }

  /** The problem is one that the solver can solve. */
  lemma PosedIsValid(solver: ContactSolver, p: Problem, m: Measurement, step: Step)
    requires solver.Indexed(solver.globalNumContactNormalVectors) && Posed(solver, p, m, step)
    requires Rough(AllPoints(solver.constrainedLinkPairs), solver.globalNumContactNormalVectors)
    requires |m.matrix| == |p.b| == solver.globalNumConstraintVectors + solver.globalNumFrictionVectors
    ensures p.Valid()
  {
    hide ContactRows, ConnectionRows, AllPoints, ConstantsUpTo, Owners, ClearedMatrix, InOrder;
    ClearedIsDivisible(m.matrix);
  }

  lemma RowsInOrder(solver: ContactSolver, contactPairs: nat)
    requires solver.Indexed(solver.globalNumContactNormalVectors) && solver.Ordered(contactPairs)
    ensures InOrder(AllPoints(solver.constrainedLinkPairs), Owners(solver.constrainedLinkPairs),
                    solver.globalNumContactNormalVectors)
  {
    hide ContactSolver.Indexed, NumberedPoints, AllPoints, Owners;
    solver.RowNumbers(solver.globalNumContactNormalVectors);
    OwnersMatch(solver.constrainedLinkPairs);
    OwnersInOrder(solver.constrainedLinkPairs, contactPairs);
  }

  /** The constants and the coefficients of the rows, with a matrix that was measured for them. */
  method ReadProblem(solver: ContactSolver, M: array2<real>, an: array<real>, dtinv: real, exp: real -> real,
                     ghost m: Measurement, ghost contactPairs: nat)
    returns (p: Problem)
    requires solver.Indexed(solver.globalNumContactNormalVectors) && solver.Ordered(contactPairs) && solver.TablesFit()
    requires Rough(AllPoints(solver.constrainedLinkPairs), solver.globalNumContactNormalVectors)
    requires M.Length0 == M.Length1 == an.Length == solver.globalNumConstraintVectors + solver.globalNumFrictionVectors
    requires m.an == an[..] && IsSquare(m.matrix) && Entries(M) == ClearedMatrix(m.matrix)
    requires m.dirs == Directions(solver.constrainedLinkPairs, solver.globalNumConstraintVectors)
    modifies solver.contactIndexToMu, solver.frictionIndexToContactIndex
    ensures p.Valid() && |p.M| == solver.solution.Length && |p.mu| == solver.mcpHi.Length
    ensures Posed(solver, p, m, solver.StepOf(dtinv, exp))
  {
    hide ContactSolver.Indexed, ContactSolver.Ordered, ConstantsUpTo, Directions, Owners, AllPoints, Rough,
      Problem.Valid, InOrder;
    var b := new real[an.Length];
    solver.SetConstantVectorAndMuBlock(b, an[..], dtinv, exp, contactPairs);
    p := Problem(Entries(M), b[..], solver.contactIndexToMu[..], solver.globalNumConstraintVectors);
    solver.EnoughRows(solver.globalNumContactNormalVectors);
    RowsInOrder(solver, contactPairs);
    PosedIsValid(solver, p, m, solver.StepOf(dtinv, exp));
  }

  /** The problem of the rows of a frame. */
  method PoseProblem(solver: ContactSolver, bodies: seq<BodyData>, solve: (Inertia, Spatial) -> Spatial,
                     dtinv: real, exp: real -> real, ghost contactPairs: nat, ghost s: seq<Snapshot>)
    returns (p: Problem, ghost m: Measurement)
    requires solver.Indexed(solver.globalNumContactNormalVectors) && solver.globalNumConstraintVectors < INT_MAX
    requires solver.Ordered(contactPairs) && solver.TablesFit()
    requires Rough(AllPoints(solver.constrainedLinkPairs), solver.globalNumContactNormalVectors)
    requires forall p | p in solver.constrainedLinkPairs :: EndsExist(bodies, p)
    requires World(bodies, s) && Exact(bodies, s, solve) && NoneTested(bodies)
    modifies bodies`hasConstrainedLinks, bodies`dpf, bodies`dptau, bodies`isTestForceBeingApplied
    modifies Skip.DataOfAll(bodies), solver.contactIndexToMu, solver.frictionIndexToContactIndex
    ensures p.Valid() && |p.M| == solver.solution.Length && |p.mu| == solver.mcpHi.Length
    ensures Posed(solver, p, m, solver.StepOf(dtinv, exp)) && Measured(m, bodies, s, solve)
    ensures |m.an| == solver.solution.Length
  {
    hide ContactSolver.Indexed, ContactSolver.Ordered, World, Exact, NoneTested, Places, Forward, ColumnsHeld,
      AllDefaults, IsSymmetricMatrix, Posed, Directions, AllPoints, Rough, Problem.Valid;
    var M, an;
    ghost var matrix, dirs, defaults;
    M, an, matrix, dirs, defaults := SetUpMatrix(solver, bodies, solve, s);
    m := Measurement(matrix, dirs, defaults, an[..]);
    p := ReadProblem(solver, M, an, dtinv, exp, m, contactPairs);
  }

  /** Forces start from zero when the number of rows has changed, otherwise from those of the frame before. */
  method StartForces(solver: ContactSolver, constraintsSizeChanged: bool)
    modifies solver.solution
  {
    if constraintsSizeChanged {
      var i := 0;
      while i < solver.solution.Length {
        solver.solution[i] := 0.0;
        i := i + 1;
      }
    }
  }

  /** What a frame leaves: a problem that its rows pose, and forces within its friction cones, which solve the
      problem if the last check of the solver reports no error. */
  ghost predicate FrameSolved(solver: ContactSolver, bodies: seq<BodyData>, p: Problem, m: Measurement, step: Step,
                              error: real, s: seq<Snapshot>, solve: (Inertia, Spatial) -> Spatial)
    reads solver, solver.constrainedLinkPairs, solver.solution
  {
    && Posed(solver, p, m, step) && Measured(m, bodies, s, solve)
    && p.Fits(solver.solution[..]) && Feasible(p, solver.solution[..])
    && (error == 0.0 ==> Solved(p, solver.solution[..]))
  }

  /** What the frame brings about by the end of the time step, with the settings of the solver. */
  ghost predicate FrameAchieves(solver: ContactSolver, p: Problem, m: Measurement, dtinv: real)
    reads solver, solver.constrainedLinkPairs, solver.solution
  {
    OwnersAmong(solver.constrainedLinkPairs);
    var points, owners := AllPoints(solver.constrainedLinkPairs), Owners(solver.constrainedLinkPairs);
    assert forall i | 0 <= i < |owners| :: owners[i] in solver.constrainedLinkPairs;
    && p.Fits(solver.solution[..]) && |m.an| == solver.solution.Length && dtinv != 0.0 && |points| == |owners| == p.n
    && Achieves(p, solver.solution[..], m.an, dtinv, points, owners, solver.allowedPenetrationDepth,
                solver.negativeVelocityRatioForPenetration)
  }

  lemma SolvedFrameAchieves(solver: ContactSolver, bodies: seq<BodyData>, p: Problem, m: Measurement, dtinv: real,
                            exp: real -> real, error: real, s: seq<Snapshot>, solve: (Inertia, Spatial) -> Spatial)
    requires FrameSolved(solver, bodies, p, m, solver.StepOf(dtinv, exp), error, s, solve)
    requires |m.an| == solver.solution.Length && error == 0.0 && dtinv > 0.0 && IsExp(exp)
    ensures FrameAchieves(solver, p, m, dtinv)
  {
    hide Measured, AllPoints, Owners, ConstantsUpTo, Solved, Achieves, IsExp, Feasible, Problem.Valid, ClearedMatrix,
      InOrder;
    OwnersMatch(solver.constrainedLinkPairs);
    SolvedAchieves(p, solver.solution[..], m.an, solver.StepOf(dtinv, exp), AllPoints(solver.constrainedLinkPairs),
                   Owners(solver.constrainedLinkPairs));
  }

  /** The forces of a frame that has rows. */
  method SolveRows(solver: ContactSolver, bodies: seq<BodyData>, solve: (Inertia, Spatial) -> Spatial,
                   dtinv: real, exp: real -> real, constraintsSizeChanged: bool, maxNumIteration: int,
                   maxRelError: real, ghost contactPairs: nat, ghost s: seq<Snapshot>)
    returns (p: Problem, error: real, ghost m: Measurement)
    requires solver.Indexed(solver.globalNumContactNormalVectors) && solver.globalNumConstraintVectors < INT_MAX
    requires solver.Ordered(contactPairs) && solver.TablesFit() && IsSqrt(solver.sqrt) && maxNumIteration > -10
    requires Rough(AllPoints(solver.constrainedLinkPairs), solver.globalNumContactNormalVectors)
    requires forall p | p in solver.constrainedLinkPairs :: EndsExist(bodies, p)
    requires World(bodies, s) && Exact(bodies, s, solve) && NoneTested(bodies)
    modifies bodies`hasConstrainedLinks, bodies`dpf, bodies`dptau, bodies`isTestForceBeingApplied
    modifies Skip.DataOfAll(bodies), solver.contactIndexToMu, solver.frictionIndexToContactIndex
    modifies solver.mcpHi, solver.solution
    ensures FrameSolved(solver, bodies, p, m, solver.StepOf(dtinv, exp), error, s, solve)
    ensures error == 0.0 && dtinv > 0.0 && IsExp(exp) ==> FrameAchieves(solver, p, m, dtinv)
  {
    hide ContactSolver.Indexed, ContactSolver.Ordered, World, Exact, NoneTested, Measured, Posed, AllPoints, Rough,
      Problem.Valid, Feasible, Solved, IsExp, FrameAchieves;
    p, m := PoseProblem(solver, bodies, solve, dtinv, exp, contactPairs, s);
    assert forall q | q in solver.constrainedLinkPairs :: q as object != solver.solution && q as object != solver.mcpHi;
    StartForces(solver, constraintsSizeChanged);
    error := SolveMCPByProjectedGaussSeidel(p, solver.solution, solver.mcpHi, solver.sqrt, maxNumIteration,
                                             maxRelError);
    assert Posed(solver, p, m, solver.StepOf(dtinv, exp));
    if error == 0.0 && dtinv > 0.0 && IsExp(exp) {
      SolvedFrameAchieves(solver, bodies, p, m, dtinv, exp, error, s, solve);
    }
  }

  /** Links of a pair exist, and its coefficients of friction are not negative. */
  ghost predicate Proper(bodies: seq<BodyData>, pairs: seq<LinkPair>)
    reads pairs`muStatic, pairs`muDynamic
  {
    forall p | p in pairs :: EndsExist(bodies, p) && p.muStatic >= 0.0 && p.muDynamic >= 0.0
  }

  /** The contacts that a frame has made have coefficients of friction that are not negative. */
  lemma ContactsRough(solver: ContactSolver, bodies: seq<BodyData>, pairs: seq<LinkPair>,
                      reported: seq<seq<CollisionPoint>>, contactPairs: nat)
    requires |pairs| == |reported| && solver.ContactsHeld(pairs, reported, |pairs|) && Proper(bodies, pairs)
    requires solver.Ordered(contactPairs) && solver.Indexed(solver.globalNumContactNormalVectors)
    requires forall p | p in solver.constrainedLinkPairs && !p.connected :: p in pairs
    ensures Rough(AllPoints(solver.constrainedLinkPairs), solver.globalNumContactNormalVectors)
  {
    hide ContactRows, ConnectionRows, ContactSolver.Extracted, AllPoints;
    var constrained := solver.constrainedLinkPairs;
    AllPointsPrefix(constrained, contactPairs);
    forall k | 0 <= k < contactPairs ensures RoughPoints(constrained[..contactPairs][k].constraintPoints) {
      assert constrained[k] in constrained && !constrained[k].connected;
      var i :| 0 <= i < |pairs| && pairs[i] == constrained[k];
      ExtractedRough(solver, pairs[i], reported[i]);
    }
    AllRough(constrained[..contactPairs]);
  }

  ghost predicate RoughPoints(points: seq<ConstraintPoint>) {
    forall i | 0 <= i < |points| :: points[i].mu >= 0.0
  }

  lemma ExtractedRough(solver: ContactSolver, pair: LinkPair, reported: seq<CollisionPoint>)
    requires solver.Extracted(pair, reported) && pair.muStatic >= 0.0 && pair.muDynamic >= 0.0
    ensures RoughPoints(pair.constraintPoints)
  {
    hide Thinned, Dot, FrictionVectors.FrictionPair, Tangent;
    forall i | 0 <= i < |pair.constraintPoints| ensures pair.constraintPoints[i].mu >= 0.0 {
      assert Made(pair.constraintPoints[i], solver.Around(pair), reported);
    }
  }

  lemma {:induction false} AllRough(pairs: seq<LinkPair>)
    requires forall k | 0 <= k < |pairs| :: RoughPoints(pairs[k].constraintPoints)
    ensures RoughPoints(AllPoints(pairs))
  {
    if pairs != [] {
      AllRough(pairs[..|pairs| - 1]);
    }
  }

  /** The rows of a frame, ready to be measured. */
  method SetFrameRows(solver: ContactSolver, bodies: seq<BodyData>, pairs: seq<LinkPair>,
                      reported: seq<seq<CollisionPoint>>, connections: seq<LinkPair>, poses: seq<Pose>)
    returns (constraintsSizeChanged: bool, ghost contactPairs: nat)
    requires solver.Sized() && |reported| == |pairs| && Distinct(pairs) && forall p | p in pairs :: !p.connected
    requires Ready(connections, poses) && Proper(bodies, pairs) && forall p | p in connections :: EndsExist(bodies, p)
    modifies solver, pairs`constraintPoints, connections`constraintPoints
    ensures solver.ContactsHeld(pairs, reported, |pairs|) && solver.velocityOf == old(solver.velocityOf)
    ensures Held(connections, poses, solver.constrainedLinkPairs, |connections|, solver.velocityOf)
    ensures solver.Indexed(solver.globalNumContactNormalVectors) && solver.Ordered(contactPairs)
    ensures solver.globalNumConstraintVectors <= PointsReported(reported) + AxesHeld(poses)
    ensures solver.globalNumConstraintVectors > 0 ==> solver.TablesFit()
    ensures Rough(AllPoints(solver.constrainedLinkPairs), solver.globalNumContactNormalVectors)
    ensures forall p | p in solver.constrainedLinkPairs :: EndsExist(bodies, p)
    ensures fresh(solver.Arrays() - old(solver.Arrays()))
  {
    hide ContactSolver.Indexed, ContactSolver.Ordered, AllPoints, Rough, ContactSolver.ContactsHeld, Held,
      PointsReported, AxesHeld, Distinct, ContactSolver.Sized, ContactSolver.TablesFit;
    constraintsSizeChanged, contactPairs := solver.SetRows(pairs, reported, connections, poses);
    ContactsRough(solver, bodies, pairs, reported, contactPairs);
  }

  // ---- the forces on the links ----

  /** The links have been given the forces x, and the bodies move with them as the constants of the rows assume: along
      each row, by the measured accelerations without them and by its row of the measured matrix times x. */
  ghost predicate FrameMoves(bodies: seq<BodyData>, s: seq<Snapshot>, m: Measurement, x: seq<real>,
                             solve: (Inertia, Spatial) -> Spatial)
    reads LinksOfAll(bodies)
  {
    && AllMove(bodies, s, m.dirs, x, m.matrix, m.an, solve)
    && World(bodies, Under(s, m.dirs, x)) && Exact(bodies, Under(s, m.dirs, x), solve)
  }

  lemma PairsOnLinks(bodies: seq<BodyData>, s: seq<Snapshot>, pairs: seq<LinkPair>)
    requires World(bodies, s) && forall p | p in pairs :: EndsExist(bodies, p)
    ensures forall p | p in pairs :: EndsOnLinks(bodies, p)
  {
    hide World, BodyFits;
    forall p | p in pairs ensures EndsOnLinks(bodies, p) {
      BodiesApart(bodies, s, p.end0.body);
      BodiesApart(bodies, s, p.end1.body);
      FitsLinks(bodies[p.end0.body], s[p.end0.body]);
      FitsLinks(bodies[p.end1.body], s[p.end1.body]);
    }
  }

  /** The forces of a frame that has been solved, on the links of the bodies. */
  method ApplyForces(solver: ContactSolver, bodies: seq<BodyData>, ghost m: Measurement,
                     ghost solve: (Inertia, Spatial) -> Spatial, ghost s: seq<Snapshot>)
    requires LinksApart(bodies) && World(bodies, s) && Exact(bodies, s, solve) && Measured(m, bodies, s, solve)
    requires forall p | p in solver.constrainedLinkPairs :: EndsExist(bodies, p)
    requires m.dirs == Directions(solver.constrainedLinkPairs, solver.globalNumConstraintVectors)
    requires |m.matrix| == solver.solution.Length
    modifies LinksOfAll(bodies)`fext, LinksOfAll(bodies)`tauext
    ensures FrameMoves(bodies, s, m, solver.solution[..], solve)
  {
    hide World, Exact, LinksApart, EndsOnLinks, Forward, AllMove, ColumnsHeld, AllDefaults, Directions,
      IsSymmetricMatrix, HeavyBodies;
    PairsOnLinks(bodies, s, solver.constrainedLinkPairs);
    WorldShaped(bodies, s);
    ForcesMove(bodies, s, m.dirs, solver.solution[..], m.matrix, m.defaults, m.an, solve);
    ExactUnder(bodies, s, m.dirs, solver.solution[..], solve);
    LoadBodies(bodies, solver.constrainedLinkPairs, solver.solution[..], solver.globalNumConstraintVectors, s);
  }

  /** The forces of a frame that has rows, found and put on the links. */
  method SolveAndApply(solver: ContactSolver, bodies: seq<BodyData>, solve: (Inertia, Spatial) -> Spatial,
                       dtinv: real, exp: real -> real, constraintsSizeChanged: bool, maxNumIteration: int,
                       maxRelError: real, ghost contactPairs: nat, ghost s: seq<Snapshot>)
    returns (p: Problem, error: real, ghost m: Measurement)
    requires solver.Indexed(solver.globalNumContactNormalVectors) && solver.globalNumConstraintVectors < INT_MAX
    requires solver.Ordered(contactPairs) && solver.TablesFit() && IsSqrt(solver.sqrt) && maxNumIteration > -10
    requires Rough(AllPoints(solver.constrainedLinkPairs), solver.globalNumContactNormalVectors)
    requires forall p | p in solver.constrainedLinkPairs :: EndsExist(bodies, p)
    requires World(bodies, s) && Exact(bodies, s, solve) && NoneTested(bodies) && LinksApart(bodies)
    modifies bodies`hasConstrainedLinks, bodies`dpf, bodies`dptau, bodies`isTestForceBeingApplied
    modifies Skip.DataOfAll(bodies), solver.contactIndexToMu, solver.frictionIndexToContactIndex
    modifies solver.mcpHi, solver.solution, LinksOfAll(bodies)`fext, LinksOfAll(bodies)`tauext
    ensures FrameSolved(solver, bodies, p, m, solver.StepOf(dtinv, exp), error, s, solve)
    ensures error == 0.0 && dtinv > 0.0 && IsExp(exp) ==> FrameAchieves(solver, p, m, dtinv)
    ensures FrameMoves(bodies, s, m, solver.solution[..], solve)
  {
    hide ContactSolver.Indexed, ContactSolver.Ordered, World, Exact, NoneTested, AllPoints, Rough, FrameAchieves,
      IsExp, LinksApart, FrameSolved, FrameMoves, ContactSolver.TablesFit;
    ObjectsApart(bodies);
    SolutionApart(solver, bodies);
    p, error, m := SolveRows(solver, bodies, solve, dtinv, exp, constraintsSizeChanged, maxNumIteration, maxRelError,
                             contactPairs, s);
    SolvedShape(solver, bodies, p, m, solver.StepOf(dtinv, exp), error, s, solve);
    ApplyForces(solver, bodies, m, solve, s);
  }

  lemma SolutionApart(solver: ContactSolver, bodies: seq<BodyData>)
    ensures forall l | l in LinksOfAll(bodies) ::
      l as object != solver && l as object !in solver.Arrays() && l as object !in solver.constrainedLinkPairs
  {}

  /** A solved frame has a measured matrix of as many rows as there are forces. */
  lemma SolvedShape(solver: ContactSolver, bodies: seq<BodyData>, p: Problem, m: Measurement, step: Step, error: real,
                    s: seq<Snapshot>, solve: (Inertia, Spatial) -> Spatial)
    requires FrameSolved(solver, bodies, p, m, step, error, s, solve)
    ensures Measured(m, bodies, s, solve) && |m.matrix| == solver.solution.Length
    ensures m.dirs == Directions(solver.constrainedLinkPairs, solver.globalNumConstraintVectors)
  {
    hide Measured, ConstantsUpTo, Directions, Achieves, InOrder, Feasible, Solved;
  }

  /** One frame: rows for all reported contacts and all connections and, unless there are none, the problem that
      they pose, the forces found for it, and the links moved by them. */
  method SolveFrame(solver: ContactSolver, bodies: seq<BodyData>, pairs: seq<LinkPair>,
                    reported: seq<seq<CollisionPoint>>, connections: seq<LinkPair>, poses: seq<Pose>,
                    solve: (Inertia, Spatial) -> Spatial, dtinv: real, exp: real -> real, maxNumIteration: int,
                    maxRelError: real, ghost s: seq<Snapshot>)
    returns (p: Problem, error: real, ghost m: Measurement)
    requires solver.Sized() && IsSqrt(solver.sqrt) && maxNumIteration > -10
    requires |reported| == |pairs| && Distinct(pairs) && forall p | p in pairs :: !p.connected
    requires Ready(connections, poses) && Proper(bodies, pairs) && forall p | p in connections :: EndsExist(bodies, p)
    requires PointsReported(reported) + AxesHeld(poses) < INT_MAX
    requires World(bodies, s) && Exact(bodies, s, solve) && NoneTested(bodies) && LinksApart(bodies)
    modifies solver, pairs`constraintPoints, connections`constraintPoints
    modifies bodies`hasConstrainedLinks, bodies`dpf, bodies`dptau, bodies`isTestForceBeingApplied
    modifies Skip.DataOfAll(bodies), solver.contactIndexToMu, solver.frictionIndexToContactIndex
    modifies solver.mcpHi, solver.solution, LinksOfAll(bodies)`fext, LinksOfAll(bodies)`tauext
    ensures solver.ContactsHeld(pairs, reported, |pairs|)
    ensures Held(connections, poses, solver.constrainedLinkPairs, |connections|, solver.velocityOf)
    ensures solver.globalNumConstraintVectors > 0 ==>
              FrameSolved(solver, bodies, p, m, solver.StepOf(dtinv, exp), error, s, solve)
    ensures solver.globalNumConstraintVectors > 0 && error == 0.0 && dtinv > 0.0 && IsExp(exp) ==>
              FrameAchieves(solver, p, m, dtinv)
    ensures solver.globalNumConstraintVectors > 0 ==> FrameMoves(bodies, s, m, solver.solution[..], solve)
    ensures solver.globalNumConstraintVectors == 0 ==> World(bodies, s)
  {
    hide ContactSolver.Indexed, ContactSolver.Ordered, World, Exact, NoneTested, FrameSolved, AllPoints, Rough,
      ContactSolver.ContactsHeld, Held, PointsReported, AxesHeld, Distinct, Ready, Proper, ContactSolver.Sized,
      ContactSolver.TablesFit, IsExp, FrameAchieves, FrameMoves, LinksApart;
    var constraintsSizeChanged;
    ghost var contactPairs;
    p, error, m := Problem([], [], [], 0), 0.0, Measurement([], [], [], []);
    assert forall l | l in LinksOfAll(bodies) :: l as object != solver;
    constraintsSizeChanged, contactPairs := SetFrameRows(solver, bodies, pairs, reported, connections, poses);
    if solver.globalNumConstraintVectors > 0 {
      p, error, m := SolveAndApply(solver, bodies, solve, dtinv, exp, constraintsSizeChanged, maxNumIteration,
                                   maxRelError, contactPairs, s);
    }
  }
}
