/** One frame of the constraint solver, from the rows of its contacts and connections to the matrix of the
    contact problem. */
module ContactProblem {
  import opened LinearAlgebra
  import opened Links
  import opened RigidLinks
  import opened RigidMotion
  import opened Sums
  import opened ConstraintForces
  import opened ConstraintMatrix
  import opened AccelerationMatrix
  import opened ContactIndices
  import opened MatrixRows
  import opened SingularRows
  import Skip = SkipNumbers
  import SkippingPass

  ghost predicate EndsExist(bodies: seq<BodyData>, p: LinkPair) {
    && p.end0.body < |bodies| && p.end0.link < |bodies[p.end0.body].linksData|
    && p.end1.body < |bodies| && p.end1.link < |bodies[p.end1.body].linksData|
  }

  /** The pair as the skip numbers see it: its links, and the row of its first point. */
  function SkipPair(bodies: seq<BodyData>, p: LinkPair): Skip.LinkPair
    requires p.end0.body < |bodies| && p.end1.body < |bodies| && p.constraintPoints != []
    reads p
  {
    Skip.LinkPair(bodies[p.end0.body], p.end0.link, bodies[p.end1.body], p.end1.link, p.constraintPoints[0].globalIndex)
  }

  ghost predicate Constrained(bodies: seq<BodyData>, pairs: seq<LinkPair>)
    reads bodies`hasConstrainedLinks
  {
    forall k | 0 <= k < |pairs| ::
      && EndsExist(bodies, pairs[k])
      && bodies[pairs[k].end0.body].hasConstrainedLinks && bodies[pairs[k].end1.body].hasConstrainedLinks
  }

  /** The bodies with an end of a constrained pair, and no others, take part. */
  method FlagConstrained(bodies: seq<BodyData>, pairs: seq<LinkPair>)
    requires forall i, j | 0 <= i < j < |bodies| :: bodies[i] != bodies[j]
    requires forall p | p in pairs :: EndsExist(bodies, p)
    modifies bodies`hasConstrainedLinks
    ensures Constrained(bodies, pairs)
    ensures forall b | 0 <= b < |bodies| ::
              bodies[b].hasConstrainedLinks <==> exists k | 0 <= k < |pairs| :: EndsOn(pairs[k], b)
  {
    for b := 0 to |bodies|
      invariant forall c | 0 <= c < b :: !bodies[c].hasConstrainedLinks
    {
      bodies[b].hasConstrainedLinks := false;
    }
    for i := 0 to |pairs|
      invariant forall b | 0 <= b < |bodies| ::
                  bodies[b].hasConstrainedLinks <==> exists k | 0 <= k < i :: EndsOn(pairs[k], b)
    {
      assert EndsExist(bodies, pairs[i]);
      bodies[pairs[i].end0.body].hasConstrainedLinks := true;
      bodies[pairs[i].end1.body].hasConstrainedLinks := true;
      assert forall b :: EndsOn(pairs[i], b) <==> b == pairs[i].end0.body || b == pairs[i].end1.body;
    }
    forall k | 0 <= k < |pairs|
      ensures EndsExist(bodies, pairs[k])
      ensures bodies[pairs[k].end0.body].hasConstrainedLinks && bodies[pairs[k].end1.body].hasConstrainedLinks
    {
      assert pairs[k] in pairs;
      assert EndsOn(pairs[k], pairs[k].end0.body) && EndsOn(pairs[k], pairs[k].end1.body);
    }
  }

  predicate EndsOn(p: LinkPair, b: int) { p.end0.body == b || p.end1.body == b }

  /** Row r acts between the links of pair p. */
  ghost predicate Acts(bodies: seq<BodyData>, r: Row, p: Skip.LinkPair) {
    && r.end0.body < |bodies| && p.body0 == bodies[r.end0.body] && p.link0 == r.end0.link
    && r.end1.body < |bodies| && p.body1 == bodies[r.end1.body] && p.link1 == r.end1.link
    && p.constraintIndex < INT_MAX
  }

  ghost predicate ActsAmong(bodies: seq<BodyData>, r: Row, pairs: seq<Skip.LinkPair>) {
    exists k | 0 <= k < |pairs| :: Acts(bodies, r, pairs[k])
  }

  ghost predicate Between(r: Row, p: LinkPair) { r.end0 == p.end0 && r.end1 == p.end1 }

  ghost predicate AllBetween(dirs: seq<Direction>, p: LinkPair) {
    forall i | 0 <= i < |dirs| :: Between(dirs[i].row, p)
  }

  lemma PointRowsBetween(p: LinkPair, c: ConstraintPoint, n: nat)
    ensures AllBetween(DirectionsAt(p.end0, p.end1, c, n), p)
  {
    var dirs: seq<Direction> := DirectionsAt(p.end0, p.end1, c, n);
    forall i | 0 <= i < |dirs| ensures Between(dirs[i].row, p) {
      if i > 0 {
        assert dirs[i]
            == Direction(Row(p.end0, p.end1, c.point, c.FrictionVector(i - 1)), n + c.globalFrictionIndex + (i - 1));
      }
    }
  }

  lemma {:induction false} PairRowsBetween(p: LinkPair, points: seq<ConstraintPoint>, n: nat)
    ensures AllBetween(PairDirections(p.end0, p.end1, points, n), p)
  {
    if points != [] {
      PairRowsBetween(p, points[..|points| - 1], n);
      PointRowsBetween(p, points[|points| - 1], n);
    }
  }

  lemma {:induction false} RowsBetween(pairs: seq<LinkPair>, n: nat, i: nat)
    requires i < |Directions(pairs, n)|
    ensures exists k | 0 <= k < |pairs| :: Between(Directions(pairs, n)[i].row, pairs[k])
  {
    var k := |pairs| - 1;
    PairRowsBetween(pairs[k], pairs[k].constraintPoints, n);
    if i < |Directions(pairs[..k], n)| {
      RowsBetween(pairs[..k], n, i);
      assert Directions(pairs, n)[i] == Directions(pairs[..k], n)[i];
      var j :| 0 <= j < k && Between(Directions(pairs, n)[i].row, pairs[..k][j]);
      assert pairs[..k][j] == pairs[j];
    } else {
      var own := PairDirections(pairs[k].end0, pairs[k].end1, pairs[k].constraintPoints, n);
      assert AllBetween(own, pairs[k]);
      assert Directions(pairs, n)[i] == own[i - |Directions(pairs[..k], n)|];
      assert Between(Directions(pairs, n)[i].row, pairs[k]);
    }
  }

  /** Numbers that are least over the marks of the pairs leave out no end of their rows. */
  lemma RowsReached(bodies: seq<BodyData>, s: seq<Snapshot>, dirs: seq<Direction>, pairs: seq<Skip.LinkPair>)
    requires World(bodies, s)
    requires forall k | 0 <= k < |pairs| :: Skip.PairFits(bodies, pairs[k])
    requires forall b | b in bodies && b.hasConstrainedLinks :: Skip.Numbered(b, Skip.Marks(pairs))
    requires forall i | 0 <= i < |dirs| :: ActsAmong(bodies, dirs[i].row, pairs)
    ensures AllReached(bodies, dirs) && NumbersGrow(bodies)
  {
    hide World, BodyFits, Skip.Numbered, Skip.Marks, GrowsOutward, Skip.Monotone, EndReached;
    forall b | 0 <= b < |bodies| && Active(bodies[b]) ensures GrowsOutward(bodies[b]) {
      BodiesApart(bodies, s, b);
      assert Skip.Numbered(bodies[b], Skip.Marks(pairs));
      NumbersGrowOn(bodies[b], s[b], pairs);
    }
    forall i | 0 <= i < |dirs| ensures RowReached(bodies, dirs[i].row) {
      assert ActsAmong(bodies, dirs[i].row, pairs);
      var k :| 0 <= k < |pairs| && Acts(bodies, dirs[i].row, pairs[k]);
      var r := dirs[i].row;
      BodiesApart(bodies, s, r.end0.body);
      BodiesApart(bodies, s, r.end1.body);
      assert Skip.PairFits(bodies, pairs[k]);
      EndOfPairReached(bodies[r.end0.body], s[r.end0.body], pairs, pairs[k], r.end0);
      EndOfPairReached(bodies[r.end1.body], s[r.end1.body], pairs, pairs[k], r.end1);
    }
  }

  lemma NumbersGrowOn(body: BodyData, s: Snapshot, pairs: seq<Skip.LinkPair>)
    requires BodyFits(body, s) && Skip.Numbered(body, Skip.Marks(pairs))
    ensures GrowsOutward(body)
  {
    hide Skip.Numbered, Skip.Marks, Skip.Monotone, Represents;
    Skip.NumberedMonotone(body, Skip.Marks(pairs));
  }

  lemma EndOfPairReached(body: BodyData, s: Snapshot, pairs: seq<Skip.LinkPair>, p: Skip.LinkPair, e: End)
    requires BodyFits(body, s) && Skip.Numbered(body, Skip.Marks(pairs)) && p in pairs && p.constraintIndex < INT_MAX
    requires e.link < |body.linksData|
    requires (p.body0 == body && p.link0 == e.link) || (p.body1 == body && p.link1 == e.link)
    ensures EndReached(body, e)
  {
    hide Skip.Numbered, Skip.Marks, Represents, SkippingPass.Reached;
    FitsLinks(body, s);
    SkippingPass.ConstrainedAreReached(body, pairs, p);
  }

  lemma {:induction false} PointAmongAll(pairs: seq<LinkPair>, k: nat, c: ConstraintPoint)
    requires k < |pairs| && c in pairs[k].constraintPoints
    ensures c in AllPoints(pairs)
  {
    if k < |pairs| - 1 {
      PointAmongAll(pairs[..|pairs| - 1], k, c);
    }
  }

  /** The row of a pair's first point is one of the frame's rows. */
  lemma FirstRow(solver: ContactSolver, contacts: nat, k: nat)
    requires solver.Indexed(contacts) && k < |solver.constrainedLinkPairs|
    ensures var points := solver.constrainedLinkPairs[k].constraintPoints;
      points != [] && points[0].globalIndex < solver.globalNumConstraintVectors
  {
    var p, all := solver.constrainedLinkPairs[k], AllPoints(solver.constrainedLinkPairs);
    assert p in solver.constrainedLinkPairs;
    PointAmongAll(solver.constrainedLinkPairs, k, p.constraintPoints[0]);
    var i :| 0 <= i < |all| && all[i] == p.constraintPoints[0];
    if i < contacts {
      assert all[..contacts][i] == all[i];
    } else {
      assert all[contacts..][i - contacts] == all[i];
    }
  }

  /** The directions of a frame, and its pairs as the skip numbers see them. */
  method ListDirections(solver: ContactSolver, bodies: seq<BodyData>)
    returns (dirs: seq<Direction>, skip: seq<Skip.LinkPair>)
    requires solver.Indexed(solver.globalNumContactNormalVectors) && solver.globalNumConstraintVectors < INT_MAX
    requires forall p | p in solver.constrainedLinkPairs :: EndsExist(bodies, p)
    ensures dirs == Directions(solver.constrainedLinkPairs, solver.globalNumConstraintVectors)
    ensures Places(dirs, solver.globalNumConstraintVectors + solver.globalNumFrictionVectors)
    ensures |skip| == |solver.constrainedLinkPairs|
    ensures forall k | 0 <= k < |skip| :: Mirrors(bodies, solver.constrainedLinkPairs[k], skip[k])
    ensures forall i | 0 <= i < |dirs| :: ActsAmong(bodies, dirs[i].row, skip)
  {
    hide ContactSolver.Indexed, Places;
    var pairs, n := solver.constrainedLinkPairs, solver.globalNumConstraintVectors;
    dirs := Directions(pairs, n);
    IndexedPlaces(solver, solver.globalNumContactNormalVectors);
    skip := [];
    while |skip| < |pairs|
      invariant |skip| <= |pairs|
      invariant forall k | 0 <= k < |skip| :: Mirrors(bodies, pairs[k], skip[k])
    {
      assert pairs[|skip|] in pairs;
      FirstRow(solver, solver.globalNumContactNormalVectors, |skip|);
      skip := skip + [SkipPair(bodies, pairs[|skip|])];
    }
    forall i | 0 <= i < |dirs| ensures ActsAmong(bodies, dirs[i].row, skip) {
      RowsBetween(pairs, n, i);
      var k :| 0 <= k < |pairs| && Between(dirs[i].row, pairs[k]);
      assert Mirrors(bodies, pairs[k], skip[k]);
      assert Acts(bodies, dirs[i].row, skip[k]);
    }
  }

  ghost predicate Mirrors(bodies: seq<BodyData>, p: LinkPair, q: Skip.LinkPair) {
    && EndsExist(bodies, p) && q.body0 == bodies[p.end0.body] && q.link0 == p.end0.link
    && q.body1 == bodies[p.end1.body] && q.link1 == p.end1.link && q.constraintIndex < INT_MAX
  }

  /** The matrix of a frame's contact problem, from the rows that its contacts and connections have been
      given: skip numbers, default accelerations, then a test force for every row. */
  method MeasureMatrix(solver: ContactSolver, bodies: seq<BodyData>,
                       solve: (Inertia, Spatial) -> Spatial, ghost s: seq<Snapshot>)
    returns (M: array2<real>, an: array<real>, dirs: seq<Direction>, ghost defaults: seq<DefaultAccel>)
    requires solver.Indexed(solver.globalNumContactNormalVectors) && solver.globalNumConstraintVectors < INT_MAX
    requires World(bodies, s) && Exact(bodies, s, solve) && NoneTested(bodies)
    requires forall p | p in solver.constrainedLinkPairs :: EndsExist(bodies, p)
    modifies bodies`hasConstrainedLinks, bodies`dpf, bodies`dptau, bodies`isTestForceBeingApplied
    modifies Skip.DataOfAll(bodies)
    ensures dirs == Directions(solver.constrainedLinkPairs, solver.globalNumConstraintVectors)
    ensures Places(dirs, solver.globalNumConstraintVectors + solver.globalNumFrictionVectors)
    ensures fresh(M) && fresh(an)
    ensures M.Length0 == M.Length1 == an.Length == solver.globalNumConstraintVectors + solver.globalNumFrictionVectors
    ensures AllRest(bodies, s) && NoneTested(bodies)
    ensures Shaped(bodies, s) && ColumnsHeld(Entries(M), bodies, s, dirs, |dirs|, solve)
    ensures AllDefaults(bodies, s, dirs, defaults, an[..], solve)
    ensures IsSymmetricMatrix(Entries(M))
    ensures HeavyBodies(Models(bodies, s)) ==> Forward(Entries(M), bodies, s, dirs, solve)
  {
    hide ContactSolver.Indexed, World, AllRest, AllReached, AllDefaults, Forward, ColumnsHeld, Places, Exact,
      NoneTested, IsSymmetricMatrix, NumbersGrow, Directions, Mirrors, ActsAmong, Shaped, Models;
    var skip;
    dirs, skip := ListDirections(solver, bodies);
    ObjectsApart(bodies);
    WorldShaped(bodies, s);
    SetSkipNumbers(bodies, solver.constrainedLinkPairs, dirs, skip, s);
    var n := solver.globalNumConstraintVectors + solver.globalNumFrictionVectors;
    M, an, defaults := FillMatrix(bodies, dirs, n, solve, s);
  }

  /** Default accelerations, then a test force for every row. */
  method FillMatrix(bodies: seq<BodyData>, dirs: seq<Direction>, n: nat, solve: (Inertia, Spatial) -> Spatial,
                    ghost s: seq<Snapshot>)
    returns (M: array2<real>, an: array<real>, defaults: seq<DefaultAccel>)
    requires World(bodies, s) && Exact(bodies, s, solve) && NoneTested(bodies)
    requires NumbersGrow(bodies) && AllReached(bodies, dirs)
    requires Places(dirs, n)
    modifies bodies`dpf, bodies`dptau, bodies`isTestForceBeingApplied
    modifies Skip.DataOfAll(bodies)`pf0, Skip.DataOfAll(bodies)`ptau0, Skip.DataOfAll(bodies)`uu0,
        Skip.DataOfAll(bodies)`uu
    modifies Skip.DataOfAll(bodies)`ddq, Skip.DataOfAll(bodies)`dvo, Skip.DataOfAll(bodies)`dw
    ensures fresh(M) && fresh(an) && M.Length0 == M.Length1 == an.Length == n
    ensures AllRest(bodies, s) && NoneTested(bodies)
    ensures Shaped(bodies, s) && ColumnsHeld(Entries(M), bodies, s, dirs, |dirs|, solve)
    ensures AllDefaults(bodies, s, dirs, defaults, an[..], solve)
    ensures IsSymmetricMatrix(Entries(M))
    ensures HeavyBodies(Models(bodies, s)) ==> Forward(Entries(M), bodies, s, dirs, solve)
  {
    hide World, AllRest, AllReached, AllDefaults, Forward, ColumnsHeld, Places, Exact, NoneTested, IsSymmetricMatrix,
      NumbersGrow;
    ObjectsApart(bodies);
    an := new real[n];
    M := new real[n, n];
    assert forall l | l in LinksOfAll(bodies) :: l as object != an;
    assert forall d | d in Skip.DataOfAll(bodies) :: d as object != an;
    defaults := SetDefaultAccelerationVector(bodies, dirs, an, solve, s);
    SetAccelerationMatrix(bodies, dirs, defaults, an[..], M, solve, s);
  }

  /** The bodies that take part, and the skip numbers of their links. */
  method SetSkipNumbers(bodies: seq<BodyData>, pairs: seq<LinkPair>, ghost dirs: seq<Direction>,
                        skip: seq<Skip.LinkPair>, ghost s: seq<Snapshot>)
    requires World(bodies, s) && |skip| == |pairs| && forall k | 0 <= k < |skip| :: Mirrors(bodies, pairs[k], skip[k])
    requires forall i | 0 <= i < |dirs| :: ActsAmong(bodies, dirs[i].row, skip)
    modifies bodies`hasConstrainedLinks, Skip.DataOfAll(bodies)`numberToCheckAccelCalcSkip
    ensures World(bodies, s) && AllReached(bodies, dirs) && NumbersGrow(bodies)
  {
    hide World, BodyFits, Skip.Numbered, Skip.Marks, AllReached, NumbersGrow, BodyData.Valid, Skip.Separate;
    ObjectsApart(bodies);
    SoundWorld(bodies, s);
    forall p | p in pairs ensures EndsExist(bodies, p) {
      var k :| 0 <= k < |pairs| && pairs[k] == p;
      assert Mirrors(bodies, pairs[k], skip[k]);
    }
    FlagConstrained(bodies, pairs);
    forall k | 0 <= k < |skip| ensures Skip.PairFits(bodies, skip[k]) {
      assert Mirrors(bodies, pairs[k], skip[k]);
    }
    SoundWorld(bodies, s);
    Skip.SetAccelCalcSkipInformation(bodies, skip);
    RowsReached(bodies, s, dirs, skip);
  }

  lemma SoundWorld(bodies: seq<BodyData>, s: seq<Snapshot>)
    requires World(bodies, s)
    ensures Skip.Separate(bodies) && forall i, j | 0 <= i < j < |bodies| :: bodies[i] != bodies[j]
    ensures forall i | 0 <= i < |bodies| :: bodies[i].Valid()
  {
    hide BodyData.Valid, Skip.Separate;
  }

  /** The matrix that the solver is given: the measured one, with the singular rows cleared. It has a positive
      diagonal, and is the symmetric matrix that was measured when no row is singular. */
  method SetUpMatrix(solver: ContactSolver, bodies: seq<BodyData>,
                     solve: (Inertia, Spatial) -> Spatial, ghost s: seq<Snapshot>)
    returns (M: array2<real>, an: array<real>, ghost measured: seq<seq<real>>, ghost dirs: seq<Direction>,
             ghost defaults: seq<DefaultAccel>)
    requires solver.Indexed(solver.globalNumContactNormalVectors) && solver.globalNumConstraintVectors < INT_MAX
    requires World(bodies, s) && Exact(bodies, s, solve) && NoneTested(bodies)
    requires forall p | p in solver.constrainedLinkPairs :: EndsExist(bodies, p)
    modifies bodies`hasConstrainedLinks, bodies`dpf, bodies`dptau, bodies`isTestForceBeingApplied
    modifies Skip.DataOfAll(bodies)
    ensures fresh(M) && fresh(an)
    ensures M.Length0 == M.Length1 == an.Length == solver.globalNumConstraintVectors + solver.globalNumFrictionVectors
    ensures dirs == Directions(solver.constrainedLinkPairs, solver.globalNumConstraintVectors)
    ensures Places(dirs, solver.globalNumConstraintVectors + solver.globalNumFrictionVectors)
    ensures IsSquare(measured) && IsSymmetricMatrix(measured) && Shaped(bodies, s)
    ensures ColumnsHeld(measured, bodies, s, dirs, |dirs|, solve)
    ensures AllDefaults(bodies, s, dirs, defaults, an[..], solve)
    ensures HeavyBodies(Models(bodies, s)) ==> Forward(measured, bodies, s, dirs, solve)
    ensures Entries(M) == ClearedMatrix(measured) && forall i | 0 <= i < M.Length0 :: M[i, i] >= SMALL
    ensures (forall i | 0 <= i < |measured| :: measured[i][i] >= SMALL) ==> Entries(M) == measured
  {
    hide World, Exact, NoneTested, Forward, ContactSolver.Indexed, ColumnsHeld, Places, AllRest, AllDefaults,
      IsSymmetricMatrix;
    M, an, dirs, defaults := MeasureMatrix(solver, bodies, solve, s);
    measured := Entries(M);
    ClearSingularPointConstraintsOfClosedLoopConnections(M);
    ClearedIsDivisible(measured);
    ghost var cleared := Entries(M);
    forall i | 0 <= i < M.Length0 ensures M[i, i] >= SMALL { assert cleared[i][i] == M[i, i]; }
    if forall i | 0 <= i < |measured| :: measured[i][i] >= SMALL {
      forall j | 0 <= j < |measured| ensures cleared[j] == measured[j] {}
    }
  }

  // ---- points of links ----

  /** The velocity and the acceleration that contacts take for a point are those of a point of the link as a rigid
      body, from the velocity and the acceleration of its origin. */
  lemma PointOfLink(l: Link, p: Vec3)
    requires Timed(l)
    ensures PointVelocity(VelocityOf(l), p) == Add(l.v, Cross(l.w, Sub(p, l.p)))
    ensures PointAccel(Acceleration(l), l.w, l.vo, p)
         == Add(OriginAcceleration(l), Swung(l.w, l.dw, Sub(p, l.p)))
  {
    hide Cross, Swung;
    CrossSub(l.w, p, l.p);
    ArmAcceleration(l.vo, l.w, l.dvo, l.dw, p, l.p);
    CrossTurns(p, l.dw);
  }
}
