/** What all the forces of a contact problem do together: along each row they add to the acceleration what the measured
    matrix says. No response to more than one row is ever measured. */
module Superposition {
  import opened LinearAlgebra
  import opened Links
  import opened ArticulatedBody
  import opened SplitPasses
  import opened PositiveInertia
  import opened ForwardDynamicsABM
  import opened RigidLinks
  import opened Sums
  import opened TestForce
  import opened Reciprocity
  import opened ConstraintMatrix
  import opened ConstraintForces
  import opened SkipNumbers
  import opened AccelerationMatrix

  // ---- the forces on the links ----

  /** What row r does to a link of a body, which may be at both of its ends. */
  function PushAt(r: Row, e: End): Spatial {
    Plus(if r.end0 == e then r.Push0() else ZERO6, if r.end1 == e then r.Push1() else ZERO6)
  }

  predicate Within(dirs: seq<Direction>, n: nat) { forall i | 0 <= i < |dirs| :: 0 <= dirs[i].index < n }

  /** The force on a link: of every direction its share in x. */
  function LoadAt(dirs: seq<Direction>, x: seq<real>, e: End): Spatial
    requires Within(dirs, |x|)
  {
    if dirs == [] then ZERO6
    else
      var k := |dirs| - 1;
      Plus(LoadAt(dirs[..k], x, e), Times(x[dirs[k].index], PushAt(dirs[k].row, e)))
  }

  /** The forces on the n links of body b. */
  function LoadOf(dirs: seq<Direction>, x: seq<real>, b: nat, n: nat): (f: seq<Spatial>)
    requires Within(dirs, |x|)
    ensures |f| == n
  {
    seq(n, j requires 0 <= j < n => LoadAt(dirs, x, End(b, j)))
  }

  lemma RowLoad(r: Row, b: nat, n: nat, j: nat)
    requires j < n
    ensures LoadOn(r, b, n)[j] == PushAt(r, End(b, j))
  {
    hide Plus, Wrench, Neg;
  }

  // ---- their work ----

  lemma {:induction false} WorkScales(t: Shape, s: real, f: seq<Spatial>, h: seq<Spatial>, a: seq<Spatial>, k: int)
    requires t.Valid() && |f| == |h| == |a| == |t.parent| && t.IsPointer(k)
    requires forall j | 0 <= j < |a| :: h[j] == Times(s, f[j])
    ensures Work(t, h, a, k) == Product(s, Work(t, f, a, k))
    decreases if k == -1 then 0 else |a| - k
  {
    hide Inner, Times, Product;
    if k == -1 {
      ProductUnits(s);
    } else {
      WorkScales(t, s, f, h, a, t.child[k]);
      WorkScales(t, s, f, h, a, t.sibling[k]);
      InnerComm(h[k], a[k]);
      InnerComm(f[k], a[k]);
      InnerTimes(a[k], s, f[k]);
      ProductAdd(s, Inner(f[k], a[k]), Work(t, f, a, t.child[k]));
      ProductAdd(s, Inner(f[k], a[k]) + Work(t, f, a, t.child[k]), Work(t, f, a, t.sibling[k]));
    }
  }

  /** The last direction adds its share of its row's work. */
  lemma LoadWorkStep(t: Shape, dirs: seq<Direction>, x: seq<real>, b: nat, a: seq<Spatial>)
    requires t.Valid() && |a| == |t.parent| && Within(dirs, |x|) && dirs != []
    ensures var k := |dirs| - 1;
      Work(t, LoadOf(dirs, x, b, |a|), a, 0)
      == Work(t, LoadOf(dirs[..k], x, b, |a|), a, 0)
         + Product(x[dirs[k].index], Work(t, LoadOn(dirs[k].row, b, |a|), a, 0))
  {
    hide Work, Times, Product, Plus, PushAt;
    var k, n := |dirs| - 1, |a|;
    var own := LoadOn(dirs[k].row, b, n);
    var share := seq(n, j requires 0 <= j < n => Times(x[dirs[k].index], own[j]));
    WorkScales(t, x[dirs[k].index], own, share, a, 0);
    forall j | 0 <= j < n ensures LoadOf(dirs, x, b, n)[j] == Plus(LoadOf(dirs[..k], x, b, n)[j], share[j]) {
      RowLoad(dirs[k].row, b, n, j);
    }
    WorkAdds(t, LoadOf(dirs[..k], x, b, n), share, LoadOf(dirs, x, b, n), a, 0);
  }

  /** The work of all the forces along d, over the first n bodies. */
  ghost function LoadsWork(bodies: seq<BodyModel>, dirs: seq<Direction>, x: seq<real>, d: seq<Motion>, n: nat): real
    requires n <= |bodies| == |d| && Within(dirs, |x|)
    requires forall b | 0 <= b < n :: Fits(bodies[b].tree, bodies[b].links) && |d[b].a| == |bodies[b].links|
  {
    if n == 0 then 0.0 else LoadsWork(bodies, dirs, x, d, n - 1) + LoadWork(bodies, dirs, x, d, n - 1)
  }

  /** What all the forces do on body b along motion d. */
  ghost function LoadWork(bodies: seq<BodyModel>, dirs: seq<Direction>, x: seq<real>, d: seq<Motion>, b: nat): real
    requires b < |bodies| == |d| && Fits(bodies[b].tree, bodies[b].links) && |d[b].a| == |bodies[b].links|
    requires Within(dirs, |x|)
  {
    Work(bodies[b].tree, LoadOf(dirs, x, b, |d[b].a|), d[b].a, 0)
  }

  lemma {:induction false} LoadsWorkStep(bodies: seq<BodyModel>, dirs: seq<Direction>, x: seq<real>, d: seq<Motion>,
                                         n: nat)
    requires n <= |bodies| == |d| && Within(dirs, |x|) && dirs != []
    requires forall b | 0 <= b < n :: Fits(bodies[b].tree, bodies[b].links) && |d[b].a| == |bodies[b].links|
    ensures var k := |dirs| - 1;
      LoadsWork(bodies, dirs, x, d, n)
      == LoadsWork(bodies, dirs[..k], x, d, n) + Product(x[dirs[k].index], TotalWork(bodies, dirs[k].row, d, n))
  {
    hide Work, LoadOf, LoadOn, Product;
    var k := |dirs| - 1;
    if n == 0 {
      ProductUnits(x[dirs[k].index]);
    } else {
      LoadsWorkStep(bodies, dirs, x, d, n - 1);
      LoadWorkStep(bodies[n - 1].tree, dirs, x, n - 1, d[n - 1].a);
      ProductAdd(x[dirs[k].index], TotalWork(bodies, dirs[k].row, d, n - 1), RowWork(bodies, dirs[k].row, d, n - 1));
    }
  }

  lemma {:induction false} NoLoadsWork(bodies: seq<BodyModel>, x: seq<real>, d: seq<Motion>, n: nat)
    requires n <= |bodies| == |d|
    requires forall b | 0 <= b < n :: Fits(bodies[b].tree, bodies[b].links) && |d[b].a| == |bodies[b].links|
    ensures LoadsWork(bodies, [], x, d, n) == 0.0
  {
    hide Work;
    if n > 0 {
      NoLoadsWork(bodies, x, d, n - 1);
      WorkOfNothing(bodies[n - 1].tree, LoadOf([], x, n - 1, |d[n - 1].a|), d[n - 1].a, 0);
    }
  }

  /** The entries of c at the places of the directions, each with its share in x. */
  ghost function Gathered(dirs: seq<Direction>, x: seq<real>, c: seq<real>): real
    requires |c| == |x| && Within(dirs, |x|)
  {
    if dirs == [] then 0.0
    else
      var k := |dirs| - 1;
      Gathered(dirs[..k], x, c) + Product(c[dirs[k].index], x[dirs[k].index])
  }

  /** c holds, at the place of each direction, what motion d does to its row. */
  ghost predicate Column(bodies: seq<BodyModel>, dirs: seq<Direction>, d: seq<Motion>, c: seq<real>) {
    forall i | 0 <= i < |dirs| ::
      0 <= dirs[i].index < |c| && RowIn(bodies, dirs[i].row) && IsEntry(dirs[i].row, d, c[dirs[i].index])
  }

  lemma {:induction false} LoadsWorkIs(bodies: seq<BodyModel>, dirs: seq<Direction>, x: seq<real>, d: seq<Motion>,
                                       c: seq<real>)
    requires |d| == |bodies| && |c| == |x| && Column(bodies, dirs, d, c)
    requires forall b | 0 <= b < |bodies| :: Fits(bodies[b].tree, bodies[b].links) && |d[b].a| == |bodies[b].links|
    ensures Within(dirs, |x|) && LoadsWork(bodies, dirs, x, d, |bodies|) == Gathered(dirs, x, c)
  {
    hide LoadsWork, TotalWork, Inner, Product, Fits;
    if dirs == [] {
      NoLoadsWork(bodies, x, d, |bodies|);
    } else {
      var k := |dirs| - 1;
      LoadsWorkIs(bodies, dirs[..k], x, d, c);
      LoadsWorkStep(bodies, dirs, x, d, |bodies|);
      TotalWorkIs(bodies, dirs[k].row, d, |bodies|);
      ProductComm(c[dirs[k].index], x[dirs[k].index]);
    }
  }

  // ---- they act as the matrix says ----

  /** e holds the response of every body to all the forces together. */
  ghost predicate RespondsToLoads(bodies: seq<BodyModel>, dirs: seq<Direction>, x: seq<real>, e: seq<Motion>)
    requires Bodies(bodies) && Within(dirs, |x|)
  {
    && |e| == |bodies|
    && forall b | 0 <= b < |bodies| ::
         Responds(bodies[b].tree, bodies[b].links, LoadOf(dirs, x, b, |bodies[b].links|), e[b])
  }

  lemma {:induction false} LoadsExchange(bodies: seq<BodyModel>, dirs: seq<Direction>, x: seq<real>, e: seq<Motion>,
                                         r: Row, d: seq<Motion>, n: nat)
    requires Bodies(bodies) && Within(dirs, |x|) && RespondsToLoads(bodies, dirs, x, e) && RespondsToRow(bodies, r, d)
    requires n <= |bodies| && forall b | 0 <= b < |bodies| :: |d[b].a| == |e[b].a| == |bodies[b].links|
    ensures TotalWork(bodies, r, e, n) == LoadsWork(bodies, dirs, x, d, n)
  {
    hide Responds, Work, LoadOn, LoadOf, Sound, Fits;
    if n > 0 {
      LoadsExchange(bodies, dirs, x, e, r, d, n - 1);
      var t, y := bodies[n - 1].tree, bodies[n - 1].links;
      SoundReciprocal(t, y, LoadOn(r, n - 1, |y|), d[n - 1], LoadOf(dirs, x, n - 1, |y|), e[n - 1]);
    }
  }

  lemma LoadResponsesFit(bodies: seq<BodyModel>, dirs: seq<Direction>, x: seq<real>, e: seq<Motion>)
    requires Bodies(bodies) && Within(dirs, |x|) && RespondsToLoads(bodies, dirs, x, e)
    ensures |e| == |bodies|
    ensures forall b | 0 <= b < |bodies| :: Fits(bodies[b].tree, bodies[b].links) && |e[b].a| == |bodies[b].links|
  {
    hide Sound;
  }

  /** Superposition: a row answers all the forces together as it answers them one by one. */
  lemma Superposes(bodies: seq<BodyModel>, dirs: seq<Direction>, x: seq<real>, e: seq<Motion>, r: Row, d: seq<Motion>,
                   c: seq<real>)
    requires Bodies(bodies) && RespondsToRow(bodies, r, d) && RowIn(bodies, r)
    requires |c| == |x| && Column(bodies, dirs, d, c) && Within(dirs, |x|) && RespondsToLoads(bodies, dirs, x, e)
    ensures |e| == |bodies| && EndMoves(r.end0, e) && EndMoves(r.end1, e)
    ensures Entry(r, e) == Gathered(dirs, x, c)
  {
    hide Inner, Bodies, RespondsToRow, RespondsToLoads, TotalWork, LoadsWork, Column, Fits;
    ResponsesFit(bodies, r, d);
    LoadResponsesFit(bodies, dirs, x, e);
    LoadsExchange(bodies, dirs, x, e, r, d, |bodies|);
    LoadsWorkIs(bodies, dirs, x, d, c);
    TotalWorkIs(bodies, r, e, |bodies|);
  }

  // ---- the sum over the directions is the sum over the places ----

  /** x at the places of the directions, and nothing elsewhere. */
  ghost function Placed(dirs: seq<Direction>, x: seq<real>): (y: seq<real>)
    ensures |y| == |x| && forall k | 0 <= k < |x| :: y[k] == if Filled(dirs, k) then x[k] else 0.0
  {
    seq(|x|, k requires 0 <= k < |x| => if Filled(dirs, k) then x[k] else 0.0)
  }

  lemma {:induction false} GatheredIs(dirs: seq<Direction>, x: seq<real>, c: seq<real>)
    requires |c| == |x| && Within(dirs, |x|)
    requires forall i, j | 0 <= i < j < |dirs| :: dirs[i].index != dirs[j].index
    ensures Gathered(dirs, x, c) == SeqDot(c, Placed(dirs, x))
  {
    hide Product, SeqDot;
    if dirs == [] {
      NothingPlaced(c, Placed(dirs, x));
    } else {
      var k, y := |dirs| - 1, Placed(dirs[..|dirs| - 1], x);
      var p := dirs[k].index;
      GatheredIs(dirs[..k], x, c);
      SeqDotUpdate(c, y, p, x[p]);
      forall q | 0 <= q < |x| ensures Placed(dirs, x)[q] == y[p := y[p] + x[p]][q] {
        FilledStep(dirs, q);
      }
      assert Placed(dirs, x) == y[p := y[p] + x[p]];
    }
  }

  lemma FilledStep(dirs: seq<Direction>, q: int)
    requires dirs != []
    ensures var k := |dirs| - 1; Filled(dirs, q) <==> Filled(dirs[..k], q) || dirs[k].index == q
  {
    var k := |dirs| - 1;
    if Filled(dirs[..k], q) {
      var i :| 0 <= i < k && dirs[..k][i].index == q;
      assert dirs[i].index == q;
    }
    if Filled(dirs, q) && dirs[k].index != q {
      var i :| 0 <= i < |dirs| && dirs[i].index == q;
      assert dirs[..k][i].index == q;
    }
  }

  lemma {:induction false} NothingPlaced(c: seq<real>, y: seq<real>)
    requires |c| == |y| && forall k | 0 <= k < |y| :: y[k] == 0.0
    ensures SeqDot(c, y) == 0.0
  {
    hide Product;
    if c != [] {
      NothingPlaced(c[..|c| - 1], y[..|y| - 1]);
      ProductUnits(c[|c| - 1]);
    }
  }

  lemma GatheredAll(dirs: seq<Direction>, x: seq<real>, c: seq<real>)
    requires |c| == |x| && Places(dirs, |x|)
    ensures Within(dirs, |x|) && Gathered(dirs, x, c) == SeqDot(c, x)
  {
    GatheredIs(dirs, x, c);
    assert Placed(dirs, x) == x;
  }

  // ---- the bodies under all the forces ----

  /** The links of the bodies with all the forces added to their external forces. */
  ghost function Under(s: seq<Snapshot>, dirs: seq<Direction>, x: seq<real>): (r: seq<Snapshot>)
    requires Within(dirs, |x|)
    ensures |r| == |s|
    ensures forall b | 0 <= b < |s| :: r[b] == UnderAt(s[b], dirs, x, b)
  {
    seq(|s|, b requires 0 <= b < |s| => UnderAt(s[b], dirs, x, b))
  }

  ghost function UnderAt(s: Snapshot, dirs: seq<Direction>, x: seq<real>, b: nat): Snapshot
    requires Within(dirs, |x|)
  {
    s.(z := WithForces(s.z, LoadOf(dirs, x, b, |s.z|)), x := WithForces(s.x, LoadOf(dirs, x, b, |s.x|)))
  }

  /** The motion that all the forces together add to each body. */
  ghost function LoadsMotion(bodies: seq<BodyData>, s: seq<Snapshot>, dirs: seq<Direction>, x: seq<real>,
                             solve: (Inertia, Spatial) -> Spatial): (e: seq<Motion>)
    requires Shaped(bodies, s) && Within(dirs, |x|)
    ensures |e| == |bodies| && forall b | 0 <= b < |bodies| :: |e[b].a| == |s[b].x|
  {
    seq(|bodies|, b requires 0 <= b < |bodies| =>
      if bodies[b].isStatic then Still(|s[b].x|)
      else Added(bodies[b].tree, s[b].x, LoadOf(dirs, x, b, |s[b].x|), solve))
  }

  lemma LoadsMotionResponds(bodies: seq<BodyData>, s: seq<Snapshot>, dirs: seq<Direction>, x: seq<real>,
                            solve: (Inertia, Spatial) -> Spatial)
    requires World(bodies, s) && Exact(bodies, s, solve) && Within(dirs, |x|)
    ensures Shaped(bodies, s) && Bodies(Models(bodies, s))
    ensures RespondsToLoads(Models(bodies, s), dirs, x, LoadsMotion(bodies, s, dirs, x, solve))
  {
    hide BodyData.Valid, States, Resupplied, Prepared, Regular, RootSolvable, Anchored, Separate, Responds, Added,
      Still, LoadOf;
    WorldShaped(bodies, s);
    forall b | 0 <= b < |bodies|
      ensures Responds(bodies[b].tree, s[b].x, LoadOf(dirs, x, b, |s[b].x|), LoadsMotion(bodies, s, dirs, x, solve)[b])
    {
      var f := LoadOf(dirs, x, b, |s[b].x|);
      if bodies[b].isStatic {
        StillResponds(bodies[b].tree, s[b].x, f);
      } else {
        AddedResponds(bodies[b].tree, s[b].x, f, solve);
      }
    }
  }

  /** Along n, a point of an end accelerates under all the forces by the motion that they add. */
  lemma EndUnder(bodies: seq<BodyData>, s: seq<Snapshot>, dirs: seq<Direction>, x: seq<real>,
                 solve: (Inertia, Spatial) -> Spatial, e: End, p: Vec3, n: Vec3)
    requires Shaped(bodies, s) && Within(dirs, |x|) && e.body < |bodies| && e.link < |s[e.body].x|
    requires bodies[e.body].isStatic || |s[e.body].vel| == |s[e.body].x|
    ensures Fits(bodies[e.body].tree, UnderAt(s[e.body], dirs, x, e.body).x)
    ensures Dot(n, DefaultAt(bodies[e.body], UnderAt(s[e.body], dirs, x, e.body), e, p, solve))
         == Dot(n, DefaultAt(bodies[e.body], s[e.body], e, p, solve))
            + Inner(Wrench(p, n), LoadsMotion(bodies, s, dirs, x, solve)[e.body].a[e.link])
  {
    hide Dot, Inner, Wrench, PointAccel, LoadOf, Plus, Minus, Inbound, Accelerations;
    var body, t := bodies[e.body], s[e.body];
    if body.isStatic {
      InnerZero(Wrench(p, n));
    } else {
      var f := LoadOf(dirs, x, e.body, |t.x|);
      var before, after := Before(body.tree, t.x, solve, e.link), Before(body.tree, WithForces(t.x, f), solve, e.link);
      var change := Added(body.tree, t.x, f, solve).a[e.link];
      PlusMinus(before, after);
      assert after == Plus(before, change);
      PointAccelChange(n, before, change, t.vel[e.link].w, t.vel[e.link].v, p);
    }
  }

  /** The points of row r accelerate by a against each other. */
  ghost predicate RowAccelerates(bodies: seq<BodyData>, s: seq<Snapshot>, r: Row, a: real,
                                 solve: (Inertia, Spatial) -> Spatial)
  {
    exists def :: HasDefaults(bodies, s, r, def, a, solve)
  }

  lemma RowUnder(bodies: seq<BodyData>, s: seq<Snapshot>, dirs: seq<Direction>, x: seq<real>,
                 solve: (Inertia, Spatial) -> Spatial, r: Row, def: DefaultAccel, a: real)
    requires World(bodies, s) && Within(dirs, |x|) && HasDefaults(bodies, s, r, def, a, solve)
    ensures Shaped(bodies, s)
    ensures var e := LoadsMotion(bodies, s, dirs, x, solve);
      EndMoves(r.end0, e) && EndMoves(r.end1, e)
      && RowAccelerates(bodies, Under(s, dirs, x), r, a + Entry(r, e), solve)
  {
    hide BodyData.Valid, States, Taken, Anchored, Separate, AtVelocities, DefaultAt, Dot, Inner, Wrench, LoadOf, Sub,
      Neg, LoadsMotion, WithForces;
    var i, j := r.end0.body, r.end1.body;
    var u, e := Under(s, dirs, x), LoadsMotion(bodies, s, dirs, x, solve);
    VelocitiesFit(bodies, s, i);
    VelocitiesFit(bodies, s, j);
    EndUnder(bodies, s, dirs, x, solve, r.end0, r.point, r.dir);
    EndUnder(bodies, s, dirs, x, solve, r.end1, r.point, r.dir);
    UnderShaped(bodies, s, dirs, x);
    var on0 := DefaultAt(bodies[i], u[i], r.end0, r.point, solve);
    var on1 := DefaultAt(bodies[j], u[j], r.end1, r.point, solve);
    DotSub(r.dir, on1, on0);
    DotSub(r.dir, def.on1, def.on0);
    PushBack(r, e[i].a[r.end0.link]);
    assert HasDefaults(bodies, u, r, DefaultAccel(on0, on1), a + Entry(r, e), solve);
  }

  lemma VelocitiesFit(bodies: seq<BodyData>, s: seq<Snapshot>, b: nat)
    requires World(bodies, s) && b < |bodies|
    ensures |bodies| == |s| && (bodies[b].isStatic || |s[b].vel| == |s[b].x|)
  {
    hide Represents, States, Taken, Anchored, Separate;
  }

  lemma UnderShaped(bodies: seq<BodyData>, s: seq<Snapshot>, dirs: seq<Direction>, x: seq<real>)
    requires Shaped(bodies, s) && Within(dirs, |x|)
    ensures Shaped(bodies, Under(s, dirs, x))
    ensures forall b | 0 <= b < |s| :: |Under(s, dirs, x)[b].x| == |s[b].x|
  {
    hide LoadOf;
  }

  /** All rows accelerate, under the forces x, as without them and by their rows of the matrix times x. */
  ghost predicate AllMove(bodies: seq<BodyData>, s: seq<Snapshot>, dirs: seq<Direction>, x: seq<real>,
                          M: seq<seq<real>>, an: seq<real>, solve: (Inertia, Spatial) -> Spatial)
  {
    && Within(dirs, |x|) && IsSquare(M) && |M| == |an| == |x|
    && forall i | 0 <= i < |dirs| :: MovesAt(bodies, s, dirs, x, M, an, solve, i)
  }

  ghost predicate MovesAt(bodies: seq<BodyData>, s: seq<Snapshot>, dirs: seq<Direction>, x: seq<real>,
                          M: seq<seq<real>>, an: seq<real>, solve: (Inertia, Spatial) -> Spatial, i: nat)
    requires Within(dirs, |x|) && IsSquare(M) && |M| == |an| == |x| && i < |dirs|
  {
    var k := dirs[i].index;
    RowAccelerates(bodies, Under(s, dirs, x), dirs[i].row, an[k] + SeqDot(M[k], x), solve)
  }

  lemma ForcesMoveRow(bodies: seq<BodyData>, s: seq<Snapshot>, dirs: seq<Direction>, x: seq<real>, M: seq<seq<real>>,
                      def: DefaultAccel, an: seq<real>, solve: (Inertia, Spatial) -> Spatial, i: nat)
    requires World(bodies, s) && Exact(bodies, s, solve) && Shaped(bodies, s) && Places(dirs, |x|)
    requires IsSquare(M) && |M| == |an| == |x| && i < |dirs| && Within(dirs, |x|)
    requires RowIn(Models(bodies, s), dirs[i].row)
    requires Column(Models(bodies, s), dirs, RowMotion(bodies, s, dirs[i].row, solve), M[dirs[i].index])
    requires HasDefaults(bodies, s, dirs[i].row, def, an[dirs[i].index], solve)
    ensures MovesAt(bodies, s, dirs, x, M, an, solve, i)
  {
    hide World, Exact, RowAccelerates, Entry, LoadsMotion, RowMotion, SeqDot, HasDefaults, Bodies, Models, RowIn,
      RespondsToRow, RespondsToLoads, Column, Places, Under;
    var d, c := RowMotion(bodies, s, dirs[i].row, solve), M[dirs[i].index];
    RowUnder(bodies, s, dirs, x, solve, dirs[i].row, def, an[dirs[i].index]);
    LoadsMotionResponds(bodies, s, dirs, x, solve);
    RowMotionResponds(bodies, s, dirs[i].row, solve);
    Superposes(Models(bodies, s), dirs, x, LoadsMotion(bodies, s, dirs, x, solve), dirs[i].row, d, c);
    GatheredAll(dirs, x, c);
  }

  /** The measured matrix says what all the forces do together, although each was tested by itself. */
  lemma ForcesMove(bodies: seq<BodyData>, s: seq<Snapshot>, dirs: seq<Direction>, x: seq<real>, M: seq<seq<real>>,
                   defaults: seq<DefaultAccel>, an: seq<real>, solve: (Inertia, Spatial) -> Spatial)
    requires World(bodies, s) && Exact(bodies, s, solve) && Shaped(bodies, s) && Places(dirs, |x|)
    requires IsSquare(M) && |M| == |x| && IsSymmetricMatrix(M) && ColumnsHeld(M, bodies, s, dirs, |dirs|, solve)
    requires AllDefaults(bodies, s, dirs, defaults, an, solve)
    ensures AllMove(bodies, s, dirs, x, M, an, solve)
  {
    hide World, Exact, MovesAt, RowMotion, HasDefaults, ColumnsHeld, Models, RowIn, Column, IsSymmetricMatrix;
    forall i | 0 <= i < |dirs| ensures MovesAt(bodies, s, dirs, x, M, an, solve, i) {
      ColumnOfMatrix(bodies, s, dirs, M, solve, i);
      ForcesMoveRow(bodies, s, dirs, x, M, defaults[i], an, solve, i);
    }
  }

  lemma MovedIsIn(bodies: seq<BodyData>, s: seq<Snapshot>, r: Row, d: seq<Motion>)
    requires Shaped(bodies, s) && |d| == |bodies| && forall b | 0 <= b < |d| :: |d[b].a| == |s[b].x|
    requires EndMoves(r.end0, d) && EndMoves(r.end1, d)
    ensures RowIn(Models(bodies, s), r)
  {}

  /** By symmetry, a row of the matrix holds what its direction's force does to all the others. */
  lemma ColumnOfMatrix(bodies: seq<BodyData>, s: seq<Snapshot>, dirs: seq<Direction>, M: seq<seq<real>>,
                       solve: (Inertia, Spatial) -> Spatial, i: nat)
    requires Shaped(bodies, s) && Places(dirs, |M|) && IsSquare(M) && IsSymmetricMatrix(M) && i < |dirs|
    requires ColumnsHeld(M, bodies, s, dirs, |dirs|, solve)
    ensures RowIn(Models(bodies, s), dirs[i].row)
    ensures Column(Models(bodies, s), dirs, RowMotion(bodies, s, dirs[i].row, solve), M[dirs[i].index])
  {
    hide Entry, RowMotion, RowIn, Models, Shaped;
    var d, k := RowMotion(bodies, s, dirs[i].row, solve), dirs[i].index;
    assert ColumnHeld(M, dirs, k, d);
    forall j | 0 <= j < |dirs|
      ensures 0 <= dirs[j].index < |M|
      ensures RowIn(Models(bodies, s), dirs[j].row) && IsEntry(dirs[j].row, d, M[k][dirs[j].index])
    {
      assert HoldsEntry(M, dirs[j], k, d);
      assert M[k][dirs[j].index] == M[dirs[j].index][k];
      MovedIsIn(bodies, s, dirs[j].row, d);
    }
  }
}
