/** Putting the solved forces on the links: at each point the force of its normal and of its friction directions, and
    the torque that it has around the world origin. */
module ConstraintLoads {
  import opened LinearAlgebra
  import opened Links
  import opened ArticulatedBody
  import opened SplitPasses
  import opened ForwardDynamicsABM
  import opened RigidLinks
  import opened TestForce
  import opened ConstraintForces
  import Skip = SkipNumbers
  import opened Reciprocity
  import opened ConstraintMatrix
  import opened AccelerationMatrix
  import opened ContactIndices
  import opened MatrixRows
  import opened ContactProblem
  import opened Superposition

  // ---- the force on one end of a pair ----

  function Push(r: Row, second: bool): Spatial { if second then r.Push1() else r.Push0() }

  /** Of every direction its share in x, as it pushes the one end. */
  function PushSum(dirs: seq<Direction>, x: seq<real>, second: bool): Spatial
    requires Within(dirs, |x|)
  {
    if dirs == [] then ZERO6
    else
      var k := |dirs| - 1;
      Plus(PushSum(dirs[..k], x, second), Times(x[dirs[k].index], Push(dirs[k].row, second)))
  }

  lemma {:induction false} PushSumAppend(a: seq<Direction>, b: seq<Direction>, x: seq<real>, second: bool)
    requires Within(a + b, |x|)
    ensures Within(a, |x|) && Within(b, |x|)
    ensures PushSum(a + b, x, second) == Plus(PushSum(a, x, second), PushSum(b, x, second))
  {
    hide Plus, Times, Push;
    WithinParts(a, b, |x|);
    if b == [] {
      assert a + b == a;
      PlusNothing(PushSum(a, x, second));
    } else {
      var k := |b| - 1;
      assert (a + b)[..|a + b| - 1] == a + b[..k];
      PushSumAppend(a, b[..k], x, second);
      PlusAssociative(PushSum(a, x, second), PushSum(b[..k], x, second), Times(x[b[k].index], Push(b[k].row, second)));
    }
  }

  lemma WithinParts(a: seq<Direction>, b: seq<Direction>, n: nat)
    ensures Within(a + b, n) <==> Within(a, n) && Within(b, n)
  {
    if Within(a + b, n) {
      assert forall i | 0 <= i < |a| :: a[i] == (a + b)[i];
      assert forall i | 0 <= i < |b| :: b[i] == (a + b)[|a| + i];
    }
  }

  /** The load of the directions of one pair is what they push its two ends with. */
  lemma {:induction false} LoadOfPair(dirs: seq<Direction>, x: seq<real>, p: LinkPair, e: End)
    requires Within(dirs, |x|) && AllBetween(dirs, p)
    ensures LoadAt(dirs, x, e)
         == Plus(if p.end0 == e then PushSum(dirs, x, false) else ZERO6,
                 if p.end1 == e then PushSum(dirs, x, true) else ZERO6)
  {
    hide Plus, Times, Row.Push0, Row.Push1;
    PlusNothing(ZERO6);
    if dirs != [] {
      var k := |dirs| - 1;
      LoadOfPair(dirs[..k], x, p, e);
      assert Between(dirs[k].row, p);
      SharesOfEnds(x[dirs[k].index], dirs[k].row, e, PushSum(dirs[..k], x, false), PushSum(dirs[..k], x, true));
    }
  }

  lemma SharesOfEnds(s: real, r: Row, e: End, a: Spatial, b: Spatial)
    ensures Plus(Plus(if r.end0 == e then a else ZERO6, if r.end1 == e then b else ZERO6), Times(s, PushAt(r, e)))
         == Plus(if r.end0 == e then Plus(a, Times(s, r.Push0())) else ZERO6,
                 if r.end1 == e then Plus(b, Times(s, r.Push1())) else ZERO6)
  {
    hide Plus, Times, Row.Push0, Row.Push1;
    var f, g := if r.end0 == e then r.Push0() else ZERO6, if r.end1 == e then r.Push1() else ZERO6;
    TimesPlus(s, f, g);
    TimesNothing(s);
    PlusNothing(ZERO6);
    PlusCross(if r.end0 == e then a else ZERO6, if r.end1 == e then b else ZERO6, Times(s, f), Times(s, g));
  }

  lemma TimesPlus(s: real, f: Spatial, g: Spatial)
    ensures Times(s, Plus(f, g)) == Plus(Times(s, f), Times(s, g))
  {
    hide Product;
    ProductAdd(s, f.v.x, g.v.x);
    ProductAdd(s, f.v.y, g.v.y);
    ProductAdd(s, f.v.z, g.v.z);
    ProductAdd(s, f.w.x, g.w.x);
    ProductAdd(s, f.w.y, g.w.y);
    ProductAdd(s, f.w.z, g.w.z);
  }

  lemma TimesNothing(s: real)
    ensures Times(s, ZERO6) == ZERO6
  {}

  lemma {:induction false} LoadAtAppend(a: seq<Direction>, b: seq<Direction>, x: seq<real>, e: End)
    requires Within(a + b, |x|)
    ensures Within(a, |x|) && Within(b, |x|)
    ensures LoadAt(a + b, x, e) == Plus(LoadAt(a, x, e), LoadAt(b, x, e))
  {
    hide Plus, Times, PushAt;
    WithinParts(a, b, |x|);
    if b == [] {
      assert a + b == a;
      PlusNothing(LoadAt(a, x, e));
    } else {
      var k := |b| - 1;
      assert (a + b)[..|a + b| - 1] == a + b[..k];
      LoadAtAppend(a, b[..k], x, e);
      PlusAssociative(LoadAt(a, x, e), LoadAt(b[..k], x, e), Times(x[b[k].index], PushAt(b[k].row, e)));
    }
  }

  /** The force of a point on one end: along its normal, and along its friction directions. */
  method ForceOfPoint(c: ConstraintPoint, e0: End, e1: End, x: seq<real>, n: nat, second: bool) returns (f: Vec3)
    requires Within(DirectionsAt(e0, e1, c, n), |x|)
    ensures Wrench(c.point, f) == PushSum(DirectionsAt(e0, e1, c, n), x, second)
  {
    hide Wrench, Push, Scale, Add, Plus, Times;
    ghost var dirs := DirectionsAt(e0, e1, c, n);
    assert dirs[0].index == c.globalIndex;
    f := Scale(x[c.globalIndex], Toward(c.normal, second));
    FirstPush(dirs[0].row, x[c.globalIndex], second);
    assert dirs[..1] == [dirs[0]] && dirs[..1][..0] == [];
    var l := 0;
    while l < c.numFrictionVectors
      invariant 0 <= l <= c.numFrictionVectors
      invariant Wrench(c.point, f) == PushSum(dirs[..1 + l], x, second)
    {
      assert dirs[1 + l] == Direction(Row(e0, e1, c.point, c.FrictionVector(l)), n + c.globalFrictionIndex + l);
      assert dirs[..2 + l][..1 + l] == dirs[..1 + l];
      NextPush(dirs[1 + l].row, x[n + c.globalFrictionIndex + l], f, second);
      f := Add(f, Scale(x[n + c.globalFrictionIndex + l], Toward(c.FrictionVector(l), second)));
      l := l + 1;
    }
    assert dirs[..1 + l] == dirs;
  }

  /** A direction as the one end sees it. */
  function Toward(d: Vec3, second: bool): Vec3 { if second then d else Neg(d) }

  lemma NextPush(r: Row, s: real, f: Vec3, second: bool)
    ensures Wrench(r.point, Add(f, Scale(s, Toward(r.dir, second))))
         == Plus(Wrench(r.point, f), Times(s, Push(r, second)))
  {
    hide Cross, Scale, Neg, Add;
    var d := Toward(r.dir, second);
    CrossAdd(r.point, f, Scale(s, d));
    CrossScale(r.point, s, d);
  }

  lemma FirstPush(r: Row, s: real, second: bool)
    ensures Wrench(r.point, Scale(s, Toward(r.dir, second))) == Plus(ZERO6, Times(s, Push(r, second)))
  {
    hide Cross, Scale, Neg;
    CrossScale(r.point, s, Toward(r.dir, second));
    PlusNothing(Times(s, Push(r, second)));
  }

  /** The force of all the points of a pair on one end, and its torque around the world origin. */
  method ForceOfPair(p: LinkPair, x: seq<real>, n: nat, second: bool) returns (f_total: Vec3, tau_total: Vec3)
    requires Within(PairDirections(p.end0, p.end1, p.constraintPoints, n), |x|)
    ensures Spatial(f_total, tau_total) == PushSum(PairDirections(p.end0, p.end1, p.constraintPoints, n), x, second)
  {
    hide Push, Add, Cross, Times, DirectionsAt;
    var points := p.constraintPoints;
    f_total, tau_total := ZERO3, ZERO3;
    var i := 0;
    while i < |points|
      invariant 0 <= i <= |points|
      invariant Within(PairDirections(p.end0, p.end1, points[..i], n), |x|)
      invariant Spatial(f_total, tau_total) == PushSum(PairDirections(p.end0, p.end1, points[..i], n), x, second)
    {
      ghost var before := PairDirections(p.end0, p.end1, points[..i], n);
      ghost var own := DirectionsAt(p.end0, p.end1, points[i], n);
      PrefixWithin(p.end0, p.end1, points, n, i + 1, |x|);
      assert points[..i + 1][..i] == points[..i];
      PushSumAppend(before, own, x, second);
      var f := ForceOfPoint(points[i], p.end0, p.end1, x, n, second);
      f_total := Add(f_total, f);
      tau_total := Add(tau_total, Cross(points[i].point, f));
      i := i + 1;
    }
    assert points[..i] == points;
  }

  lemma {:induction false} PrefixWithin(e0: End, e1: End, points: seq<ConstraintPoint>, n: nat, i: nat, m: nat)
    requires i <= |points| && Within(PairDirections(e0, e1, points, n), m)
    ensures Within(PairDirections(e0, e1, points[..i], n), m)
  {
    hide DirectionsAt;
    if i == |points| {
      assert points[..i] == points;
    } else {
      var k := |points| - 1;
      WithinParts(PairDirections(e0, e1, points[..k], n), DirectionsAt(e0, e1, points[k], n), m);
      PrefixWithin(e0, e1, points[..k], n, i, m);
      assert points[..k][..i] == points[..i];
    }
  }

  // ---- the links ----

  ghost function External(l: Link): Spatial
    reads l`fext, l`tauext
  {
    Spatial(l.fext, l.tauext)
  }

  /** No two bodies share a link, and no link is twice in one. */
  ghost predicate LinksApart(bodies: seq<BodyData>) {
    forall b, c, i, j | 0 <= b < |bodies| && 0 <= c < |bodies| && 0 <= i < |bodies[b].traverse|
      && 0 <= j < |bodies[c].traverse| && (b != c || i != j) :: bodies[b].traverse[i] != bodies[c].traverse[j]
  }

  /** The links of the ends of a pair exist. */
  ghost predicate EndsOnLinks(bodies: seq<BodyData>, p: LinkPair) {
    && p.end0.body < |bodies| && p.end0.link < |bodies[p.end0.body].traverse|
    && p.end1.body < |bodies| && p.end1.link < |bodies[p.end1.body].traverse|
  }

  method AddConstraintForceToLink(link: Link, p: LinkPair, second: bool, x: seq<real>, n: nat)
    requires Within(PairDirections(p.end0, p.end1, p.constraintPoints, n), |x|)
    modifies link`fext, link`tauext
    ensures External(link)
         == Plus(old(External(link)), PushSum(PairDirections(p.end0, p.end1, p.constraintPoints, n), x, second))
  {
    hide PairDirections, PushSum, Within;
    var f_total, tau_total := ForceOfPair(p, x, n, second);
    link.fext := Add(link.fext, f_total);
    link.tauext := Add(link.tauext, tau_total);
  }

  /** Both ends of one pair; all other links keep their forces. */
  method AddConstraintForceToEnds(bodies: seq<BodyData>, p: LinkPair, x: seq<real>, n: nat)
    requires LinksApart(bodies) && EndsOnLinks(bodies, p)
    requires Within(PairDirections(p.end0, p.end1, p.constraintPoints, n), |x|)
    modifies LinksOfAll(bodies)`fext, LinksOfAll(bodies)`tauext
    ensures forall b, j | 0 <= b < |bodies| && 0 <= j < |bodies[b].traverse| ::
              External(bodies[b].traverse[j])
              == Plus(old(External(bodies[b].traverse[j])),
                      LoadAt(PairDirections(p.end0, p.end1, p.constraintPoints, n), x, End(b, j)))
  {
    hide PairDirections, PushSum, Within, LoadAt, Plus, External;
    ghost var dirs := PairDirections(p.end0, p.end1, p.constraintPoints, n);
    PairRowsBetween(p, p.constraintPoints, n);
    AddConstraintForceToLink(bodies[p.end0.body].traverse[p.end0.link], p, false, x, n);
    label between:
    AddConstraintForceToLink(bodies[p.end1.body].traverse[p.end1.link], p, true, x, n);
    forall b, j | 0 <= b < |bodies| && 0 <= j < |bodies[b].traverse|
      ensures External(bodies[b].traverse[j])
           == Plus(old(External(bodies[b].traverse[j])), LoadAt(dirs, x, End(b, j)))
    {
      var l, e := bodies[b].traverse[j], End(b, j);
      LoadOfPair(dirs, x, p, e);
      BothParts(old(External(l)), old@between(External(l)), External(l),
                if p.end0 == e then PushSum(dirs, x, false) else ZERO6,
                if p.end1 == e then PushSum(dirs, x, true) else ZERO6);
    }
  }

  lemma BothParts(a: Spatial, b: Spatial, c: Spatial, f: Spatial, g: Spatial)
    requires (b == Plus(a, f) || (f == ZERO6 && b == a)) && (c == Plus(b, g) || (g == ZERO6 && c == b))
    ensures c == Plus(a, Plus(f, g))
  {
    hide Plus;
    PlusNothing(a);
    PlusNothing(b);
    PlusAssociative(a, f, g);
  }

  /** The forces of all the pairs. */
  method AddConstraintForceToLinks(bodies: seq<BodyData>, pairs: seq<LinkPair>, x: seq<real>, n: nat)
    requires LinksApart(bodies) && forall p | p in pairs :: EndsOnLinks(bodies, p)
    requires Within(Directions(pairs, n), |x|)
    modifies LinksOfAll(bodies)`fext, LinksOfAll(bodies)`tauext
    ensures forall b, j | 0 <= b < |bodies| && 0 <= j < |bodies[b].traverse| ::
              External(bodies[b].traverse[j])
              == Plus(old(External(bodies[b].traverse[j])), LoadAt(Directions(pairs, n), x, End(b, j)))
  {
    hide PairDirections, Within, LoadAt, Plus, External, LinksApart, EndsOnLinks;
    NoLoads(bodies, x);
    assert pairs[..0] == [];
    var i := 0;
    while i < |pairs|
      invariant 0 <= i <= |pairs|
      invariant Within(Directions(pairs[..i], n), |x|)
      invariant forall b, j | 0 <= b < |bodies| && 0 <= j < |bodies[b].traverse| ::
                  External(bodies[b].traverse[j])
                  == Plus(old(External(bodies[b].traverse[j])), LoadAt(Directions(pairs[..i], n), x, End(b, j)))
    {
      label next:
      ghost var before := Directions(pairs[..i], n);
      ghost var own := PairDirections(pairs[i].end0, pairs[i].end1, pairs[i].constraintPoints, n);
      assert pairs[..i + 1][..i] == pairs[..i];
      PairsWithin(pairs, n, i + 1, |x|);
      WithinParts(before, own, |x|);
      AddConstraintForceToEnds(bodies, pairs[i], x, n);
      forall b, j | 0 <= b < |bodies| && 0 <= j < |bodies[b].traverse|
        ensures External(bodies[b].traverse[j])
             == Plus(old(External(bodies[b].traverse[j])), LoadAt(before + own, x, End(b, j)))
      {
        LoadAtAppend(before, own, x, End(b, j));
        PlusAssociative(old(External(bodies[b].traverse[j])), LoadAt(before, x, End(b, j)), LoadAt(own, x, End(b, j)));
      }
      i := i + 1;
    }
    assert pairs[..i] == pairs;
  }

  lemma NoLoads(bodies: seq<BodyData>, x: seq<real>)
    ensures Within([], |x|)
    ensures forall b, j | 0 <= b < |bodies| && 0 <= j < |bodies[b].traverse| ::
              var f := External(bodies[b].traverse[j]); f == Plus(f, LoadAt([], x, End(b, j)))
  {
    forall b, j | 0 <= b < |bodies| && 0 <= j < |bodies[b].traverse|
      ensures var f := External(bodies[b].traverse[j]); f == Plus(f, LoadAt([], x, End(b, j)))
    {
      PlusNothing(External(bodies[b].traverse[j]));
    }
  }

  lemma {:induction false} PairsWithin(pairs: seq<LinkPair>, n: nat, i: nat, m: nat)
    requires i <= |pairs| && Within(Directions(pairs, n), m)
    ensures Within(Directions(pairs[..i], n), m)
  {
    hide PairDirections;
    if i == |pairs| {
      assert pairs[..i] == pairs;
    } else {
      var k := |pairs| - 1;
      WithinParts(Directions(pairs[..k], n),
                  PairDirections(pairs[k].end0, pairs[k].end1, pairs[k].constraintPoints, n), m);
      PairsWithin(pairs[..k], n, i, m);
      assert pairs[..k][..i] == pairs[..i];
    }
  }

  // ---- the bodies under the forces ----

  lemma TakenUnder(t: Shape, s: Snapshot, f: seq<Spatial>)
    requires Taken(t, s) && |f| == |s.x|
    ensures Taken(t, s.(z := WithForces(s.z, f), x := WithForces(s.x, f)))
  {
    hide Plus, FirstHalf, Inbound, Symmetric;
    SameRegular(t, s.x, f);
  }

  lemma SolvableUnder(t: Shape, x: seq<LinkState>, f: seq<Spatial>, solve: (Inertia, Spatial) -> Spatial)
    requires Fits(t, x) && |f| == |x| && RootSolvable(t, x, solve)
    ensures RootSolvable(t, WithForces(x, f), solve)
  {
    hide Apply, Inbound, Plus;
    SameInertia(t, x, f, 0);
  }

  /** The bodies fit the snapshots with the forces, and their roots can still be solved. */
  lemma ExactUnder(bodies: seq<BodyData>, s: seq<Snapshot>, dirs: seq<Direction>, x: seq<real>,
                   solve: (Inertia, Spatial) -> Spatial)
    requires Exact(bodies, s, solve) && |bodies| == |s| && Within(dirs, |x|)
    ensures Exact(bodies, Under(s, dirs, x), solve)
  {
    hide RootSolvable, LoadOf, WithForces;
    var u := Under(s, dirs, x);
    forall b | 0 <= b < |bodies| && b < |u| && !bodies[b].isStatic
      ensures Fits(bodies[b].tree, u[b].x) && RootSolvable(bodies[b].tree, u[b].x, solve)
    {
      var f := LoadOf(dirs, x, b, |s[b].x|);
      SolvableUnder(bodies[b].tree, s[b].x, f, solve);
      FitsUnder(bodies[b].tree, s[b].x, f);
    }
  }

  lemma FitsUnder(t: Shape, x: seq<LinkState>, f: seq<Spatial>)
    requires Fits(t, x) && |f| == |x|
    ensures Fits(t, WithForces(x, f)) && (Anchored(t, x) ==> Anchored(t, WithForces(x, f)))
  {}

  /** A body whose links have been given the forces fits its snapshot with them. */
  lemma BodyUnder(body: BodyData, s: Snapshot, dirs: seq<Direction>, x: seq<real>, b: nat)
    requires Within(dirs, |x|) && body.Valid() && Fits(body.tree, s.x) && |body.linksData| == |s.x|
    requires !body.isStatic ==> |s.z| == |body.traverse| == |s.x|
    requires body.isStatic ==> Anchored(body.tree, s.x)
    requires !body.isStatic ==> Taken(body.tree, s) && AtVelocities(body.traverse, s.vel)
    requires !body.isStatic ==> forall j | 0 <= j < |body.traverse| ::
               State(body.traverse[j]) == s.z[j].(ext := Plus(s.z[j].ext, LoadAt(dirs, x, End(b, j))))
    ensures BodyFits(body, UnderAt(s, dirs, x, b))
  {
    hide BodyData.Valid, Taken, Anchored, AtVelocities, LoadAt, Plus, State;
    var f := LoadOf(dirs, x, b, |s.x|);
    FitsUnder(body.tree, s.x, f);
    if !body.isStatic {
      TakenUnder(body.tree, s, f);
      var u := UnderAt(s, dirs, x, b);
      forall j | 0 <= j < |body.traverse| ensures u.z[j] == State(body.traverse[j]) {}
      assert u.z == States(body.traverse);
    }
  }

  /** The solved forces on the links: the bodies are as they were, but for their external forces. */
  method LoadBodies(bodies: seq<BodyData>, pairs: seq<LinkPair>, x: seq<real>, n: nat, ghost s: seq<Snapshot>)
    requires LinksApart(bodies) && forall p | p in pairs :: EndsOnLinks(bodies, p)
    requires Within(Directions(pairs, n), |x|) && World(bodies, s)
    modifies LinksOfAll(bodies)`fext, LinksOfAll(bodies)`tauext
    ensures forall b, j | 0 <= b < |bodies| && 0 <= j < |bodies[b].traverse| ::
              External(bodies[b].traverse[j])
              == Plus(old(External(bodies[b].traverse[j])), LoadAt(Directions(pairs, n), x, End(b, j)))
    ensures World(bodies, Under(s, Directions(pairs, n), x))
  {
    hide Taken, Anchored, Within, Directions, LoadAt, LinksApart, EndsOnLinks, Plus, UnderAt, Skip.Separate;
    ghost var dirs := Directions(pairs, n);
    AddConstraintForceToLinks(bodies, pairs, x, n);
    forall b | 0 <= b < |bodies| ensures BodyFits(bodies[b], UnderAt(s[b], dirs, x, b)) {
      BodyUnder(bodies[b], s[b], dirs, x, b);
    }
  }
}
