/** The matrix of the contact problem: how much a unit force on one constraint row accelerates
    another. It is symmetric and its diagonal vanishes only for rows whose force moves nothing. */
module ConstraintMatrix {
  import opened LinearAlgebra
  import opened Links
  import opened ArticulatedBody
  import opened PositiveInertia
  import opened LinkTraverses
  import opened RigidLinks
  import opened Sums
  import opened TestForce
  import opened Reciprocity

  /** A normal or friction direction of a constraint point: its force pushes end1 along dir and end0
      the other way. */
  datatype Row = Row(end0: End, end1: End, point: Vec3, dir: Vec3) {
    function Push0(): Spatial { Wrench(point, Neg(dir)) }
    function Push1(): Spatial { Wrench(point, dir) }
  }

  datatype BodyModel = BodyModel(tree: Shape, links: seq<LinkState>)

  ghost predicate EndIn(bodies: seq<BodyModel>, e: End) { e.body < |bodies| && e.link < |bodies[e.body].links| }

  ghost predicate RowIn(bodies: seq<BodyModel>, r: Row) { EndIn(bodies, r.end0) && EndIn(bodies, r.end1) }

  ghost predicate Bodies(bodies: seq<BodyModel>) {
    forall b | 0 <= b < |bodies| :: Fits(bodies[b].tree, bodies[b].links) && Sound(bodies[b].tree, bodies[b].links)
  }

  /** A body of symmetric inertias, or one that cannot move at all. */
  ghost predicate Sound(t: Shape, x: seq<LinkState>)
    requires Fits(t, x)
  {
    (forall i | 0 <= i < |x| :: Symmetric(x[i].inertia)) || Anchored(t, x)
  }

  /** Every body that can move has mass in all its links. */
  ghost predicate HeavyBodies(bodies: seq<BodyModel>) {
    forall b | 0 <= b < |bodies| ::
      && Fits(bodies[b].tree, bodies[b].links)
      && (Massive(bodies[b].tree, bodies[b].links) || Anchored(bodies[b].tree, bodies[b].links))
  }

  ghost predicate Anchored(t: Shape, x: seq<LinkState>)
    requires Fits(t, x)
  {
    x[0].joint != FREE_JOINT && forall j | 0 < j < |x| :: !x[j].Moving()
  }

  /** The push w on end e as forces on the n links of body b. */
  function EndLoad(e: End, b: nat, n: nat, w: Spatial): (f: seq<Spatial>)
    ensures |f| == n
  {
    One(n, e.link, if e.body == b then w else ZERO6)
  }

  /** The forces of a row on the links of body b. */
  function LoadOn(r: Row, b: nat, n: nat): (f: seq<Spatial>)
    ensures |f| == n
  {
    var f0, f1 := EndLoad(r.end0, b, n, r.Push0()), EndLoad(r.end1, b, n, r.Push1());
    seq(n, j requires 0 <= j < n => Plus(f0[j], f1[j]))
  }

  /** d holds the response of every body to the force of row r. */
  ghost predicate RespondsToRow(bodies: seq<BodyModel>, r: Row, d: seq<Motion>)
    requires Bodies(bodies)
  {
    && |d| == |bodies|
    && forall b | 0 <= b < |bodies| :: Responds(bodies[b].tree, bodies[b].links, LoadOn(r, b, |bodies[b].links|), d[b])
  }

  /** The relative acceleration that motions d give to the point of row r, along its direction. */
  function Entry(r: Row, d: seq<Motion>): real
    requires r.end0.body < |d| && r.end1.body < |d|
    requires r.end0.link < |d[r.end0.body].a| && r.end1.link < |d[r.end1.body].a|
  {
    Inner(r.Push0(), d[r.end0.body].a[r.end0.link]) + Inner(r.Push1(), d[r.end1.body].a[r.end1.link])
  }

  // ---- an entry is the work of a row's force ----

  lemma {:induction false} WorkAdds(t: Shape, f: seq<Spatial>, g: seq<Spatial>, h: seq<Spatial>, a: seq<Spatial>,
                                    k: int)
    requires t.Valid() && |f| == |g| == |h| == |a| == |t.parent| && t.IsPointer(k)
    requires forall j | 0 <= j < |a| :: h[j] == Plus(f[j], g[j])
    ensures Work(t, h, a, k) == Work(t, f, a, k) + Work(t, g, a, k)
    decreases if k == -1 then 0 else |a| - k
  {
    hide Inner, Plus;
    if k != -1 {
      WorkAdds(t, f, g, h, a, t.child[k]);
      WorkAdds(t, f, g, h, a, t.sibling[k]);
      InnerComm(h[k], a[k]);
      InnerComm(f[k], a[k]);
      InnerComm(g[k], a[k]);
      InnerPlus(a[k], f[k], g[k]);
    }
  }

  lemma {:induction false} WorkOfNothing(t: Shape, f: seq<Spatial>, a: seq<Spatial>, k: int)
    requires t.Valid() && |f| == |a| == |t.parent| && t.IsPointer(k)
    requires forall j | 0 <= j < |f| :: f[j] == ZERO6
    ensures Work(t, f, a, k) == 0.0
    decreases if k == -1 then 0 else |a| - k
  {
    hide Inner;
    if k != -1 {
      WorkOfNothing(t, f, a, t.child[k]);
      WorkOfNothing(t, f, a, t.sibling[k]);
      InnerZero(a[k]);
      InnerComm(ZERO6, a[k]);
    }
  }

  lemma EndWork(t: Shape, e: End, b: nat, w: Spatial, a: seq<Spatial>)
    requires t.Valid() && |a| == |t.parent| && (e.body == b ==> e.link < |a|)
    ensures Work(t, EndLoad(e, b, |a|, w), a, 0) == if e.body == b then Inner(w, a[e.link]) else 0.0
  {
    hide Inner, Work;
    if e.body == b {
      WorkOfOne(t, e.link, w, a, 0);
      AllBelowRoot(t, e.link);
    } else {
      WorkOfNothing(t, EndLoad(e, b, |a|, w), a, 0);
    }
  }

  /** What the force of row r does on body b along motion d. */
  ghost function RowWork(bodies: seq<BodyModel>, r: Row, d: seq<Motion>, b: nat): real
    requires b < |bodies| == |d| && Fits(bodies[b].tree, bodies[b].links) && |d[b].a| == |bodies[b].links|
  {
    Work(bodies[b].tree, LoadOn(r, b, |d[b].a|), d[b].a, 0)
  }

  lemma RowWorkIs(bodies: seq<BodyModel>, r: Row, d: seq<Motion>, b: nat)
    requires b < |bodies| == |d| && Fits(bodies[b].tree, bodies[b].links) && |d[b].a| == |bodies[b].links|
    requires RowIn(bodies, r)
    ensures RowWork(bodies, r, d, b) ==
      (if r.end0.body == b then Inner(r.Push0(), d[b].a[r.end0.link]) else 0.0)
      + (if r.end1.body == b then Inner(r.Push1(), d[b].a[r.end1.link]) else 0.0)
  {
    hide Inner, Work, Plus, Wrench, Neg;
    var t, a, n := bodies[b].tree, d[b].a, |d[b].a|;
    var f0, f1 := EndLoad(r.end0, b, n, r.Push0()), EndLoad(r.end1, b, n, r.Push1());
    WorkAdds(t, f0, f1, LoadOn(r, b, n), a, 0);
    EndWork(t, r.end0, b, r.Push0(), a);
    EndWork(t, r.end1, b, r.Push1(), a);
  }

  /** The work over the first n bodies. */
  ghost function TotalWork(bodies: seq<BodyModel>, r: Row, d: seq<Motion>, n: nat): real
    requires n <= |bodies| == |d|
    requires forall b | 0 <= b < n :: Fits(bodies[b].tree, bodies[b].links) && |d[b].a| == |bodies[b].links|
  {
    if n == 0 then 0.0 else TotalWork(bodies, r, d, n - 1) + RowWork(bodies, r, d, n - 1)
  }

  lemma {:induction false} TotalWorkIs(bodies: seq<BodyModel>, r: Row, d: seq<Motion>, n: nat)
    requires n <= |bodies| == |d| && RowIn(bodies, r)
    requires forall b | 0 <= b < |bodies| :: Fits(bodies[b].tree, bodies[b].links) && |d[b].a| == |bodies[b].links|
    ensures TotalWork(bodies, r, d, n) ==
      (if r.end0.body < n then Inner(r.Push0(), d[r.end0.body].a[r.end0.link]) else 0.0)
      + (if r.end1.body < n then Inner(r.Push1(), d[r.end1.body].a[r.end1.link]) else 0.0)
  {
    hide Inner, RowWork, Fits;
    if n > 0 {
      TotalWorkIs(bodies, r, d, n - 1);
      RowWorkIs(bodies, r, d, n - 1);
    }
  }

  /** Two rows' responses exchange the same work, body by body. */
  lemma {:induction false} WorkExchanged(bodies: seq<BodyModel>, r: Row, d: seq<Motion>, s: Row, e: seq<Motion>, n: nat)
    requires Bodies(bodies) && RespondsToRow(bodies, r, d) && RespondsToRow(bodies, s, e) && n <= |bodies|
    requires forall b | 0 <= b < |bodies| :: |d[b].a| == |e[b].a| == |bodies[b].links|
    ensures TotalWork(bodies, r, e, n) == TotalWork(bodies, s, d, n)
  {
    hide Responds, Work, LoadOn, Sound, Fits;
    if n > 0 {
      WorkExchanged(bodies, r, d, s, e, n - 1);
      var t, x := bodies[n - 1].tree, bodies[n - 1].links;
      SoundReciprocal(t, x, LoadOn(r, n - 1, |x|), d[n - 1], LoadOn(s, n - 1, |x|), e[n - 1]);
    }
  }

  lemma SoundReciprocal(t: Shape, x: seq<LinkState>, f: seq<Spatial>, m: Motion, g: seq<Spatial>, n: Motion)
    requires Fits(t, x) && Sound(t, x) && |f| == |g| == |x| && Responds(t, x, f, m) && Responds(t, x, g, n)
    ensures |m.a| == |n.a| == |x| && Work(t, f, n.a, 0) == Work(t, g, m.a, 0)
  {
    hide Responds, Work, Symmetric, Positive;
    ResponseFits(t, x, f, m);
    ResponseFits(t, x, g, n);
    if Anchored(t, x) {
      AnchoredStays(t, x, f, m);
      AnchoredStays(t, x, g, n);
      WorkOfRest(t, f, n.a, 0);
      WorkOfRest(t, g, m.a, 0);
    } else {
      Reciprocal(t, x, f, m, g, n);
    }
  }

  lemma SoundYields(t: Shape, x: seq<LinkState>, f: seq<Spatial>, m: Motion)
    requires Fits(t, x) && (Massive(t, x) || Anchored(t, x)) && |f| == |x| && Responds(t, x, f, m)
    ensures |m.a| == |x| && Work(t, f, m.a, 0) >= 0.0
    ensures Work(t, f, m.a, 0) == 0.0 ==> forall j | 0 <= j < |x| :: m.a[j] == ZERO6
  {
    hide Responds, Work, Massive;
    ResponseFits(t, x, f, m);
    if Anchored(t, x) {
      AnchoredStays(t, x, f, m);
      WorkOfRest(t, f, m.a, 0);
    } else {
      ResponseYields(t, x, f, m);
    }
  }

  lemma AnchoredStays(t: Shape, x: seq<LinkState>, f: seq<Spatial>, m: Motion)
    requires Fits(t, x) && Anchored(t, x) && |f| == |x| && Responds(t, x, f, m)
    ensures |m.a| == |x| && forall j | 0 <= j < |x| :: m.a[j] == ZERO6
  {
    hide Responds;
    ResponseFits(t, x, f, m);
    forall j | 0 <= j < |x| ensures m.a[j] == ZERO6 {
      AnchoredRests(t, x, f, m, j);
    }
  }

  lemma {:induction false} AnchoredRests(t: Shape, x: seq<LinkState>, f: seq<Spatial>, m: Motion, j: int)
    requires Fits(t, x) && Anchored(t, x) && |f| == |x| && Responds(t, x, f, m) && t.IsLink(j)
    ensures |m.a| == |x| && m.a[j] == ZERO6
    decreases j
  {
    if j > 0 {
      AnchoredRests(t, x, f, m, t.parent[j]);
    }
  }

  lemma {:induction false} WorkOfRest(t: Shape, f: seq<Spatial>, a: seq<Spatial>, k: int)
    requires t.Valid() && |f| == |a| == |t.parent| && t.IsPointer(k)
    requires forall j | 0 <= j < |a| :: a[j] == ZERO6
    ensures Work(t, f, a, k) == 0.0
    decreases if k == -1 then 0 else |a| - k
  {
    hide Inner;
    if k != -1 {
      WorkOfRest(t, f, a, t.child[k]);
      WorkOfRest(t, f, a, t.sibling[k]);
      InnerZero(f[k]);
    }
  }

  lemma ResponsesFit(bodies: seq<BodyModel>, r: Row, d: seq<Motion>)
    requires Bodies(bodies) && RespondsToRow(bodies, r, d)
    ensures |d| == |bodies|
    ensures forall b | 0 <= b < |bodies| :: Fits(bodies[b].tree, bodies[b].links) && |d[b].a| == |bodies[b].links|
  {
    hide Sound;
  }

  /** Row r answers the force of row s as row s answers the force of row r. */
  lemma EntriesReciprocal(bodies: seq<BodyModel>, r: Row, d: seq<Motion>, s: Row, e: seq<Motion>)
    requires Bodies(bodies) && RespondsToRow(bodies, r, d) && RespondsToRow(bodies, s, e) && RowIn(bodies, r)
    requires RowIn(bodies, s)
    ensures |d| == |e| == |bodies| && forall b | 0 <= b < |bodies| :: |d[b].a| == |e[b].a| == |bodies[b].links|
    ensures Entry(r, e) == Entry(s, d)
  {
    hide Inner, Bodies, RespondsToRow, TotalWork;
    ResponsesFit(bodies, r, d);
    ResponsesFit(bodies, s, e);
    WorkExchanged(bodies, r, d, s, e, |bodies|);
    TotalWorkIs(bodies, r, e, |bodies|);
    TotalWorkIs(bodies, s, d, |bodies|);
  }

  /** A row answers its own force forward, and not at all only when the force moves nothing. */
  lemma EntryForward(bodies: seq<BodyModel>, r: Row, d: seq<Motion>)
    requires Bodies(bodies) && HeavyBodies(bodies) && RespondsToRow(bodies, r, d) && RowIn(bodies, r)
    ensures |d| == |bodies| && forall b | 0 <= b < |bodies| :: |d[b].a| == |bodies[b].links|
    ensures Entry(r, d) >= 0.0
    ensures Entry(r, d) == 0.0 <==> AtStandstill(d)
  {
    hide Inner, Bodies, RespondsToRow, TotalWork;
    ResponsesFit(bodies, r, d);
    TotalWorkIs(bodies, r, d, |bodies|);
    WorkForward(bodies, r, d, |bodies|);
    if AtStandstill(d) {
      InnerZero(r.Push0());
      InnerZero(r.Push1());
    }
  }

  ghost predicate AtStandstill(d: seq<Motion>) {
    forall b, j | 0 <= b < |d| && 0 <= j < |d[b].a| :: d[b].a[j] == ZERO6
  }

  lemma {:induction false} WorkForward(bodies: seq<BodyModel>, r: Row, d: seq<Motion>, n: nat)
    requires Bodies(bodies) && HeavyBodies(bodies) && RespondsToRow(bodies, r, d) && n <= |bodies|
    requires forall b | 0 <= b < |bodies| :: |d[b].a| == |bodies[b].links|
    ensures TotalWork(bodies, r, d, n) >= 0.0
    ensures TotalWork(bodies, r, d, n) == 0.0 ==> AtStandstill(d[..n])
  {
    hide Responds, Work, LoadOn, Sound, Fits, Massive, Anchored;
    if n > 0 {
      WorkForward(bodies, r, d, n - 1);
      var t, x := bodies[n - 1].tree, bodies[n - 1].links;
      SoundYields(t, x, LoadOn(r, n - 1, |x|), d[n - 1]);
      assert d[..n][..n - 1] == d[..n - 1];
      assert forall b | 0 <= b < n :: d[..n][b] == if b < n - 1 then d[..n - 1][b] else d[n - 1];
    } else {
      assert d[..0] == [];
    }
  }

  /** Each column of the matrix holds what the unit force of its row does to every row. */
  ghost predicate Measured(bodies: seq<BodyModel>, rows: seq<Row>, m: seq<seq<real>>, d: seq<seq<Motion>>)
    requires Bodies(bodies)
  {
    && IsSquare(m) && |m| == |rows| == |d|
    && (forall c | 0 <= c < |rows| :: RowIn(bodies, rows[c]) && RespondsToRow(bodies, rows[c], d[c]))
    && (forall r, c | 0 <= r < |rows| && 0 <= c < |rows| ::
          |d[c]| == |bodies| && Sized(bodies, d[c]) && m[r][c] == Entry(rows[r], d[c]))
  }

  ghost predicate Sized(bodies: seq<BodyModel>, d: seq<Motion>)
    requires |d| == |bodies|
  {
    forall b | 0 <= b < |bodies| :: |d[b].a| == |bodies[b].links|
  }

  /** The matrix of the contact problem is symmetric, no diagonal entry is negative, and one is zero
      exactly when the row's force moves nothing at all. */
  lemma MeasuredIsSymmetric(bodies: seq<BodyModel>, rows: seq<Row>, m: seq<seq<real>>, d: seq<seq<Motion>>)
    requires Bodies(bodies) && Measured(bodies, rows, m, d)
    ensures IsSymmetricMatrix(m)
    ensures HeavyBodies(bodies) ==>
              forall c | 0 <= c < |m| :: m[c][c] >= 0.0 && (m[c][c] == 0.0 <==> AtStandstill(d[c]))
  {
    hide Bodies, HeavyBodies, RespondsToRow, Entry;
    forall r, c | 0 <= r < |m| && 0 <= c < |m| ensures m[r][c] == m[c][r] {
      EntriesReciprocal(bodies, rows[r], d[r], rows[c], d[c]);
    }
    forall c | 0 <= c < |m| && HeavyBodies(bodies)
      ensures m[c][c] >= 0.0 && (m[c][c] == 0.0 <==> AtStandstill(d[c]))
    {
      EntryForward(bodies, rows[c], d[c]);
    }
  }
}
