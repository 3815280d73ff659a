/** What external forces change in the accelerations of a body, and that the change is reciprocal:
    the motion that one set of forces causes does the same work against a second set as the second
    set's motion does against the first. */
module Reciprocity {
  import opened LinearAlgebra
  import opened Links
  import opened ArticulatedBody
  import opened PositiveInertia
  import opened LinkTraverses
  import opened InverseDynamics
  import opened TestForce

  /** Changes of the link accelerations and of the joint accelerations. */
  datatype Motion = Motion(a: seq<Spatial>, ddq: seq<real>)

  /** Each link goes with its parent, but for its own joint. */
  ghost predicate Carries(t: Shape, x: seq<LinkState>, m: Motion)
    requires Fits(t, x)
  {
    && |m.a| == |m.ddq| == |x|
    && (forall j | 0 < j < |x| ::
          m.a[j] == if x[j].Moving() then Plus(m.a[t.parent[j]], Times(m.ddq[j], x[j].axis)) else m.a[t.parent[j]])
  }

  /** The links with nothing but forces f acting on them. */
  function Pushed(x: seq<LinkState>, f: seq<Spatial>): (r: seq<LinkState>)
    requires |f| == |x|
    ensures |r| == |x|
  {
    seq(|x|, i requires 0 <= i < |x| => x[i].(bias := Negated(f[i])))
  }

  /** m is the change of motion that forces f cause: moving joints do no work but their rotor's, and
      the root is either free of force or at rest. */
  ghost predicate Responds(t: Shape, x: seq<LinkState>, f: seq<Spatial>, m: Motion)
    requires Fits(t, x) && |f| == |x|
  {
    && Carries(t, x, m)
    && (forall j | 0 < j < |x| && x[j].Moving() ::
          Inner(x[j].axis, Force(t, Pushed(x, f), m.a, j)) + Product(x[j].rotor, m.ddq[j]) == 0.0)
    && RootRests(t, x, f, m)
  }

  ghost predicate RootRests(t: Shape, x: seq<LinkState>, f: seq<Spatial>, m: Motion)
    requires Fits(t, x) && |f| == |x| == |m.a|
  {
    if x[0].joint == FREE_JOINT then Force(t, Pushed(x, f), m.a, 0) == ZERO6 else m.a[0] == ZERO6
  }

  // ---- work ----

  /** The work of forces f along a, over the branch of link k and those of its later siblings. */
  ghost function Work(t: Shape, f: seq<Spatial>, a: seq<Spatial>, k: int): real
    requires t.Valid() && |f| == |a| == |t.parent| && t.IsPointer(k)
    decreases if k == -1 then 0 else |a| - k
  {
    if k == -1 then 0.0
    else Inner(f[k], a[k]) + Work(t, f, a, t.child[k]) + Work(t, f, a, t.sibling[k])
  }

  /** The work of the inertia forces of motion m, rotors included, along motion n. */
  ghost function Exchange(t: Shape, x: seq<LinkState>, m: Motion, n: Motion, k: int): real
    requires Fits(t, x) && |m.a| == |m.ddq| == |n.a| == |n.ddq| == |x| && t.IsPointer(k)
    decreases if k == -1 then 0 else |x| - k
  {
    if k == -1 then 0.0
    else ExchangeAt(x[k], k, m, n) + Exchange(t, x, m, n, t.child[k]) + Exchange(t, x, m, n, t.sibling[k])
  }

  ghost function ExchangeAt(y: LinkState, k: int, m: Motion, n: Motion): real
    requires 0 <= k < |m.a| && |m.a| == |m.ddq| == |n.a| == |n.ddq|
  {
    RotorExchange(y, k, m, n) + Inner(n.a[k], Apply(y.inertia, m.a[k]))
  }

  ghost function RotorExchange(y: LinkState, k: int, m: Motion, n: Motion): real
    requires 0 <= k < |m.ddq| == |n.ddq|
  {
    if k > 0 && y.Moving() then Product(y.rotor, Product(n.ddq[k], m.ddq[k])) else 0.0
  }

  /** The force through a joint works along the parent's motion as along the link's, but for the rotor. */
  lemma JointWork(t: Shape, x: seq<LinkState>, f: seq<Spatial>, m: Motion, n: Motion, k: int)
    requires Fits(t, x) && |f| == |x| && Responds(t, x, f, m) && Carries(t, x, n) && 0 < k < |x|
    ensures Inner(n.a[t.parent[k]], Force(t, Pushed(x, f), m.a, k))
         == Inner(n.a[k], Force(t, Pushed(x, f), m.a, k)) + RotorExchange(x[k], k, m, n)
  {
    hide Inner, Plus, Times, Product, Force, Pushed, RootRests;
    if x[k].Moving() {
      var phi, up := Force(t, Pushed(x, f), m.a, k), n.a[t.parent[k]];
      InnerComm(n.a[k], phi);
      InnerComm(up, phi);
      InnerPlus(phi, up, Times(n.ddq[k], x[k].axis));
      InnerTimes(phi, n.ddq[k], x[k].axis);
      InnerComm(phi, x[k].axis);
      OppositeFactor(n.ddq[k], Inner(x[k].axis, phi), Product(x[k].rotor, m.ddq[k]));
      ProductSwap(n.ddq[k], x[k].rotor, m.ddq[k]);
    }
  }

  lemma OppositeFactor(e: real, a: real, b: real)
    requires a + b == 0.0
    ensures Product(e, a) == -Product(e, b)
  {
    hide Product;
    ProductNeg(e, b);
  }

  /** What a link's force does along another motion: its own share and its children's. */
  lemma OwnWork(t: Shape, x: seq<LinkState>, f: seq<Spatial>, m: Motion, d: Spatial, k: int)
    requires Fits(t, x) && |f| == |x| == |m.a| && t.IsLink(k)
    ensures Inner(d, Force(t, Pushed(x, f), m.a, k))
         == Inner(d, SiblingForces(t, Pushed(x, f), m.a, t.child[k]))
         + Inner(d, Apply(x[k].inertia, m.a[k])) - Inner(f[k], d)
  {
    hide Inner, Plus, Apply, SiblingForces;
    var y, c := Pushed(x, f), SiblingForces(t, Pushed(x, f), m.a, t.child[k]);
    InnerPlus(d, Plus(Negated(f[k]), c), Apply(x[k].inertia, m.a[k]));
    InnerPlus(d, Negated(f[k]), c);
    InnerNegated(d, f[k]);
    InnerComm(d, f[k]);
  }

  lemma InnerNegated(d: Spatial, f: Spatial)
    ensures Inner(d, Negated(f)) == -Inner(d, f)
  {
    hide Inner, Plus;
    InnerPlus(d, Negated(f), f);
    CancelNegated(f);
    InnerZero(d);
  }

  lemma CancelNegated(f: Spatial)
    ensures Plus(Negated(f), f) == ZERO6
  {}

  /** The work done through the joints below a link, along any motion the joints allow. */
  lemma {:induction false} VirtualWork(t: Shape, x: seq<LinkState>, f: seq<Spatial>, m: Motion, n: Motion, p: int,
                                       k: int)
    requires Fits(t, x) && |f| == |x| && Responds(t, x, f, m) && Carries(t, x, n) && t.IsLink(p) && t.IsPointer(k)
    requires k != -1 ==> p < k && t.parent[k] == p
    ensures Inner(n.a[p], SiblingForces(t, Pushed(x, f), m.a, k)) + Work(t, f, n.a, k) == Exchange(t, x, m, n, k)
    decreases if k == -1 then 0 else |x| - k
  {
    hide Inner, Plus, Apply, Force, Responds, RotorExchange;
    ResponseFits(t, x, f, m);
    if k == -1 {
      InnerZero(n.a[p]);
    } else {
      var y := Pushed(x, f);
      VirtualWork(t, x, f, m, n, k, t.child[k]);
      VirtualWork(t, x, f, m, n, p, t.sibling[k]);
      InnerPlus(n.a[p], Force(t, y, m.a, k), SiblingForces(t, y, m.a, t.sibling[k]));
      JointWork(t, x, f, m, n, k);
      OwnWork(t, x, f, m, n.a[k], k);
    }
  }

  /** Forces work along another response exactly as the inertia forces they cause. */
  lemma RootWork(t: Shape, x: seq<LinkState>, f: seq<Spatial>, m: Motion, g: seq<Spatial>, n: Motion)
    requires Fits(t, x) && |f| == |g| == |x| && Responds(t, x, f, m) && Responds(t, x, g, n)
    ensures Work(t, f, n.a, 0) == Exchange(t, x, m, n, 0)
  {
    hide Inner, Plus, Apply, Force, SiblingForces;
    VirtualWork(t, x, f, m, n, 0, t.child[0]);
    OwnWork(t, x, f, m, n.a[0], 0);
    InnerZero(n.a[0]);
    InnerComm(ZERO6, Force(t, Pushed(x, f), m.a, 0));
    InnerZero(Force(t, Pushed(x, f), m.a, 0));
    assert Work(t, f, n.a, -1) == 0.0 == Exchange(t, x, m, n, -1);
  }

  lemma {:induction false} ExchangeSymmetric(t: Shape, x: seq<LinkState>, m: Motion, n: Motion, k: int)
    requires Fits(t, x) && |m.a| == |m.ddq| == |n.a| == |n.ddq| == |x| && t.IsPointer(k)
    requires forall i | 0 <= i < |x| :: Symmetric(x[i].inertia)
    ensures Exchange(t, x, m, n, k) == Exchange(t, x, n, m, k)
    decreases if k == -1 then 0 else |x| - k
  {
    hide Inner, Apply, Product, Symmetric;
    if k != -1 {
      ExchangeSymmetric(t, x, m, n, t.child[k]);
      ExchangeSymmetric(t, x, m, n, t.sibling[k]);
      ApplySelfAdjoint(x[k].inertia, n.a[k], m.a[k]);
      InnerComm(Apply(x[k].inertia, n.a[k]), m.a[k]);
      ProductComm(n.ddq[k], m.ddq[k]);
    }
  }

  /** Reciprocity: the work of forces f along the response to g is that of g along the response to f. */
  lemma Reciprocal(t: Shape, x: seq<LinkState>, f: seq<Spatial>, m: Motion, g: seq<Spatial>, n: Motion)
    requires Fits(t, x) && |f| == |g| == |x| && Responds(t, x, f, m) && Responds(t, x, g, n)
    requires forall i | 0 <= i < |x| :: Symmetric(x[i].inertia)
    ensures Work(t, f, n.a, 0) == Work(t, g, m.a, 0)
  {
    hide Responds, Exchange, Work, Symmetric;
    assert |m.a| == |m.ddq| == |n.a| == |n.ddq| == |x| by {
      ResponseFits(t, x, f, m);
      ResponseFits(t, x, g, n);
    }
    RootWork(t, x, f, m, g, n);
    RootWork(t, x, g, n, f, m);
    ExchangeSymmetric(t, x, m, n, 0);
  }

  lemma ResponseFits(t: Shape, x: seq<LinkState>, f: seq<Spatial>, m: Motion)
    requires Fits(t, x) && |f| == |x| && Responds(t, x, f, m)
    ensures |m.a| == |m.ddq| == |x|
  {}

  // ---- one force ----

  /** Force f on link i and none elsewhere. */
  function One(n: nat, i: nat, f: Spatial): (r: seq<Spatial>)
    ensures |r| == n
  {
    seq(n, j => if j == i then f else ZERO6)
  }

  lemma {:induction false} WorkOfOne(t: Shape, i: nat, f: Spatial, a: seq<Spatial>, k: int)
    requires t.Valid() && |a| == |t.parent| && i < |a| && t.IsPointer(k)
    ensures Work(t, One(|a|, i, f), a, k) == if InBranch(t, k, -1, i) then Inner(f, a[i]) else 0.0
    decreases if k == -1 then 0 else |a| - k
  {
    hide Inner;
    if k == -1 {
      NoBranches(t, k, |a|);
    } else {
      WorkOfOne(t, i, f, a, t.child[k]);
      WorkOfOne(t, i, f, a, t.sibling[k]);
      BranchParts(t, k, i);
      InnerZero(a[k]);
      InnerComm(a[k], ZERO6);
    }
  }

  lemma AllBelowRoot(t: Shape, i: int)
    requires t.Valid() && t.IsLink(i)
    ensures InBranch(t, 0, -1, i)
  {
    RootOnPath(t, i);
    assert BranchOf(t, 0, -1, i, 0);
  }

  /** The response at link k, in direction g, to force f at link i is the response at link i, in
      direction f, to force g at link k. */
  lemma ReciprocalLinks(t: Shape, x: seq<LinkState>, i: nat, f: Spatial, m: Motion, k: nat, g: Spatial, n: Motion)
    requires Fits(t, x) && i < |x| && k < |x| && forall j | 0 <= j < |x| :: Symmetric(x[j].inertia)
    requires Responds(t, x, One(|x|, i, f), m) && Responds(t, x, One(|x|, k, g), n)
    ensures |m.a| == |n.a| == |x| && Inner(g, m.a[k]) == Inner(f, n.a[i])
  {
    hide Responds, Work, One, Symmetric, Inner;
    ResponseFits(t, x, One(|x|, i, f), m);
    ResponseFits(t, x, One(|x|, k, g), n);
    Reciprocal(t, x, One(|x|, i, f), m, One(|x|, k, g), n);
    WorkOfOne(t, i, f, n.a, 0);
    WorkOfOne(t, k, g, m.a, 0);
    AllBelowRoot(t, i);
    AllBelowRoot(t, k);
  }

  // ---- a force never meets a motion of its own against it ----

  lemma {:induction false} ExchangeNonNegative(t: Shape, x: seq<LinkState>, m: Motion, k: int)
    requires Fits(t, x) && Massive(t, x) && |m.a| == |m.ddq| == |x| && t.IsPointer(k)
    ensures Exchange(t, x, m, m, k) >= 0.0
    ensures Exchange(t, x, m, m, k) == 0.0 ==> forall l | 0 <= l < |x| && InBranch(t, k, -1, l) :: m.a[l] == ZERO6
    decreases if k == -1 then 0 else |x| - k
  {
    hide Massive, InBranch;
    if k == -1 {
      NoBranches(t, k, |x|);
    } else {
      ExchangeNonNegative(t, x, m, t.child[k]);
      ExchangeNonNegative(t, x, m, t.sibling[k]);
      OwnExchange(t, x, m, k);
      forall l | 0 <= l < |x| && InBranch(t, k, -1, l) && l != k
        ensures InBranch(t, t.child[k], -1, l) || InBranch(t, t.sibling[k], -1, l)
      {
        BranchParts(t, k, l);
      }
    }
  }

  lemma OwnExchange(t: Shape, x: seq<LinkState>, m: Motion, k: int)
    requires Fits(t, x) && Massive(t, x) && |m.a| == |m.ddq| == |x| && t.IsLink(k)
    ensures ExchangeAt(x[k], k, m, m) >= 0.0
    ensures ExchangeAt(x[k], k, m, m) == 0.0 ==> m.a[k] == ZERO6
  {
    hide Inner, Apply, Product;
    EnergyNonNegative(x[k].inertia, m.a[k]);
    assert Energy(x[k].inertia, m.a[k]) == Inner(m.a[k], Apply(x[k].inertia, m.a[k]));
    if k > 0 && x[k].Moving() {
      ProductSquare(m.ddq[k]);
      ProductSign(x[k].rotor, Product(m.ddq[k], m.ddq[k]));
    }
  }

  /** Forces never work against the motion they cause, and work at nothing only when nothing moves. */
  lemma ResponseYields(t: Shape, x: seq<LinkState>, f: seq<Spatial>, m: Motion)
    requires Fits(t, x) && Massive(t, x) && |f| == |x| && Responds(t, x, f, m)
    ensures |m.a| == |x| && Work(t, f, m.a, 0) >= 0.0
    ensures Work(t, f, m.a, 0) == 0.0 ==> forall j | 0 <= j < |x| :: m.a[j] == ZERO6
  {
    hide Massive, Responds, Exchange, Work, InBranch;
    ResponseFits(t, x, f, m);
    RootWork(t, x, f, m, f, m);
    ExchangeNonNegative(t, x, m, 0);
    forall j | 0 <= j < |x| ensures InBranch(t, 0, -1, j) {
      AllBelowRoot(t, j);
    }
  }

  // ---- what the two passes give ----

  /** The links with forces f added to their external forces. */
  function WithForces(x: seq<LinkState>, f: seq<Spatial>): (r: seq<LinkState>)
    requires |f| == |x|
    ensures |r| == |x|
  {
    seq(|x|, i requires 0 <= i < |x| => x[i].(ext := Plus(x[i].ext, f[i])))
  }

  /** The root acceleration is the one its type asks for: the six equations solved, or none. */
  ghost predicate RootMoves(t: Shape, x: seq<LinkState>, a0: Spatial)
    requires Fits(t, x)
  {
    if x[0].joint == FREE_JOINT then Apply(Inbound(t, x, 0).inertia, a0) == Negated(Inbound(t, x, 0).bias)
    else a0 == ZERO6
  }

  /** The change between two motions. */
  function Change(after: seq<Spatial>, before: seq<Spatial>): (d: seq<Spatial>)
    requires |after| == |before|
    ensures |d| == |before|
  {
    seq(|before|, j requires 0 <= j < |before| => Minus(after[j], before[j]))
  }

  /** Forces are the forces before, plus those of the change. */
  lemma {:induction false} ForcesAdd(t: Shape, x: seq<LinkState>, f: seq<Spatial>, b: seq<Spatial>, a: seq<Spatial>,
                                     k: int)
    requires Fits(t, x) && |f| == |b| == |a| == |x| && t.IsLink(k)
    ensures Force(t, Loaded(WithForces(x, f)), b, k)
         == Plus(Force(t, Loaded(x), a, k), Force(t, Pushed(x, f), Change(b, a), k))
    decreases |x| - k, 1
  {
    hide Apply, Plus, Minus, SiblingForces;
    var d := Minus(b[k], a[k]);
    SiblingForcesAdd(t, x, f, b, a, t.child[k]);
    PlusMinus(a[k], b[k]);
    ApplyPlus(x[k].inertia, a[k], d);
    ForceShuffle(x[k].bias, x[k].ext, f[k],
                 SiblingForces(t, Loaded(x), a, t.child[k]), SiblingForces(t, Pushed(x, f), Change(b, a), t.child[k]),
                 Apply(x[k].inertia, a[k]), Apply(x[k].inertia, d));
  }

  lemma {:induction false} SiblingForcesAdd(t: Shape, x: seq<LinkState>, f: seq<Spatial>, b: seq<Spatial>,
                                            a: seq<Spatial>, k: int)
    requires Fits(t, x) && |f| == |b| == |a| == |x| && t.IsPointer(k)
    ensures SiblingForces(t, Loaded(WithForces(x, f)), b, k)
         == Plus(SiblingForces(t, Loaded(x), a, k), SiblingForces(t, Pushed(x, f), Change(b, a), k))
    decreases if k == -1 then 0 else |x| - k, 2
  {
    hide Plus, Force, Loaded, WithForces, Pushed, Change;
    if k == -1 {
      PlusNothing(ZERO6);
    } else {
      ForcesAdd(t, x, f, b, a, k);
      SiblingForcesAdd(t, x, f, b, a, t.sibling[k]);
      PlusCross(Force(t, Loaded(x), a, k), Force(t, Pushed(x, f), Change(b, a), k),
                SiblingForces(t, Loaded(x), a, t.sibling[k]),
                SiblingForces(t, Pushed(x, f), Change(b, a), t.sibling[k]));
    }
  }

  lemma PlusMinus(a: Spatial, b: Spatial)
    ensures b == Plus(a, Minus(b, a))
  {}

  lemma PlusCross(a: Spatial, b: Spatial, c: Spatial, d: Spatial)
    ensures Plus(Plus(a, b), Plus(c, d)) == Plus(Plus(a, c), Plus(b, d))
  {}

  lemma ForceShuffle(b: Spatial, e: Spatial, f: Spatial, s: Spatial, r: Spatial, i: Spatial, j: Spatial)
    ensures Plus(Plus(Minus(b, Plus(e, f)), Plus(s, r)), Plus(i, j))
         == Plus(Plus(Plus(Minus(b, e), s), i), Plus(Plus(Negated(f), r), j))
  {}

  /** What the passes give when forces f are added, less what they give without, is a response to f. */
  lemma AddedForcesRespond(t: Shape, x: seq<LinkState>, f: seq<Spatial>, a0: Spatial, b0: Spatial)
    requires Fits(t, x) && |f| == |x| && Prepared(t, x) && Regular(t, x)
    requires RootMoves(t, x, a0) && RootMoves(t, WithForces(x, f), b0)
    ensures Responds(t, x, f, AddedMotion(t, x, f, a0, b0))
  {
    hide Plus, Minus, Apply, Inner, Product, Force, Inbound, Accelerations, Prepared, Regular;
    var x' := WithForces(x, f);
    var m := AddedMotion(t, x, f, a0, b0);
    SameRegular(t, x, f);
    NewtonEuler(t, x, a0);
    NewtonEuler(t, x', b0);
    forall j | 0 < j < |x|
      ensures m.a[j] == if x[j].Moving() then Plus(m.a[t.parent[j]], Times(m.ddq[j], x[j].axis)) else m.a[t.parent[j]]
      ensures x[j].Moving() ==> Inner(x[j].axis, Force(t, Pushed(x, f), m.a, j)) + Product(x[j].rotor, m.ddq[j]) == 0.0
    {
      JointResponds(t, x, f, a0, b0, j);
    }
    RootResponds(t, x, f, a0, b0);
  }

  ghost function AddedMotion(t: Shape, x: seq<LinkState>, f: seq<Spatial>, a0: Spatial, b0: Spatial): (m: Motion)
    requires Fits(t, x) && |f| == |x|
    ensures |m.a| == |m.ddq| == |x|
  {
    Motion(Change(Accelerations(t, WithForces(x, f), b0), Accelerations(t, x, a0)),
           seq(|x|, j requires 0 <= j < |x| =>
             if j == 0 then 0.0 else JointRate(t, WithForces(x, f), b0, j) - JointRate(t, x, a0, j)))
  }

  /** Forces play no part in whether the passes divide by zero. */
  lemma SameRegular(t: Shape, x: seq<LinkState>, f: seq<Spatial>)
    requires Fits(t, x) && |f| == |x| && Prepared(t, x) && Regular(t, x)
    ensures Prepared(t, WithForces(x, f)) && Regular(t, WithForces(x, f))
  {
    hide Apply, Inner, Plus, Minus, Inbound;
    forall i | 0 < i < |x| && x[i].Moving()
      ensures Inbound(t, WithForces(x, f), i).dd != 0.0
    {
      SameInertia(t, x, f, i);
    }
  }

  lemma {:induction false} SameInertia(t: Shape, x: seq<LinkState>, f: seq<Spatial>, i: int)
    requires Fits(t, x) && |f| == |x| && t.IsLink(i)
    ensures var y, y' := Inbound(t, x, i), Inbound(t, WithForces(x, f), i);
      y'.joint == y.joint && y'.inertia == y.inertia && y'.hh == y.hh && y'.dd == y.dd
    decreases |x| - i, 1
  {
    hide Apply, Inner, Plus, Minus, ChildInertias, ChildBiases;
    SameInertias(t, x, f, t.child[i], x[i].inertia);
  }

  lemma {:induction false} SameInertias(t: Shape, x: seq<LinkState>, f: seq<Spatial>, k: int, acc: Inertia)
    requires Fits(t, x) && |f| == |x| && t.IsPointer(k)
    ensures ChildInertias(t, WithForces(x, f), k, acc) == ChildInertias(t, x, k, acc)
    decreases if k == -1 then 0 else |x| - k, 2
  {
    hide InertiaAdd, InertiaSub, RankOne, Inbound;
    if k != -1 {
      SameInertia(t, x, f, k);
      SameInertias(t, x, f, t.sibling[k], AddChildInertia(acc, Inbound(t, x, k)));
    }
  }

  lemma JointResponds(t: Shape, x: seq<LinkState>, f: seq<Spatial>, a0: Spatial, b0: Spatial, j: int)
    requires Fits(t, x) && |f| == |x| && 0 < j < |x|
    requires BalancedAt(t, x, Accelerations(t, x, a0), j, JointRate(t, x, a0, j))
    requires var x' := WithForces(x, f); BalancedAt(t, x', Accelerations(t, x', b0), j, JointRate(t, x', b0, j))
    ensures var m := AddedMotion(t, x, f, a0, b0);
      && m.a[j] == (if x[j].Moving() then Plus(m.a[t.parent[j]], Times(m.ddq[j], x[j].axis)) else m.a[t.parent[j]])
      && (x[j].Moving() ==> Inner(x[j].axis, Force(t, Pushed(x, f), m.a, j)) + Product(x[j].rotor, m.ddq[j]) == 0.0)
  {
    hide Plus, Minus, Inner, Product, Force, Times, Accelerations, JointRate;
    var x', m := WithForces(x, f), AddedMotion(t, x, f, a0, b0);
    var a, b := Accelerations(t, x, a0), Accelerations(t, x', b0);
    var p := t.parent[j];
    ForcesAdd(t, x, f, b, a, j);
    if x[j].Moving() {
      var e, e' := JointRate(t, x, a0, j), JointRate(t, x', b0, j);
      TimesSum(e, e' - e, x[j].axis);
      ChangeShuffle(a[p], b[p], x[j].vel, Times(e, x[j].axis), Times(e' - e, x[j].axis));
      InnerPlus(x[j].axis, Force(t, Loaded(x), a, j), Force(t, Pushed(x, f), m.a, j));
      ProductSub(x[j].rotor, e', e);
    }
  }

  lemma ChangeShuffle(a: Spatial, b: Spatial, v: Spatial, s: Spatial, d: Spatial)
    ensures Minus(Plus(Plus(b, v), Plus(s, d)), Plus(Plus(a, v), s)) == Plus(Minus(b, a), d)
  {}

  lemma RootResponds(t: Shape, x: seq<LinkState>, f: seq<Spatial>, a0: Spatial, b0: Spatial)
    requires Fits(t, x) && |f| == |x| && Prepared(t, x) && Regular(t, x)
    requires Prepared(t, WithForces(x, f)) && Regular(t, WithForces(x, f))
    requires RootMoves(t, x, a0) && RootMoves(t, WithForces(x, f), b0)
    ensures RootRests(t, x, f, AddedMotion(t, x, f, a0, b0))
  {
    hide Plus, Minus, Apply, Force, Inbound, Prepared, Regular, JointRate;
    var x' := WithForces(x, f);
    var a, b := Accelerations(t, x, a0), Accelerations(t, x', b0);
    NewtonEuler(t, x, a0);
    NewtonEuler(t, x', b0);
    assert a[0] == a0 && b[0] == b0;
    ForcesAdd(t, x, f, b, a, 0);
    PlusNothing(Force(t, Pushed(x, f), Change(b, a), 0));
    MinusItself(a0);
  }

  lemma MinusItself(a: Spatial)
    ensures Minus(a, a) == ZERO6
  {}
}
