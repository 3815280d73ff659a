/** What the spatial quantities of the articulated-body method say of the links as rigid bodies: how the origin of
    a link moves and accelerates against its parent's, and which force and torque that takes. */
module RigidMotion {
  import opened LinearAlgebra
  import opened Links
  import opened ArticulatedBody
  import opened SplitPasses
  import opened PositiveInertia
  import opened Rotation
  import opened ForwardDynamicsABM
  import opened RigidLinks

  /** a x (b x c) as a combination of b and c. */
  lemma CrossCross(a: Vec3, b: Vec3, c: Vec3)
    ensures Cross(a, Cross(b, c)) == Sub(Scale(Dot(a, c), b), Scale(Dot(a, b), c))
  {
    hide Product;
    CrossCrossComponent(a.x, a.y, a.z, b.x, b.y, b.z, c.x, c.y, c.z);
    CrossCrossComponent(a.y, a.z, a.x, b.y, b.z, b.x, c.y, c.z, c.x);
    CrossCrossComponent(a.z, a.x, a.y, b.z, b.x, b.y, c.z, c.x, c.y);
  }

  lemma CrossCrossComponent(a1: real, a2: real, a3: real, b1: real, b2: real, b3: real, c1: real, c2: real, c3: real)
    ensures Product(a2, Product(b1, c2) - Product(b2, c1)) - Product(a3, Product(b3, c1) - Product(b1, c3))
         == Product(Product(a1, c1) + Product(a2, c2) + Product(a3, c3), b1)
          - Product(Product(a1, b1) + Product(a2, b2) + Product(a3, b3), c1)
  {
    hide Product;
    ProductSub(a2, Product(b1, c2), Product(b2, c1));
    ProductSub(a3, Product(b3, c1), Product(b1, c3));
    ProductAdd(Product(a1, c1) + Product(a2, c2), Product(a3, c3), b1);
    ProductAdd(Product(a1, c1), Product(a2, c2), b1);
    ProductAdd(Product(a1, b1) + Product(a2, b2), Product(a3, b3), c1);
    ProductAdd(Product(a1, b1), Product(a2, b2), c1);
    Rotated(a1, c1, b1);
    Rotated(a2, c2, b1);
    Rotated(a3, c3, b1);
    Rotated(a2, b2, c1);
    Rotated(a3, b3, c1);
  }

  lemma Rotated(a: real, b: real, c: real)
    ensures Product(Product(a, b), c) == Product(a, Product(c, b)) == Product(a, Product(b, c))
         == Product(Product(a, c), b)
  {
    hide Product;
    ProductAssoc(a, b, c);
    ProductAssoc(a, c, b);
    ProductComm(b, c);
  }

  lemma Jacobi(a: Vec3, b: Vec3, c: Vec3)
    ensures Add(Add(Cross(a, Cross(b, c)), Cross(b, Cross(c, a))), Cross(c, Cross(a, b))) == ZERO3
  {
    hide Dot, Cross, Product, Scale;
    CrossCross(a, b, c);
    CrossCross(b, c, a);
    CrossCross(c, a, b);
    DotComm(a, b);
    DotComm(b, c);
    DotComm(c, a);
  }

  // ---- position ----

  /** In the frame of its parent, a link is where its joint puts it, turned by its joint. */
  lemma RelativePose(l: Link, parent: Link, rodrigues: (Vec3, real) -> Mat3)
    requires PlacedAt(l, parent, rodrigues) && Orthogonal(parent.R)
    ensures Mul(Transpose(parent.R), Sub(l.p, parent.p))
         == if l.jointType == SLIDE_JOINT then Add(l.b, Scale(l.q, l.d)) else l.b
    ensures forall x: Vec3 :: Mul(Transpose(parent.R), Mul(l.R, x))
                           == if l.jointType == ROTATIONAL_JOINT then Mul(rodrigues(l.a, l.q), x) else x
  {
    hide Mul, MatMul, Transpose, Scale;
    var arm := if l.jointType == SLIDE_JOINT then Add(l.b, Scale(l.q, l.d)) else l.b;
    assert Sub(l.p, parent.p) == Mul(parent.R, arm);
    forall x: Vec3
      ensures Mul(Transpose(parent.R), Mul(l.R, x))
           == if l.jointType == ROTATIONAL_JOINT then Mul(rodrigues(l.a, l.q), x) else x
    {
      MulMatMul(parent.R, rodrigues(l.a, l.q), x);
    }
  }

  /** The axis of a rotational joint is the same line in both links. */
  lemma HingeKeepsAxis(l: Link, parent: Link, rodrigues: (Vec3, real) -> Mat3)
    requires Joined(l, parent, rodrigues) && l.jointType == ROTATIONAL_JOINT && Mul(rodrigues(l.a, l.q), l.a) == l.a
    ensures Mul(l.R, l.a) == l.sw == Mul(parent.R, l.a)
  {
    hide Mul, MatMul, Cross, Scale;
    MulMatMul(parent.R, rodrigues(l.a, l.q), l.a);
  }

  // ---- velocity ----

  /** How fast a joint itself moves the origin of its link. */
  ghost function JointSlide(l: Link, parent: Link): Vec3
    reads l`jointType, l`dq, l`d, parent`R
  {
    if l.jointType == SLIDE_JOINT then Scale(l.dq, Mul(parent.R, l.d)) else ZERO3
  }

  /** The axis through the origin of its link adds nothing to that origin's velocity. */
  lemma AxisAtOrigin(vo: Vec3, w: Vec3, p: Vec3, s: Vec3, k: real)
    ensures Add(Add(Scale(k, Cross(p, s)), vo), Cross(Add(Scale(k, s), w), p)) == Add(vo, Cross(w, p))
  {
    hide Cross, Scale;
    CrossLeft(Scale(k, s), w, k, p);
    CrossLeft(s, w, k, p);
    CrossTurns(s, p);
    NegatedScale(k, Cross(p, s));
  }

  /** A link is placed and moves against its parent as its joint says. */
  ghost predicate Joined(l: Link, parent: Link, rodrigues: (Vec3, real) -> Mat3)
    reads l`jointType, l`R, l`p, l`b, l`q, l`d, l`a, l`dq, l`sv, l`sw, l`cv, l`cw, l`vo, l`w
    reads parent`R, parent`p, parent`vo, parent`w
  {
    PlacedAt(l, parent, rodrigues) && MovesWith(l, parent)
  }

  /** The velocity of the origin of a link is that of its body at that point. */
  ghost predicate Timed(l: Link)
    reads l`v, l`vo, l`w, l`p
  {
    l.v == Add(l.vo, Cross(l.w, l.p))
  }

  /** After the first pass the origin of a link moves as a point of its parent does, and at a slide joint along
      the axis besides. Its angular velocity is its parent's, and at a rotational joint that about the axis besides. */
  lemma MovesRigidly(l: Link, parent: Link, rodrigues: (Vec3, real) -> Mat3)
    requires Joined(l, parent, rodrigues) && Timed(l) && Timed(parent)
    ensures l.v == Add(Add(parent.v, Cross(parent.w, Sub(l.p, parent.p))), JointSlide(l, parent))
    ensures l.w == Add(parent.w, if l.jointType == ROTATIONAL_JOINT then Scale(l.dq, Mul(parent.R, l.a)) else ZERO3)
  {
    hide PlacedAt, Cross, Scale, Mul, CrossMotion;
    CrossSub(parent.w, l.p, parent.p);
    match l.jointType {
      case ROTATIONAL_JOINT => AxisAtOrigin(parent.vo, parent.w, l.p, Mul(parent.R, l.a), l.dq);
      case SLIDE_JOINT => SlideTurnsNothing(l.dq, parent.w);
      case _ =>
    }
  }

  /** What the first pass leaves is of this kind. */
  lemma Phase1MovesRigidly(l: Link, parent: Link, rodrigues: (Vec3, real) -> Mat3, g: Vec3)
    requires l.parent == parent && Phase1At(l, rodrigues, g) && Phase1At(parent, rodrigues, g)
    ensures l.v == Add(Add(parent.v, Cross(parent.w, Sub(l.p, parent.p))), JointSlide(l, parent))
    ensures l.w == Add(parent.w, if l.jointType == ROTATIONAL_JOINT then Scale(l.dq, Mul(parent.R, l.a)) else ZERO3)
  {
    hide PlacedAt, MovesWith, Cross, Scale, Mul;
    MovesRigidly(l, parent, rodrigues);
  }

  // ---- acceleration ----

  /** What turning adds to the acceleration at an arm. */
  function Swung(w: Vec3, dw: Vec3, arm: Vec3): Vec3 { Add(Cross(w, Cross(w, arm)), Cross(dw, arm)) }

  /** The acceleration of the origin of a link: the rate of change of vo + w x p, where p moves with velocity v. */
  ghost function OriginAcceleration(l: Link): Vec3
    reads l`dvo, l`dw, l`p, l`w, l`v
  {
    Add(Add(l.dvo, Cross(l.dw, l.p)), Cross(l.w, l.v))
  }

  /** A carried axis through the origin of its link adds nothing to that origin's acceleration. */
  lemma CarriedAxis(vo: Vec3, w: Vec3, p: Vec3, s: Vec3)
    ensures Add(Add(Add(Cross(w, Cross(p, s)), Cross(vo, s)), Cross(Cross(w, s), p)), Cross(s, Add(vo, Cross(w, p))))
         == ZERO3
  {
    hide Cross;
    Jacobi(w, p, s);
    CrossTurns(Cross(w, s), p);
    CrossTurns(w, s);
    CrossNeg(p, Cross(s, w));
    CrossAdd(s, vo, Cross(w, p));
    CrossTurns(vo, s);
  }

  lemma ScaleFour(k: real, a: Vec3, b: Vec3, c: Vec3, d: Vec3)
    requires Add(Add(Add(a, b), c), d) == ZERO3
    ensures Add(Add(Scale(k, Add(a, b)), Scale(k, c)), Scale(k, d)) == ZERO3
  {
    hide Scale;
    ScaleAdd(k, Add(a, b), c);
    ScaleAdd(k, Add(Add(a, b), c), d);
    ScaleZero(k);
  }

  /** The acceleration that a rotational joint gives to the origin of its link: that of a point of the parent. */
  lemma RotationalOrigin(vo: Vec3, w: Vec3, p: Vec3, s: Vec3, k: real, e: real, dvo: Vec3, dw: Vec3)
    ensures var v, a := Add(vo, Cross(w, p)), Cross(p, s);
      var dvo1 := Add(Add(dvo, Scale(k, Add(Cross(w, a), Cross(vo, s)))), Scale(e, a));
      var dw1 := Add(Add(dw, Scale(k, Cross(w, s))), Scale(e, s));
      Add(Add(dvo1, Cross(dw1, p)), Cross(Add(Scale(k, s), w), v)) == Add(Add(dvo, Cross(dw, p)), Cross(w, v))
  {
    hide Cross, Scale;
    var v, a := Add(vo, Cross(w, p)), Cross(p, s);
    CrossLeft(Add(dw, Scale(k, Cross(w, s))), Scale(e, s), 1.0, p);
    CrossLeft(dw, Scale(k, Cross(w, s)), 1.0, p);
    CrossLeft(Cross(w, s), ZERO3, k, p);
    CrossLeft(s, ZERO3, e, p);
    CrossLeft(Scale(k, s), w, 1.0, v);
    CrossLeft(s, ZERO3, k, v);
    CrossTurns(s, p);
    NegatedScale(e, a);
    CarriedAxis(vo, w, p, s);
    ScaleFour(k, Cross(w, a), Cross(vo, s), Cross(Cross(w, s), p), Cross(s, v));
  }

  /** The acceleration of a point of a rigid body at an arm from another. */
  lemma ArmAcceleration(vo: Vec3, w: Vec3, dvo: Vec3, dw: Vec3, p: Vec3, q: Vec3)
    ensures Add(Add(dvo, Cross(dw, p)), Cross(w, Add(vo, Cross(w, p))))
         == Add(Add(Add(dvo, Cross(dw, q)), Cross(w, Add(vo, Cross(w, q)))), Swung(w, dw, Sub(p, q)))
  {
    hide Cross;
    CrossSub(dw, p, q);
    CrossSub(w, p, q);
    CrossSub(w, Cross(w, p), Cross(w, q));
    CrossAdd(w, vo, Cross(w, p));
    CrossAdd(w, vo, Cross(w, q));
  }

  /** What a slide joint adds: the acceleration along its axis, and that of moving along a turning axis. */
  lemma SlideOrigin(vo: Vec3, w: Vec3, p: Vec3, d: Vec3, k: real, e: real, dvo: Vec3, dw: Vec3)
    ensures var v, out := Add(vo, Cross(w, p)), Scale(k, Cross(w, d));
      Add(Add(Add(Add(dvo, out), Scale(e, d)), Cross(dw, p)), Cross(w, Add(v, Scale(k, d))))
      == Add(Add(Add(Add(dvo, Cross(dw, p)), Cross(w, v)), Scale(2.0 * k, Cross(w, d))), Scale(e, d))
  {
    hide Cross, Scale;
    CrossAdd(w, Add(vo, Cross(w, p)), Scale(k, d));
    CrossScale(w, k, d);
    ScaleSum(k, k, Cross(w, d));
    assert k + k == 2.0 * k;
  }

  /** How a joint accelerates the origin of its link beside its parent. */
  ghost function JointAdds(l: Link, parent: Link): Vec3
    reads l`jointType, l`dq, l`ddq, l`d, parent`R, parent`w
  {
    if l.jointType == SLIDE_JOINT then
      var d := Mul(parent.R, l.d);
      Add(Scale(2.0 * l.dq, Cross(parent.w, d)), Scale(l.ddq, d))
    else ZERO3
  }

  /** Once the joints are balanced, the origin of a link accelerates as a point of its parent does and, at a slide
      joint, along the axis and by the turning of the axis besides. */
  lemma AcceleratesRigidly(l: Link, parent: Link, rodrigues: (Vec3, real) -> Mat3)
    requires Joined(l, parent, rodrigues) && Timed(l) && Timed(parent)
    requires Acceleration(l) == Plus(Plus(Acceleration(parent), CrossTermOf(l)), Times(l.ddq, AxisOf(l)))
    ensures OriginAcceleration(l)
         == Add(Add(OriginAcceleration(parent), Swung(parent.w, parent.dw, Sub(l.p, parent.p))), JointAdds(l, parent))
    ensures l.dw == Add(parent.dw, JointTurns(l, parent))
  {
    hide PlacedAt, Cross, Scale, Mul, Swung;
    ArmAcceleration(parent.vo, parent.w, parent.dvo, parent.dw, l.p, parent.p);
    match l.jointType {
      case ROTATIONAL_JOINT =>
        var s := Mul(parent.R, l.a);
        AxisAtOrigin(parent.vo, parent.w, l.p, s, l.dq);
        RotationalOrigin(parent.vo, parent.w, l.p, s, l.dq, l.ddq, parent.dvo, parent.dw);
      case SLIDE_JOINT =>
        var d := Mul(parent.R, l.d);
        SlideTurnsNothing(l.dq, parent.w);
        NothingTurned(parent.w, parent.vo, l.dq, l.ddq, d);
        SlideOrigin(parent.vo, parent.w, l.p, d, l.dq, l.ddq, parent.dvo, parent.dw);
      case _ =>
        ScaleZero(l.ddq);
    }
  }

  /** How a joint accelerates the turning of its link beside its parent's. */
  ghost function JointTurns(l: Link, parent: Link): Vec3
    reads l`jointType, l`dq, l`ddq, l`a, parent`R, parent`w
  {
    if l.jointType == ROTATIONAL_JOINT then
      var s := Mul(parent.R, l.a);
      Add(Scale(l.dq, Cross(parent.w, s)), Scale(l.ddq, s))
    else ZERO3
  }

  lemma NothingTurned(w: Vec3, vo: Vec3, k: real, e: real, d: Vec3)
    ensures Scale(k, Add(Cross(w, d), Cross(vo, ZERO3))) == Scale(k, Cross(w, d))
    ensures Scale(k, Cross(w, ZERO3)) == ZERO3 == Scale(e, ZERO3)
  {
    hide Cross, Scale;
    CrossZero(w);
    CrossTurns(w, ZERO3);
    CrossZero(vo);
    CrossTurns(vo, ZERO3);
    ScaleZero(k);
    ScaleZero(e);
  }

  // ---- force ----

  /** What a rigid inertia makes of a velocity: the momentum of its centre, with what turns about it. */
  lemma MomentumAtCentre(m: real, wc: Vec3, iw: Mat3, vel: Spatial)
    ensures var e := Add(vel.v, Cross(vel.w, wc));
      Apply(RigidInertia(m, wc, iw), vel) == Spatial(Scale(m, e), Add(Scale(m, Cross(wc, e)), Mul(iw, vel.w)))
  {
    hide Mul, MatMul, Hat, Cross, Add, Scale, MatAdd, MatScale;
    var h := Hat(wc);
    RigidMomentum(m, wc, iw, vel);
    MulMatAdd(MatScale(m, MatMul(h, Transpose(h))), iw, vel.w);
    MulScale(MatMul(h, Transpose(h)), m, vel.w);
    MulMatMul(h, Transpose(h), vel.w);
    HatCrosses(wc, vel.w);
    HatCrosses(wc, Cross(vel.w, wc));
    AngularPart(m, wc, vel, Mul(iw, vel.w));
  }

  /** Carrying the momentum of a centre along takes the force that turns its velocity, acting at the centre. */
  lemma MomentumTurned(vo: Vec3, w: Vec3, c: Vec3)
    ensures var u := Add(vo, Cross(w, c)); Add(Cross(vo, u), Cross(w, Cross(c, u))) == Cross(c, Cross(w, u))
  {
    hide Cross;
    var e := Cross(w, c);
    var u := Add(vo, e);
    Jacobi(w, c, u);
    CrossTurns(u, w);
    CrossNeg(c, Cross(w, u));
    CrossAdd(vo, vo, e);
    SelfCross(vo);
    SelfCross(e);
    CrossLeft(vo, e, 1.0, e);
  }

  /** The acceleration of the centre of mass: the rate of change of vo + w x wc. */
  ghost function CentreAcceleration(l: Link, a: Spatial): Vec3
    reads l`vo, l`w, l`wc
  {
    Add(Add(a.v, Cross(a.w, l.wc)), Cross(l.w, Add(l.vo, Cross(l.w, l.wc))))
  }

  /** The force that a rigid link needs, by Newton's and Euler's equations: its mass times the acceleration of its
      centre, gravity being an acceleration upward, and about the centre what turns its tensor. */
  ghost function NewtonEulerForce(l: Link, g: Vec3, a: Spatial): Spatial
    reads l`vo, l`w, l`wc, l`m, l`R, l`I
  {
    var f, iw := Scale(l.m, Add(CentreAcceleration(l, a), g)), WorldTensor(l.R, l.I);
    Spatial(f, Add(Cross(l.wc, f), Add(Mul(iw, a.w), Cross(l.w, Mul(iw, l.w)))))
  }

  lemma Collect(m: real, c: Vec3, e: Vec3, t: Vec3, g: Vec3, i: Vec3, j: Vec3)
    ensures Sub(Add(Scale(m, e), Scale(m, t)), Scale(-m, g)) == Scale(m, Add(Add(e, t), g))
    ensures Add(Add(Scale(m, Cross(c, e)), i), Sub(Add(Scale(m, Cross(c, t)), j), Cross(c, Scale(-m, g))))
         == Add(Cross(c, Scale(m, Add(Add(e, t), g))), Add(i, j))
  {
    hide Cross, Scale;
    ScaleAdd(m, e, t);
    ScaleAdd(m, Add(e, t), g);
    NegatedScale(m, g);
    CrossScale(c, m, e);
    CrossScale(c, m, t);
    CrossNeg(c, Scale(m, g));
    CrossAdd(c, Scale(m, e), Scale(m, t));
    CrossAdd(c, Add(Scale(m, e), Scale(m, t)), Scale(m, g));
  }

  /** The inertia and the bias of the first pass are those of Newton and Euler. */
  lemma RigidForce(l: Link, g: Vec3, inertia: Inertia, bias: Spatial, a: Spatial)
    requires RigidValues(l, g, inertia, bias)
    ensures Plus(Apply(inertia, a), bias) == NewtonEulerForce(l, g, a)
  {
    hide Cross, Scale, Mul, RigidInertia, WorldTensor, Apply;
    var m, c, iw, w := l.m, l.wc, WorldTensor(l.R, l.I), l.w;
    var e, u := Add(a.v, Cross(a.w, c)), Add(l.vo, Cross(w, c));
    MomentumAtCentre(m, c, iw, a);
    MomentumAtCentre(m, c, iw, VelocityOf(l));
    MomentumTurned(l.vo, w, c);
    CrossScale(w, m, u);
    CrossScale(l.vo, m, u);
    CrossAdd(w, Scale(m, Cross(c, u)), Mul(iw, w));
    CrossScale(w, m, Cross(c, u));
    ScaleAdd(m, Cross(l.vo, u), Cross(w, Cross(c, u)));
    Collect(m, c, e, Cross(w, u), g, Mul(iw, a.w), Cross(w, Mul(iw, w)));
    Regrouped(Add(Scale(m, Cross(c, e)), Mul(iw, a.w)), Scale(m, Cross(l.vo, u)), Scale(m, Cross(w, Cross(c, u))),
              Cross(w, Mul(iw, w)), Cross(c, Scale(-m, g)));
    Shifted(Scale(m, e), Scale(m, Cross(w, u)), Scale(-m, g));
  }

  lemma Regrouped(a: Vec3, b: Vec3, c: Vec3, d: Vec3, e: Vec3)
    ensures Add(a, Sub(Add(b, Add(c, d)), e)) == Add(a, Sub(Add(Add(b, c), d), e))
  {}

  lemma Shifted(a: Vec3, b: Vec3, c: Vec3)
    ensures Add(a, Sub(b, c)) == Sub(Add(a, b), c)
  {}

  // ---- both halves of the method ----

  /** The part that needs no forces leaves no divisor that the whole pass does not have. */
  lemma FirstHalfDivides(t: Shape, w: seq<LinkState>)
    requires Fits(t, w) && Regular(t, w)
    ensures forall j | 0 < j < |w| && w[j].Moving() :: FirstHalf(t, w, j).dd != 0.0
  {
    hide FirstHalfInertias, FirstHalfBiases, SecondHalfBiases, ChildInertias, ChildBiases;
    var z := FirstHalves(t, w);
    forall j | 0 < j < |w| && w[j].Moving()
      ensures FirstHalf(t, w, j).dd != 0.0
    {
      HalvesAgree(t, w, z, w, j);
      assert SecondHalf(t, z, j).dd == z[j].dd;
    }
  }

  ghost function FirstHalves(t: Shape, w: seq<LinkState>): (z: seq<LinkState>)
    requires Fits(t, w)
    ensures Resupplied(t, w, z, w)
  {
    seq(|w|, i requires 0 <= i < |w| => FirstHalf(t, w, i))
  }

  /** The first pass and the part of the inbound pass that needs no forces, for links that have mass. */
  method CalcABMFirstHalf(traverse: seq<Link>, ghost t: Shape, rodrigues: (Vec3, real) -> Mat3, g: Vec3)
    returns (ghost w: seq<LinkState>)
    requires Represents(traverse, t) && SoundBody(traverse, rodrigues) && Orthogonal(traverse[0].R)
    modifies traverse`R, traverse`p, traverse`sw, traverse`sv, traverse`w, traverse`vo, traverse`cv, traverse`cw
    modifies traverse`v, traverse`wc, traverse`Iww, traverse`Ivv, traverse`Iwv, traverse`pf, traverse`ptau
    modifies traverse`hhv, traverse`hhw, traverse`dd, traverse`uu
    ensures Fits(t, w) && Massive(t, w) && Resupplied(t, w, States(traverse), w)
    ensures forall j | 0 <= j < |traverse| :: StateOfMotion(traverse[j], w[j], g)
    ensures AllJoined(traverse, rodrigues)
  {
    hide Represents, Shape.Valid, SoundBody, Orthogonal, Massive, Regular, FirstHalf, StateOfMotion, State, AllJoined,
      Resupplied;
    Phase1OfSoundBody(traverse, t, rodrigues, g);
    w := States(traverse);
    MassiveIsRegular(t, w);
    FirstHalfDivides(t, w);
    CalcABMPhase2Part1(traverse, t);
    FirstHalvesResupplied(t, w, States(traverse));
  }

  /** The first pass over a body whose links have mass. */
  method Phase1OfSoundBody(traverse: seq<Link>, ghost t: Shape, rodrigues: (Vec3, real) -> Mat3, g: Vec3)
    requires Represents(traverse, t) && SoundBody(traverse, rodrigues) && Orthogonal(traverse[0].R)
    modifies traverse`R, traverse`p, traverse`sw, traverse`sv, traverse`w, traverse`vo, traverse`cv, traverse`cw
    modifies traverse`v, traverse`wc, traverse`Iww, traverse`Ivv, traverse`Iwv, traverse`pf, traverse`ptau
    ensures Fits(t, States(traverse)) && Massive(t, States(traverse)) && AllJoined(traverse, rodrigues)
    ensures forall j | 0 <= j < |traverse| :: StateOfMotion(traverse[j], State(traverse[j]), g)
  {
    hide Represents, Shape.Valid, SoundBody, Orthogonal, Massive, StateOfMotion, Phase1At, State, States, AllJoined;
    ShapeOf(traverse, t);
    PointersOf(traverse, t, 0);
    CalcABMPhase1(traverse, t, rodrigues, g);
    AllInMotion(traverse, t, rodrigues, g);
    Phase1MakesMassive(traverse, t, rodrigues, g);
  }

  /** The state of a link as the first pass leaves it, in terms of what no later pass changes. */
  ghost predicate StateOfMotion(l: Link, y: LinkState, g: Vec3)
    reads l`jointType, l`R, l`p, l`sv, l`sw, l`cv, l`cw, l`v, l`vo, l`w, l`wc, l`c, l`m, l`I, l`u, l`fext, l`tauext
  {
    && RigidValues(l, g, y.inertia, y.bias)
    && y.joint == l.jointType && y.axis == AxisOf(l) && y.vel == CrossTermOf(l)
    && y.u == l.u && y.ext == Spatial(l.fext, l.tauext)
  }

  ghost predicate AllJoined(links: seq<Link>, rodrigues: (Vec3, real) -> Mat3)
    reads links`parent, links`jointType, links`R, links`p, links`b, links`q, links`d, links`a, links`dq
    reads links`sv, links`sw, links`cv, links`cw, links`vo, links`w
  {
    forall j | 0 <= j < |links| && links[j].parent != null ::
      var parent: Link := links[j].parent;
      parent in links && Joined(links[j], parent, rodrigues)
  }

  lemma AllInMotion(links: seq<Link>, t: Shape, rodrigues: (Vec3, real) -> Mat3, g: Vec3)
    requires Represents(links, t) && forall j | 0 <= j < |links| :: Phase1At(links[j], rodrigues, g)
    ensures forall j | 0 <= j < |links| :: StateOfMotion(links[j], State(links[j]), g)
    ensures AllJoined(links, rodrigues)
  {
    hide PlacedAt, MovesWith, Represents;
    ShapeOf(links, t);
    forall j | 0 <= j < |links|
      ensures StateOfMotion(links[j], State(links[j]), g)
      ensures links[j].parent != null ==> links[j].parent in links
      ensures links[j].parent != null ==> var parent: Link := links[j].parent; Joined(links[j], parent, rodrigues)
    {
      assert Phase1At(links[j], rodrigues, g);
      PointersOf(links, t, j);
    }
  }

  lemma FirstHalvesResupplied(t: Shape, w: seq<LinkState>, z: seq<LinkState>)
    requires Fits(t, w) && |z| == |w| && forall j | 0 <= j < |w| :: z[j] == FirstHalf(t, w, j)
    ensures Resupplied(t, w, z, w)
  {}

  // ---- what the accelerations mean ----

  /** Under the accelerations stored in the links, link i passes on the force that Newton and Euler ask for it and
      its children need, less what acts from outside; and its origin moves and accelerates as a point of its parent
      but for its joint. */
  ghost predicate ObeysNewton(links: seq<Link>, t: Shape, x: seq<LinkState>, g: Vec3, i: int)
    requires Fits(t, x) && |links| == |x| && t.IsLink(i)
    reads links
  {
    var l, a := links[i], AccelerationsOf(links);
    && Force(t, Loaded(x), a, i)
       == Plus(Minus(NewtonEulerForce(l, g, a[i]), x[i].ext), SiblingForces(t, Loaded(x), a, t.child[i]))
    && (i > 0 ==> MovesByJoint(l, links[t.parent[i]]))
  }

  /** Position apart, a link moves against its parent by its joint only. */
  ghost predicate MovesByJoint(l: Link, parent: Link)
    reads l, parent
  {
    && l.v == Add(Add(parent.v, Cross(parent.w, Sub(l.p, parent.p))), JointSlide(l, parent))
    && l.w == Add(parent.w, if l.jointType == ROTATIONAL_JOINT then Scale(l.dq, Mul(parent.R, l.a)) else ZERO3)
    && OriginAcceleration(l)
       == Add(Add(OriginAcceleration(parent), Swung(parent.w, parent.dw, Sub(l.p, parent.p))), JointAdds(l, parent))
    && l.dw == Add(parent.dw, JointTurns(l, parent))
  }

  lemma BalancedObeys(links: seq<Link>, t: Shape, x: seq<LinkState>, rodrigues: (Vec3, real) -> Mat3, g: Vec3, i: int)
    requires Represents(links, t) && Fits(t, x) && |links| == |x| && t.IsLink(i) && Balanced(links, t, x)
    requires AllJoined(links, rodrigues) && forall j | 0 <= j < |links| :: StateOfMotion(links[j], x[j], g)
    ensures ObeysNewton(links, t, x, g, i)
  {
    hide Represents, Shape.Valid, Balanced, AllJoined, MovesByJoint, RigidValues, SiblingForces, Apply,
      NewtonEulerForce;
    var l, a := links[i], AccelerationsOf(links);
    PointersOf(links, t, i);
    assert StateOfMotion(l, x[i], g);
    RigidForce(l, g, x[i].inertia, x[i].bias, a[i]);
    LoadedForce(x[i].bias, x[i].ext, SiblingForces(t, Loaded(x), a, t.child[i]), Apply(x[i].inertia, a[i]));
    if i > 0 {
      JointMoves(links, t, x, rodrigues, g, i);
    }
  }

  lemma JointMoves(links: seq<Link>, t: Shape, x: seq<LinkState>, rodrigues: (Vec3, real) -> Mat3, g: Vec3, i: int)
    requires Represents(links, t) && Fits(t, x) && |links| == |x| && 0 < i < |x| && Balanced(links, t, x)
    requires AllJoined(links, rodrigues) && forall j | 0 <= j < |links| :: StateOfMotion(links[j], x[j], g)
    ensures 0 <= t.parent[i] < |links| && MovesByJoint(links[i], links[t.parent[i]])
  {
    hide Represents, Shape.Valid, Balanced, Swung, JointAdds, JointTurns, JointSlide, OriginAcceleration, Joined, Timed,
      RigidValues, Mul, Scale, Cross;
    PointersOf(links, t, i);
    var l, parent := links[i], links[t.parent[i]];
    assert Joined(l, parent, rodrigues);
    assert StateOfMotion(l, x[i], g) && StateOfMotion(parent, x[t.parent[i]], g);
    TimedBy(l, g, x[i]);
    TimedBy(parent, g, x[t.parent[i]]);
    FixedStill(l, parent, rodrigues);
    JointMotion(links, t, x, i);
    MovesRigidly(l, parent, rodrigues);
    AcceleratesRigidly(l, parent, rodrigues);
  }

  lemma FixedStill(l: Link, parent: Link, rodrigues: (Vec3, real) -> Mat3)
    requires Joined(l, parent, rodrigues)
    ensures l.jointType == FIXED_JOINT ==> AxisOf(l) == ZERO6 == CrossTermOf(l)
  {
    hide PlacedAt;
  }

  lemma TimedBy(l: Link, g: Vec3, y: LinkState)
    requires StateOfMotion(l, y, g)
    ensures Timed(l)
  {}

  lemma LoadedForce(bias: Spatial, ext: Spatial, below: Spatial, own: Spatial)
    ensures Plus(Plus(Minus(bias, ext), below), own) == Plus(Minus(Plus(own, bias), ext), below)
  {}

  /** A balanced joint moves its link by its own acceleration along its axis, whatever its type. */
  lemma JointMotion(links: seq<Link>, t: Shape, x: seq<LinkState>, i: int)
    requires Fits(t, x) && |links| == |x| && 0 < i < |x| && Balanced(links, t, x)
    requires x[i].joint == links[i].jointType && x[i].axis == AxisOf(links[i]) && x[i].vel == CrossTermOf(links[i])
    requires links[i].jointType == FIXED_JOINT ==> AxisOf(links[i]) == ZERO6 == CrossTermOf(links[i])
    ensures var l, parent := links[i], links[t.parent[i]];
      Acceleration(l) == Plus(Plus(Acceleration(parent), CrossTermOf(l)), Times(l.ddq, AxisOf(l)))
  {
    hide Scale, Force;
    ScaleZero(links[i].ddq);
    assert BalancedAt(t, x, AccelerationsOf(links), i, links[i].ddq);
  }

  /** Both halves, for a body that has mass: afterwards every link obeys Newton's and Euler's equations under the
      accelerations stored in the links, moves against its parent by its joint only, and every moving joint does the
      torque it is commanded. */
  method CalcABM(traverse: seq<Link>, ghost t: Shape, rodrigues: (Vec3, real) -> Mat3, g: Vec3,
                 solve: (Inertia, Spatial) -> Spatial)
    returns (ghost x: seq<LinkState>)
    requires Represents(traverse, t) && SoundBody(traverse, rodrigues) && Orthogonal(traverse[0].R)
    requires forall i, b | Symmetric(i) && Positive(i) :: Apply(i, solve(i, b)) == b
    modifies traverse`R, traverse`p, traverse`sw, traverse`sv, traverse`w, traverse`vo, traverse`cv, traverse`cw
    modifies traverse`v, traverse`wc, traverse`Iww, traverse`Ivv, traverse`Iwv, traverse`pf, traverse`ptau
    modifies traverse`hhv, traverse`hhw, traverse`dd, traverse`uu, traverse`ddq, traverse`dvo, traverse`dw
    ensures Fits(t, x) && Balanced(traverse, t, x)
    ensures forall i | 0 <= i < |x| ::
              x[i].u == traverse[i].u && x[i].ext == Spatial(traverse[i].fext, traverse[i].tauext)
    ensures forall i | 0 <= i < |x| :: ObeysNewton(traverse, t, x, g, i)
  {
    hide Represents, SoundBody, Orthogonal, Massive, Resupplied, State, StateOfMotion, AllJoined, Balanced, ObeysNewton,
      Prepared, Regular, SolvedExactly, Symmetric, Positive, Apply, Shape.Valid;
    ShapeOf(traverse, t);
    x := CalcABMFirstHalf(traverse, t, rodrigues, g);
    MassiveIsSolved(t, x, solve);
    CalcABMLastHalf(traverse, t, solve, x, x);
    forall i | 0 <= i < |x|
      ensures ObeysNewton(traverse, t, x, g, i)
      ensures x[i].u == traverse[i].u && x[i].ext == Spatial(traverse[i].fext, traverse[i].tauext)
    {
      BalancedObeys(traverse, t, x, rodrigues, g, i);
      GivenLoads(traverse[i], x[i], g);
    }
  }

  lemma GivenLoads(l: Link, y: LinkState, g: Vec3)
    requires StateOfMotion(l, y, g)
    ensures y.u == l.u && y.ext == Spatial(l.fext, l.tauext)
  {}

  lemma MassiveIsSolved(t: Shape, x: seq<LinkState>, solve: (Inertia, Spatial) -> Spatial)
    requires Fits(t, x) && Massive(t, x) && forall i, b | Symmetric(i) && Positive(i) :: Apply(i, solve(i, b)) == b
    ensures Prepared(t, x) && Regular(t, x) && SolvedExactly(t, x, solve)
  {
    hide Positive, Symmetric, Apply, Inbound, Prepared;
    MassiveIsRegular(t, x);
    ArticulatedPositive(t, x, 0);
    MassivePrepared(t, x);
    InboundSymmetric(t, x, 0);
  }

  lemma MassivePrepared(t: Shape, x: seq<LinkState>)
    requires Fits(t, x) && Massive(t, x)
    ensures Prepared(t, x)
  {
    hide Positive, Prepared;
  }
}
