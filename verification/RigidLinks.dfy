/** The first pass of the articulated-body method: positions, spatial velocities and the rigid
    inertia and bias of each link, outward from the root; and that it leaves the links as the two
    dynamics passes need them. */
module RigidLinks {
  import opened LinearAlgebra
  import opened Roots
  import opened Links
  import opened ArticulatedBody
  import opened PositiveInertia
  import opened Rotation
  import opened ForwardDynamicsABM

  /** Rate of change of a joint axis s carried along by a spatial velocity. */
  function CrossMotion(vel: Spatial, s: Spatial): Spatial {
    Spatial(Add(Cross(vel.w, s.v), Cross(vel.v, s.w)), Cross(vel.w, s.w))
  }

  /** Rate of change of a spatial momentum carried along by a spatial velocity. */
  function CrossForce(vel: Spatial, momentum: Spatial): Spatial {
    Spatial(Cross(vel.w, momentum.v), Add(Cross(vel.v, momentum.v), Cross(vel.w, momentum.w)))
  }

  /** A force acting at a point. */
  function Wrench(point: Vec3, f: Vec3): Spatial { Spatial(f, Cross(point, f)) }

  /** Rigid inertia about the world origin: mass m at wc, inertia tensor iw about wc. */
  function RigidInertia(m: real, wc: Vec3, iw: Mat3): Inertia {
    Inertia(Mat3(Vec3(m, 0.0, 0.0), Vec3(0.0, m, 0.0), Vec3(0.0, 0.0, m)),
            MatScale(m, Hat(wc)),
            MatAdd(MatScale(m, MatMul(Hat(wc), Transpose(Hat(wc)))), iw))
  }

  function WorldTensor(r: Mat3, i: Mat3): Mat3 { MatMul(MatMul(r, i), Transpose(r)) }

  ghost function VelocityOf(l: Link): Spatial
    reads l`vo, l`w
  {
    Spatial(l.vo, l.w)
  }

  function Axis(joint: JointType, parentR: Mat3, p: Vec3, a: Vec3, d: Vec3): Spatial {
    match joint
    case ROTATIONAL_JOINT => Spatial(Cross(p, Mul(parentR, a)), Mul(parentR, a))
    case SLIDE_JOINT => Spatial(Mul(parentR, d), ZERO3)
    case _ => ZERO6
  }

  /** A link is placed against its parent as its joint says. */
  ghost predicate PlacedAt(l: Link, parent: Link, rodrigues: (Vec3, real) -> Mat3)
    reads l`jointType, l`R, l`p, l`b, l`q, l`d, l`a, parent`R, parent`p
  {
    match l.jointType
    case ROTATIONAL_JOINT => l.R == MatMul(parent.R, rodrigues(l.a, l.q)) && l.p == Add(Mul(parent.R, l.b), parent.p)
    case SLIDE_JOINT => l.R == parent.R && l.p == Add(Mul(parent.R, Add(l.b, Scale(l.q, l.d))), parent.p)
    case _ => l.R == parent.R && l.p == Add(Mul(parent.R, l.b), parent.p)
  }

  /** The link's joint axis and its carried rate of change, as spatial vectors. */
  ghost function AxisOf(l: Link): Spatial
    reads l`sv, l`sw
  {
    Spatial(l.sv, l.sw)
  }

  ghost function CrossTermOf(l: Link): Spatial
    reads l`cv, l`cw
  {
    Spatial(l.cv, l.cw)
  }

  /** A link moves with its parent plus its joint rate along its axis, which is carried along. */
  ghost predicate MovesWith(l: Link, parent: Link)
    reads l`jointType, l`sv, l`sw, l`cv, l`cw, l`p, l`a, l`d, l`dq, l`vo, l`w, parent`R, parent`vo, parent`w
  {
    var s, v := AxisOf(l), VelocityOf(parent);
    && s == Axis(l.jointType, parent.R, l.p, l.a, l.d)
    && (if l.jointType == ROTATIONAL_JOINT || l.jointType == SLIDE_JOINT then
          VelocityOf(l) == Plus(Times(l.dq, s), v) && CrossTermOf(l) == Times(l.dq, CrossMotion(v, s))
        else
          VelocityOf(l) == v && CrossTermOf(l) == ZERO6)
  }

  /** The inertia and the bias of a link: the force that keeps its momentum carried along, less gravity. */
  ghost predicate RigidValues(l: Link, g: Vec3, inertia: Inertia, bias: Spatial)
    reads l`v, l`vo, l`w, l`p, l`wc, l`R, l`c, l`m, l`I
  {
    && l.v == Add(l.vo, Cross(l.w, l.p))
    && l.wc == Add(Mul(l.R, l.c), l.p)
    && inertia == RigidInertia(l.m, l.wc, WorldTensor(l.R, l.I))
    && bias == Minus(CrossForce(VelocityOf(l), Apply(inertia, VelocityOf(l))), Wrench(l.wc, Scale(-l.m, g)))
  }

  ghost predicate RigidAt(l: Link, g: Vec3)
    reads l
  {
    RigidValues(l, g, State(l).inertia, State(l).bias)
  }

  /** The rigid inertia turns a velocity into the momentum of the source's equation (6.25): linear
      momentum m (vo + w x wc), angular momentum Iww w + m wc x vo. */
  lemma RigidMomentum(m: real, wc: Vec3, iw: Mat3, vel: Spatial)
    ensures Apply(RigidInertia(m, wc, iw), vel)
         == Spatial(Scale(m, Add(vel.v, Cross(vel.w, wc))),
                    Add(Mul(RigidInertia(m, wc, iw).ww, vel.w), Scale(m, Cross(wc, vel.v))))
  {
    hide Mul, Hat, Cross, Add, Scale, Product;
    MulScale(Hat(wc), m, vel.v);
    HatCrosses(wc, vel.v);
    HatCrosses(wc, vel.w);
    TransposeScale(m, Hat(wc));
    MulScale(Transpose(Hat(wc)), m, vel.w);
    ScaleAdd(m, vel.v, Cross(vel.w, wc));
    DiagonalMul(m, vel.v);
    AddComm(Mul(MatScale(m, Hat(wc)), vel.v), Mul(RigidInertia(m, wc, iw).ww, vel.w));
  }

  lemma TransposeScale(m: real, a: Mat3)
    ensures Transpose(MatScale(m, a)) == MatScale(m, Transpose(a))
  {
    hide Product;
  }

  lemma DotCrossSlides(w: Vec3, c: Vec3, e: Vec3)
    ensures Dot(w, Cross(c, e)) == Dot(Cross(w, c), e)
  {
    hide Mul, Hat, Cross, Dot, Transpose, RowMul;
    HatCrosses(c, e);
    HatCrosses(c, w);
    MulAdjoint(Hat(c), w, e);
    RowMulIsMul(w, Hat(c));
  }

  lemma RowMulIsMul(a: Vec3, m: Mat3)
    ensures RowMul(a, m) == Mul(Transpose(m), a)
  {}

  lemma DotPositive(a: Vec3)
    ensures Dot(a, a) >= 0.0 && (a != ZERO3 ==> Dot(a, a) > 0.0)
  {
    hide Product;
    SquarePositive(a.x);
    SquarePositive(a.y);
    SquarePositive(a.z);
  }

  /** Kinetic energy splits into that of the mass at the centre and that of the turning body. */
  lemma RigidEnergy(m: real, wc: Vec3, iw: Mat3, vel: Spatial)
    ensures var e := Add(vel.v, Cross(vel.w, wc));
      Energy(RigidInertia(m, wc, iw), vel) == Product(m, Dot(e, e)) + Dot(vel.w, Mul(iw, vel.w))
  {
    hide Mul, MatMul, Hat, Cross, Add, Scale, Product, Dot, MatAdd, MatScale;
    var e, h := Add(vel.v, Cross(vel.w, wc)), Hat(wc);
    RigidMomentum(m, wc, iw, vel);
    MulMatAdd(MatScale(m, MatMul(h, Transpose(h))), iw, vel.w);
    MulScale(MatMul(h, Transpose(h)), m, vel.w);
    MulMatMul(h, Transpose(h), vel.w);
    HatCrosses(wc, vel.w);
    HatCrosses(wc, Cross(vel.w, wc));
    AngularPart(m, wc, vel, Mul(iw, vel.w));
    DotScale(vel.v, m, e);
    DotAdd(vel.w, Scale(m, Cross(wc, e)), Mul(iw, vel.w));
    DotScale(vel.w, m, Cross(wc, e));
    DotCrossSlides(vel.w, wc, e);
    DotAddLeft(vel.v, Cross(vel.w, wc), e);
    ProductAdd(m, Dot(vel.v, e), Dot(Cross(vel.w, wc), e));
  }

  lemma AngularPart(m: real, wc: Vec3, vel: Spatial, iww: Vec3)
    ensures var e := Add(vel.v, Cross(vel.w, wc));
      Add(Add(Scale(m, Cross(wc, Cross(vel.w, wc))), iww), Scale(m, Cross(wc, vel.v)))
      == Add(Scale(m, Cross(wc, e)), iww)
  {
    hide Cross, Scale;
    CrossAdd(wc, vel.v, Cross(vel.w, wc));
    ScaleAdd(m, Cross(wc, vel.v), Cross(wc, Cross(vel.w, wc)));
  }

  /** A tensor that gives every rotation a positive energy. */
  ghost predicate PositiveTensor(i: Mat3) { forall w: Vec3 | w != ZERO3 :: Dot(w, Mul(i, w)) > 0.0 }

  lemma RigidPositive(m: real, wc: Vec3, iw: Mat3)
    requires m > 0.0 && PositiveTensor(iw)
    ensures Positive(RigidInertia(m, wc, iw))
  {
    hide Mul, Cross, Scale, Product, Dot, Energy, RigidInertia;
    forall vel: Spatial | vel != ZERO6
      ensures Energy(RigidInertia(m, wc, iw), vel) > 0.0
    {
      var e := Add(vel.v, Cross(vel.w, wc));
      RigidEnergy(m, wc, iw, vel);
      DotPositive(e);
      ProductSign(m, Dot(e, e));
      if vel.w == ZERO3 {
        CrossZero(wc);
        assert e == vel.v;
        ProductStrict(m, Dot(e, e));
        MulZero(iw);
        DotZero(Mul(iw, ZERO3));
      }
    }
  }

  lemma ProductStrict(a: real, b: real)
    requires a > 0.0 && b > 0.0
    ensures Product(a, b) > 0.0
  {}

  lemma MatMulAssoc(a: Mat3, b: Mat3, c: Mat3)
    ensures MatMul(MatMul(a, b), c) == MatMul(a, MatMul(b, c))
  {
    hide Mul, Transpose, MatMul;
    TransposeMatMul(b, c);
    MatMulRows(MatMul(a, b), c);
    MatMulRows(a, b);
    MatMulRows(a, MatMul(b, c));
    MulMatMul(Transpose(c), Transpose(b), a.r0);
    MulMatMul(Transpose(c), Transpose(b), a.r1);
    MulMatMul(Transpose(c), Transpose(b), a.r2);
  }

  lemma MatMulRows(a: Mat3, b: Mat3)
    ensures MatMul(a, b) == Mat3(Mul(Transpose(b), a.r0), Mul(Transpose(b), a.r1), Mul(Transpose(b), a.r2))
  {}

  lemma WorldTensorSymmetric(r: Mat3, i: Mat3)
    requires IsSymmetric(i)
    ensures IsSymmetric(WorldTensor(r, i))
  {
    hide MatMul;
    TransposeMatMul(MatMul(r, i), Transpose(r));
    TransposeMatMul(r, i);
    MatMulAssoc(r, i, Transpose(r));
  }

  lemma WorldTensorPositive(r: Mat3, i: Mat3)
    requires Orthogonal(r) && PositiveTensor(i)
    ensures PositiveTensor(WorldTensor(r, i))
  {
    hide Mul, MatMul, Dot, Transpose, RowMul;
    forall w: Vec3 | w != ZERO3
      ensures Dot(w, Mul(WorldTensor(r, i), w)) > 0.0
    {
      var y := Mul(Transpose(r), w);
      MulMatMul(MatMul(r, i), Transpose(r), w);
      MulMatMul(r, i, y);
      MulAdjoint(r, w, Mul(i, y));
      RowMulIsMul(w, r);
      if y == ZERO3 {
        MulZero(r);
        assert Mul(r, y) == w;
      }
    }
  }

  lemma RigidSymmetric(m: real, wc: Vec3, iw: Mat3)
    requires IsSymmetric(iw)
    ensures Symmetric(RigidInertia(m, wc, iw))
  {
    hide MatMul, Hat, Product;
    TransposeMatMul(Hat(wc), Transpose(Hat(wc)));
    TransposeScale(m, MatMul(Hat(wc), Transpose(Hat(wc))));
  }

  // ---- the pass ----

  /** Position, attitude, axis and velocity of a link from those of its parent. */
  method PlaceLink(link: Link, parent: Link, rodrigues: (Vec3, real) -> Mat3)
    requires link != parent
    modifies link`R, link`p, link`sw, link`sv, link`w, link`vo, link`cv, link`cw
    ensures PlacedAt(link, parent, rodrigues) && MovesWith(link, parent)
  {
    hide Add, Mul, MatMul, Scale, Cross;
    match link.jointType {
      case ROTATIONAL_JOINT =>
        link.R := MatMul(parent.R, rodrigues(link.a, link.q));
        link.p := Add(Mul(parent.R, link.b), parent.p);
        link.sw := Mul(parent.R, link.a);
        link.sv := Cross(link.p, link.sw);
        link.w := Add(Scale(link.dq, link.sw), parent.w);
      case SLIDE_JOINT =>
        link.p := Add(Mul(parent.R, Add(link.b, Scale(link.q, link.d))), parent.p);
        link.R := parent.R;
        link.sw := ZERO3;
        link.sv := Mul(parent.R, link.d);
        link.w := parent.w;
        SlideTurnsNothing(link.dq, parent.w);
      case _ =>
        link.p := Add(Mul(parent.R, link.b), parent.p);
        link.R := parent.R;
        link.w := parent.w;
        link.vo := parent.vo;
        link.sw, link.sv, link.cv, link.cw := ZERO3, ZERO3, ZERO3, ZERO3;
    }
    if link.jointType == ROTATIONAL_JOINT || link.jointType == SLIDE_JOINT {
      SetJointVelocity(link, parent);
    }
  }

  /** The part common to rotational and slide joints. */
  method SetJointVelocity(link: Link, parent: Link)
    requires link != parent
    modifies link`vo, link`cv, link`cw
    ensures link.vo == Add(Scale(link.dq, link.sv), parent.vo)
    ensures CrossTermOf(link) == Times(link.dq, CrossMotion(VelocityOf(parent), AxisOf(link)))
  {
    hide Add, Scale, Cross;
    link.vo := Add(Scale(link.dq, link.sv), parent.vo);
    var dsv := Add(Cross(parent.w, link.sv), Cross(parent.vo, link.sw));
    var dsw := Cross(parent.w, link.sw);
    link.cv := Scale(link.dq, dsv);
    link.cw := Scale(link.dq, dsw);
  }

  lemma SlideTurnsNothing(k: real, w: Vec3)
    ensures Add(Scale(k, ZERO3), w) == w
  {
    hide Product;
    ProductUnits(k);
  }

  /** Rigid inertia and bias of a placed link. */
  method SetRigidTerms(link: Link, g: Vec3)
    modifies link`v, link`wc, link`Iww, link`Ivv, link`Iwv, link`pf, link`ptau
    ensures RigidAt(link, g)
  {
    hide Add, Sub, Mul, MatMul, Scale, Cross, Transpose, Hat, Neg, MatScale, MatAdd, Product;
    link.v := Add(link.vo, Cross(link.w, link.p));
    link.wc := Add(Mul(link.R, link.c), link.p);
    var iw := MatMul(MatMul(link.R, link.I), Transpose(link.R));
    var c_hat := Hat(link.wc);
    link.Iww := MatAdd(MatScale(link.m, MatMul(c_hat, Transpose(c_hat))), iw);
    link.Ivv := Mat3(Vec3(link.m, 0.0, 0.0), Vec3(0.0, link.m, 0.0), Vec3(0.0, 0.0, link.m));
    link.Iwv := MatScale(link.m, c_hat);
    var P := Scale(link.m, Add(link.vo, Cross(link.w, link.wc)));
    var L := Add(Mul(link.Iww, link.w), Scale(link.m, Cross(link.wc, link.vo)));
    RigidMomentum(link.m, link.wc, iw, VelocityOf(link));
    link.pf := Cross(link.w, P);
    link.ptau := Add(Cross(link.vo, P), Cross(link.w, L));
    var fg := Scale(-link.m, g);
    var tg := Cross(link.wc, fg);
    link.pf := Sub(link.pf, fg);
    link.ptau := Sub(link.ptau, tg);
  }

  /** Every link but the root placed against its parent, and every link with its rigid terms. */
  ghost predicate Phase1At(l: Link, rodrigues: (Vec3, real) -> Mat3, g: Vec3)
    reads l, l.parent
  {
    && RigidAt(l, g)
    && (l.parent != null ==> PlacedAt(l, l.parent, rodrigues) && MovesWith(l, l.parent))
  }

  /** The pass at one link. */
  method CalcABMPhase1At(link: Link, rodrigues: (Vec3, real) -> Mat3, g: Vec3)
    requires link.parent != link
    modifies link`R, link`p, link`sw, link`sv, link`w, link`vo, link`cv, link`cw
    modifies link`v, link`wc, link`Iww, link`Ivv, link`Iwv, link`pf, link`ptau
    ensures Phase1At(link, rodrigues, g)
    ensures link.parent == null ==>
              link.R == old(link.R) && link.p == old(link.p) && link.vo == old(link.vo) && link.w == old(link.w)
  {
    hide RigidAt, PlacedAt, MovesWith;
    if link.parent != null {
      PlaceLink(link, link.parent, rodrigues);
    }
    label placed:
    SetRigidTerms(link, g);
  }

  method CalcABMPhase1(traverse: seq<Link>, ghost t: Shape, rodrigues: (Vec3, real) -> Mat3, g: Vec3)
    requires Represents(traverse, t)
    modifies traverse`R, traverse`p, traverse`sw, traverse`sv, traverse`w, traverse`vo, traverse`cv, traverse`cw
    modifies traverse`v, traverse`wc, traverse`Iww, traverse`Ivv, traverse`Iwv, traverse`pf, traverse`ptau
    ensures forall j | 0 <= j < |traverse| :: Phase1At(traverse[j], rodrigues, g)
    ensures forall j | 0 <= j < |traverse| && traverse[j].parent == null ::
              && traverse[j].R == old(traverse[j].R) && traverse[j].p == old(traverse[j].p)
              && traverse[j].vo == old(traverse[j].vo) && traverse[j].w == old(traverse[j].w)
  {
    hide Represents, RigidAt, PlacedAt, MovesWith;
    LinksDistinct(traverse, t);
    ShapeOf(traverse, t);
    var i := 0;
    while i < |traverse|
      invariant 0 <= i <= |traverse|
      invariant forall j | 0 <= j < i :: Phase1At(traverse[j], rodrigues, g)
      invariant forall j | 0 <= j < |traverse| && traverse[j].parent == null ::
                  && traverse[j].R == old(traverse[j].R) && traverse[j].p == old(traverse[j].p)
                  && traverse[j].vo == old(traverse[j].vo) && traverse[j].w == old(traverse[j].w)
    {
      forall j | 0 <= j <= i
        ensures traverse[j].parent != null ==> traverse[j].parent in traverse[..i] && traverse[j].parent != traverse[i]
      {
        PointersOf(traverse, t, j);
      }
      CalcABMPhase1At(traverse[i], rodrigues, g);
      i := i + 1;
    }
  }

  // ---- what the pass leaves for the dynamics ----

  /** The pass leaves the links prepared for the dynamics passes. */
  lemma Phase1Prepares(links: seq<Link>, t: Shape, rodrigues: (Vec3, real) -> Mat3, g: Vec3)
    requires Represents(links, t)
    requires forall j | 0 <= j < |links| :: Phase1At(links[j], rodrigues, g) && IsSymmetric(links[j].I)
    ensures Prepared(t, States(links))
  {
    hide WorldTensor, RigidInertia, Symmetric, IsSymmetric, PlacedAt, Times, Plus, Axis, CrossMotion, Minus;
    forall j | 0 <= j < |links|
      ensures Symmetric(State(links[j]).inertia)
      ensures j > 0 && links[j].jointType == FIXED_JOINT ==> State(links[j]).vel == ZERO6
    {
      var l := links[j];
      PointersOf(links, t, j);
      assert Phase1At(l, rodrigues, g);
      WorldTensorSymmetric(l.R, l.I);
      RigidSymmetric(l.m, l.wc, WorldTensor(l.R, l.I));
    }
  }

  /** The model data of a body whose every link has mass and turns about a real axis. */
  ghost predicate SoundBody(links: seq<Link>, rodrigues: (Vec3, real) -> Mat3)
    reads links`m, links`I, links`Jm2, links`a, links`q, links`d, links`jointType
  {
    && (forall j | 0 <= j < |links| ::
          && links[j].m > 0.0 && IsSymmetric(links[j].I) && PositiveTensor(links[j].I)
          && links[j].Jm2 >= 0.0
          && Orthogonal(rodrigues(links[j].a, links[j].q)))
    && (forall j | 0 < j < |links| ::
          && links[j].jointType != FREE_JOINT
          && (links[j].jointType == ROTATIONAL_JOINT ==> links[j].a != ZERO3)
          && (links[j].jointType == SLIDE_JOINT ==> links[j].d != ZERO3))
  }

  /** Attitudes stay orthogonal outward from an orthogonal root attitude. */
  lemma {:induction false} AttitudesOrthogonal(links: seq<Link>, t: Shape, rodrigues: (Vec3, real) -> Mat3, g: Vec3,
                                               j: int)
    requires Represents(links, t) && SoundBody(links, rodrigues) && 0 <= j < |links| && Orthogonal(links[0].R)
    requires forall k | 0 <= k < |links| :: Phase1At(links[k], rodrigues, g)
    ensures Orthogonal(links[j].R)
    decreases j
  {
    hide Orthogonal, RigidAt, MovesWith, PositiveTensor, MatMul, Represents;
    ShapeOf(links, t);
    PointersOf(links, t, j);
    if j > 0 {
      AttitudesOrthogonal(links, t, rodrigues, g, t.parent[j]);
      assert Phase1At(links[j], rodrigues, g);
      if links[j].jointType == ROTATIONAL_JOINT {
        OrthogonalProduct(links[j].parent.R, rodrigues(links[j].a, links[j].q));
      }
    }
  }

  lemma OrthogonalKeepsNonZero(r: Mat3, a: Vec3)
    requires Orthogonal(r) && a != ZERO3
    ensures Mul(r, a) != ZERO3
  {
    hide Mul, Transpose;
    MulZero(Transpose(r));
    assert Mul(Transpose(r), Mul(r, a)) == a;
  }

  lemma MassiveAt(links: seq<Link>, t: Shape, rodrigues: (Vec3, real) -> Mat3, g: Vec3, j: int)
    requires Represents(links, t) && SoundBody(links, rodrigues) && 0 <= j < |links| && Orthogonal(links[0].R)
    requires forall k | 0 <= k < |links| :: Phase1At(links[k], rodrigues, g)
    ensures Positive(State(links[j]).inertia)
    ensures j > 0 && State(links[j]).Moving() ==> State(links[j]).axis != ZERO6 && State(links[j]).rotor >= 0.0
  {
    hide Orthogonal, PositiveTensor, Positive, MatMul, Mul, Cross, RigidInertia, WorldTensor, Represents, PlacedAt;
    hide Minus, Plus, Times, Apply, CrossForce, CrossMotion;
    var l := links[j];
    ShapeOf(links, t);
    PointersOf(links, t, j);
    AttitudesOrthogonal(links, t, rodrigues, g, j);
    assert Phase1At(l, rodrigues, g);
    WorldTensorPositive(l.R, l.I);
    RigidPositive(l.m, l.wc, WorldTensor(l.R, l.I));
    if j > 0 && State(l).Moving() {
      AttitudesOrthogonal(links, t, rodrigues, g, t.parent[j]);
      OrthogonalKeepsNonZero(l.parent.R, if l.jointType == ROTATIONAL_JOINT then l.a else l.d);
    }
  }

  /** For positive masses and tensors, real axes and an orthogonal root attitude the pass leaves a body with mass. */
  lemma Phase1MakesMassive(links: seq<Link>, t: Shape, rodrigues: (Vec3, real) -> Mat3, g: Vec3)
    requires Represents(links, t) && SoundBody(links, rodrigues) && Orthogonal(links[0].R)
    requires forall j | 0 <= j < |links| :: Phase1At(links[j], rodrigues, g)
    ensures Fits(t, States(links)) && Massive(t, States(links))
  {
    hide Orthogonal, PositiveTensor, Positive, Phase1At, Symmetric, IsSymmetric, State;
    Phase1Prepares(links, t, rodrigues, g);
    var x := States(links);
    forall j | 0 <= j < |x|
      ensures Positive(x[j].inertia)
      ensures j > 0 && x[j].Moving() ==> x[j].axis != ZERO6 && x[j].rotor >= 0.0
    {
      MassiveAt(links, t, rodrigues, g, j);
    }
  }

  /** For a sound body with an orthogonal root attitude, the inbound pass that follows never
      divides by zero and its results satisfy Newton-Euler. */
  lemma Phase1MakesRegular(links: seq<Link>, t: Shape, rodrigues: (Vec3, real) -> Mat3, g: Vec3)
    requires Represents(links, t) && SoundBody(links, rodrigues) && Orthogonal(links[0].R)
    requires forall j | 0 <= j < |links| :: Phase1At(links[j], rodrigues, g)
    ensures Prepared(t, States(links)) && Regular(t, States(links))
  {
    hide Phase1At, SoundBody, Orthogonal;
    Phase1MakesMassive(links, t, rodrigues, g);
    MassiveIsRegular(t, States(links));
  }
}
