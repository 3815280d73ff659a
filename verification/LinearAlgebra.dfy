/** Three-vectors, 3x3 matrices, and the 6x6 spatial algebra that the link dynamics is
    written in. A spatial vector is a pair of three-vectors (linear part first); a spatial
    inertia keeps three of its four 3x3 blocks, the upper right one being the transpose of
    `wv`. Arithmetic is over exact reals; products go through the function Product, so that
    proofs rest on the ring laws stated here and not on expanding polynomials. */
module LinearAlgebra {

  datatype Vec3 = Vec3(x: real, y: real, z: real)

  /** A matrix by its rows. */
  datatype Mat3 = Mat3(r0: Vec3, r1: Vec3, r2: Vec3)

  datatype Spatial = Spatial(v: Vec3, w: Vec3)

  /** vv is the upper left block, wv the lower left, ww the lower right. */
  datatype Inertia = Inertia(vv: Mat3, wv: Mat3, ww: Mat3)

  const ZERO3 := Vec3(0.0, 0.0, 0.0)
  const ZERO6 := Spatial(ZERO3, ZERO3)
  const IDENTITY := Mat3(Vec3(1.0, 0.0, 0.0), Vec3(0.0, 1.0, 0.0), Vec3(0.0, 0.0, 1.0))

  function Product(a: real, b: real): real { a * b }

  function Add(a: Vec3, b: Vec3): Vec3 { Vec3(a.x + b.x, a.y + b.y, a.z + b.z) }

  function Sub(a: Vec3, b: Vec3): Vec3 { Vec3(a.x - b.x, a.y - b.y, a.z - b.z) }

  function Neg(a: Vec3): Vec3 { Vec3(-a.x, -a.y, -a.z) }

  function Scale(k: real, a: Vec3): Vec3 { Vec3(Product(k, a.x), Product(k, a.y), Product(k, a.z)) }

  function Dot(a: Vec3, b: Vec3): real { Product(a.x, b.x) + Product(a.y, b.y) + Product(a.z, b.z) }

  function Cross(a: Vec3, b: Vec3): Vec3 {
    Vec3(Product(a.y, b.z) - Product(a.z, b.y),
         Product(a.z, b.x) - Product(a.x, b.z),
         Product(a.x, b.y) - Product(a.y, b.x))
  }

  function Transpose(m: Mat3): Mat3 {
    Mat3(Vec3(m.r0.x, m.r1.x, m.r2.x), Vec3(m.r0.y, m.r1.y, m.r2.y), Vec3(m.r0.z, m.r1.z, m.r2.z))
  }

  function MatAdd(a: Mat3, b: Mat3): Mat3 { Mat3(Add(a.r0, b.r0), Add(a.r1, b.r1), Add(a.r2, b.r2)) }

  function MatSub(a: Mat3, b: Mat3): Mat3 { Mat3(Sub(a.r0, b.r0), Sub(a.r1, b.r1), Sub(a.r2, b.r2)) }

  function MatScale(k: real, a: Mat3): Mat3 { Mat3(Scale(k, a.r0), Scale(k, a.r1), Scale(k, a.r2)) }

  /** Matrix times column vector. */
  function Mul(m: Mat3, a: Vec3): Vec3 { Vec3(Dot(m.r0, a), Dot(m.r1, a), Dot(m.r2, a)) }

  /** Row vector times matrix, as a vector. */
  function RowMul(a: Vec3, m: Mat3): Vec3 { Mul(Transpose(m), a) }

  function MatMul(a: Mat3, b: Mat3): Mat3 { Mat3(RowMul(a.r0, b), RowMul(a.r1, b), RowMul(a.r2, b)) }

  /** Column times row: the matrix a b^T. */
  function Outer(a: Vec3, b: Vec3): Mat3 { Mat3(Scale(a.x, b), Scale(a.y, b), Scale(a.z, b)) }

  /** The skew matrix with Hat(a) b == a x b. */
  function Hat(a: Vec3): Mat3 {
    Mat3(Vec3(0.0, -a.z, a.y), Vec3(a.z, 0.0, -a.x), Vec3(-a.y, a.x, 0.0))
  }

  predicate IsSymmetric(m: Mat3) { m == Transpose(m) }

  // ---- spatial vectors and inertias ----

  function Plus(a: Spatial, b: Spatial): Spatial { Spatial(Add(a.v, b.v), Add(a.w, b.w)) }

  function Minus(a: Spatial, b: Spatial): Spatial { Spatial(Sub(a.v, b.v), Sub(a.w, b.w)) }

  function Negated(a: Spatial): Spatial { Spatial(Neg(a.v), Neg(a.w)) }

  function Times(k: real, a: Spatial): Spatial { Spatial(Scale(k, a.v), Scale(k, a.w)) }

  function Inner(a: Spatial, b: Spatial): real { Dot(a.v, b.v) + Dot(a.w, b.w) }

  function Apply(i: Inertia, a: Spatial): Spatial {
    Spatial(Add(Mul(i.vv, a.v), Mul(Transpose(i.wv), a.w)), Add(Mul(i.wv, a.v), Mul(i.ww, a.w)))
  }

  function InertiaAdd(a: Inertia, b: Inertia): Inertia {
    Inertia(MatAdd(a.vv, b.vv), MatAdd(a.wv, b.wv), MatAdd(a.ww, b.ww))
  }

  function InertiaSub(a: Inertia, b: Inertia): Inertia {
    Inertia(MatSub(a.vv, b.vv), MatSub(a.wv, b.wv), MatSub(a.ww, b.ww))
  }

  /** The three stored blocks of h h^T / d. */
  function RankOne(h: Spatial, d: real): Inertia
    requires d != 0.0
  {
    Inertia(Outer(h.v, Scale(1.0 / d, h.v)), Outer(h.w, Scale(1.0 / d, h.v)), Outer(h.w, Scale(1.0 / d, h.w)))
  }

  predicate Symmetric(i: Inertia) { IsSymmetric(i.vv) && IsSymmetric(i.ww) }

  // ---- ring laws ----

  lemma ProductAdd(a: real, b: real, c: real)
    ensures Product(a, b + c) == Product(a, b) + Product(a, c)
    ensures Product(a + b, c) == Product(a, c) + Product(b, c)
  {}

  lemma ProductSub(a: real, b: real, c: real)
    ensures Product(a, b - c) == Product(a, b) - Product(a, c)
    ensures Product(a - b, c) == Product(a, c) - Product(b, c)
  {}

  lemma ProductComm(a: real, b: real)
    ensures Product(a, b) == Product(b, a)
  {}

  lemma ProductAssoc(a: real, b: real, c: real)
    ensures Product(a, Product(b, c)) == Product(Product(a, b), c)
  {
    calc {
      Product(a, Product(b, c));
      a * (b * c);
      (a * b) * c;
      Product(Product(a, b), c);
    }
  }

  lemma ProductUnits(a: real)
    ensures Product(0.0, a) == 0.0 == Product(a, 0.0)
    ensures Product(1.0, a) == a == Product(a, 1.0)
    ensures Product(-1.0, a) == -a
  {}

  lemma ProductNeg(a: real, b: real)
    ensures Product(-a, b) == -Product(a, b) == Product(a, -b)
  {}

  /** The middle factor may stay while the outer two change places. */
  lemma ProductSwap(a: real, e: real, b: real)
    ensures Product(a, Product(e, b)) == Product(b, Product(e, a)) == Product(e, Product(a, b))
  {
    hide Product;
    ProductAssoc(a, e, b);
    ProductAssoc(b, e, a);
    ProductAssoc(e, a, b);
    ProductComm(a, e);
    ProductComm(b, Product(e, a));
  }

  lemma ProductSquare(a: real)
    ensures Product(a, a) >= 0.0
  {}

  lemma Quotient(s: real, d: real, q: real)
    requires d != 0.0 && Product(q, d) == s
    ensures Product(1.0 / d, s) == q == s / d
  {
    var e := 1.0 / d;
    assert e * d == 1.0;
    assert e * s == (e * d) * q;
  }

  // ---- vectors ----

  lemma DotAdd(a: Vec3, b: Vec3, c: Vec3)
    ensures Dot(a, Add(b, c)) == Dot(a, b) + Dot(a, c)
  {
    hide Product;
    ProductAdd(a.x, b.x, c.x);
    ProductAdd(a.y, b.y, c.y);
    ProductAdd(a.z, b.z, c.z);
  }

  lemma DotSub(a: Vec3, b: Vec3, c: Vec3)
    ensures Dot(a, Sub(b, c)) == Dot(a, b) - Dot(a, c)
  {
    hide Product;
    ProductSub(a.x, b.x, c.x);
    ProductSub(a.y, b.y, c.y);
    ProductSub(a.z, b.z, c.z);
  }

  lemma DotComm(a: Vec3, b: Vec3)
    ensures Dot(a, b) == Dot(b, a)
  {
    hide Product;
    ProductComm(a.x, b.x);
    ProductComm(a.y, b.y);
    ProductComm(a.z, b.z);
  }

  lemma DotScale(a: Vec3, k: real, b: Vec3)
    ensures Dot(a, Scale(k, b)) == Product(k, Dot(a, b)) == Dot(Scale(k, a), b)
  {
    hide Product;
    ProductSwap(a.x, k, b.x);
    ProductSwap(a.y, k, b.y);
    ProductSwap(a.z, k, b.z);
    ProductAssoc(k, a.x, b.x);
    ProductAssoc(k, a.y, b.y);
    ProductAssoc(k, a.z, b.z);
    ProductAdd(k, Product(a.x, b.x), Product(a.y, b.y));
    ProductAdd(k, Product(a.x, b.x) + Product(a.y, b.y), Product(a.z, b.z));
  }

  lemma ScaleAdd(k: real, a: Vec3, b: Vec3)
    ensures Scale(k, Add(a, b)) == Add(Scale(k, a), Scale(k, b))
  {
    hide Product;
    ProductAdd(k, a.x, b.x);
    ProductAdd(k, a.y, b.y);
    ProductAdd(k, a.z, b.z);
  }

  lemma ScaleSum(k: real, e: real, a: Vec3)
    ensures Add(Scale(k, a), Scale(e, a)) == Scale(k + e, a)
  {
    hide Product;
    ProductAdd(k, e, a.x);
    ProductAdd(k, e, a.y);
    ProductAdd(k, e, a.z);
  }

  lemma ScaleUnits(a: Vec3)
    ensures Scale(0.0, a) == ZERO3 && Scale(1.0, a) == a && Scale(-1.0, a) == Neg(a)
  {
    hide Product;
    ProductUnits(a.x);
    ProductUnits(a.y);
    ProductUnits(a.z);
  }

  lemma CrossAdd(k: Vec3, a: Vec3, b: Vec3)
    ensures Cross(k, Add(a, b)) == Add(Cross(k, a), Cross(k, b))
  {
    hide Product;
    ProductAdd(k.x, a.y, b.y);
    ProductAdd(k.x, a.z, b.z);
    ProductAdd(k.y, a.x, b.x);
    ProductAdd(k.y, a.z, b.z);
    ProductAdd(k.z, a.x, b.x);
    ProductAdd(k.z, a.y, b.y);
  }

  lemma CrossScale(k: Vec3, s: real, a: Vec3)
    ensures Cross(k, Scale(s, a)) == Scale(s, Cross(k, a))
  {
    hide Product;
    MinorScale(k.y, k.z, s, a.y, a.z);
    MinorScale(k.z, k.x, s, a.z, a.x);
    MinorScale(k.x, k.y, s, a.x, a.y);
  }

  lemma MinorScale(a: real, b: real, s: real, c: real, d: real)
    ensures Product(a, Product(s, d)) - Product(b, Product(s, c)) == Product(s, Product(a, d) - Product(b, c))
  {
    hide Product;
    ProductSwap(a, s, d);
    ProductSwap(b, s, c);
    ProductSub(s, Product(a, d), Product(b, c));
  }

  lemma CrossNeg(k: Vec3, a: Vec3)
    ensures Cross(k, Neg(a)) == Neg(Cross(k, a))
  {
    hide Product;
    ProductNeg(k.x, a.y);
    ProductNeg(k.x, a.z);
    ProductNeg(k.y, a.x);
    ProductNeg(k.y, a.z);
    ProductNeg(k.z, a.x);
    ProductNeg(k.z, a.y);
  }

  // ---- matrices ----

  lemma MulAdd(m: Mat3, a: Vec3, b: Vec3)
    ensures Mul(m, Add(a, b)) == Add(Mul(m, a), Mul(m, b))
  {
    hide Dot;
    DotAdd(m.r0, a, b);
    DotAdd(m.r1, a, b);
    DotAdd(m.r2, a, b);
  }

  lemma MulMatAdd(m: Mat3, n: Mat3, a: Vec3)
    ensures Mul(MatAdd(m, n), a) == Add(Mul(m, a), Mul(n, a))
  {
    hide Dot;
    DotAddLeft(m.r0, n.r0, a);
    DotAddLeft(m.r1, n.r1, a);
    DotAddLeft(m.r2, n.r2, a);
  }

  lemma DotAddLeft(a: Vec3, b: Vec3, c: Vec3)
    ensures Dot(Add(a, b), c) == Dot(a, c) + Dot(b, c)
    ensures Dot(Sub(a, b), c) == Dot(a, c) - Dot(b, c)
  {
    hide Dot;
    DotComm(Add(a, b), c);
    DotComm(Sub(a, b), c);
    DotAdd(c, a, b);
    DotSub(c, a, b);
    DotComm(a, c);
    DotComm(b, c);
  }

  lemma MulMatSub(m: Mat3, n: Mat3, a: Vec3)
    ensures Mul(MatSub(m, n), a) == Sub(Mul(m, a), Mul(n, a))
  {
    hide Dot;
    DotAddLeft(m.r0, n.r0, a);
    DotAddLeft(m.r1, n.r1, a);
    DotAddLeft(m.r2, n.r2, a);
  }

  lemma MulScale(m: Mat3, k: real, a: Vec3)
    ensures Mul(m, Scale(k, a)) == Scale(k, Mul(m, a)) == Mul(MatScale(k, m), a)
  {
    hide Dot, Product;
    DotScale(m.r0, k, a);
    DotScale(m.r1, k, a);
    DotScale(m.r2, k, a);
  }

  lemma MulUnits(a: Vec3)
    ensures Mul(IDENTITY, a) == a
  {
    hide Product;
    ProductUnits(a.x);
    ProductUnits(a.y);
    ProductUnits(a.z);
  }

  lemma HatCrosses(k: Vec3, x: Vec3)
    ensures Mul(Hat(k), x) == Cross(k, x) && Mul(Transpose(Hat(k)), x) == Cross(x, k)
  {
    hide Product;
    ProductUnits(x.x);
    ProductUnits(x.y);
    ProductUnits(x.z);
    NegComm(k.x, x.y);
    NegComm(k.x, x.z);
    NegComm(k.y, x.x);
    NegComm(k.y, x.z);
    NegComm(k.z, x.x);
    NegComm(k.z, x.y);
  }

  lemma NegComm(a: real, b: real)
    ensures Product(-a, b) == -Product(a, b) == -Product(b, a)
  {
    ProductNeg(a, b);
    ProductComm(a, b);
  }

  /** Row times matrix is the combination of the matrix's rows. */
  lemma RowMulCombines(a: Vec3, m: Mat3)
    ensures RowMul(a, m) == Add(Add(Scale(a.x, m.r0), Scale(a.y, m.r1)), Scale(a.z, m.r2))
  {
    hide Product;
    ProductComm(a.x, m.r0.x);
    ProductComm(a.x, m.r0.y);
    ProductComm(a.x, m.r0.z);
    ProductComm(a.y, m.r1.x);
    ProductComm(a.y, m.r1.y);
    ProductComm(a.y, m.r1.z);
    ProductComm(a.z, m.r2.x);
    ProductComm(a.z, m.r2.y);
    ProductComm(a.z, m.r2.z);
  }

  lemma MulAdjoint(m: Mat3, a: Vec3, b: Vec3)
    ensures Dot(a, Mul(m, b)) == Dot(RowMul(a, m), b)
  {
    hide Dot, RowMul, Scale, Product;
    RowMulCombines(a, m);
    DotScale(m.r0, a.x, b);
    DotScale(m.r1, a.y, b);
    DotScale(m.r2, a.z, b);
    DotAddLeft(Add(Scale(a.x, m.r0), Scale(a.y, m.r1)), Scale(a.z, m.r2), b);
    DotAddLeft(Scale(a.x, m.r0), Scale(a.y, m.r1), b);
    DotAtMul(a, m, b);
  }

  lemma DotAtMul(a: Vec3, m: Mat3, b: Vec3)
    ensures Dot(a, Mul(m, b)) == Product(a.x, Dot(m.r0, b)) + Product(a.y, Dot(m.r1, b)) + Product(a.z, Dot(m.r2, b))
  {
    hide Product;
  }

  lemma MulMatMul(a: Mat3, b: Mat3, x: Vec3)
    ensures Mul(MatMul(a, b), x) == Mul(a, Mul(b, x))
  {
    hide Dot, RowMul;
    MulAdjoint(b, a.r0, x);
    MulAdjoint(b, a.r1, x);
    MulAdjoint(b, a.r2, x);
  }

  lemma TransposeMatMul(a: Mat3, b: Mat3)
    ensures Transpose(MatMul(a, b)) == MatMul(Transpose(b), Transpose(a))
  {
    hide Dot;
    var c := Transpose(b);
    DotComm(a.r0, c.r0);
    DotComm(a.r0, c.r1);
    DotComm(a.r0, c.r2);
    DotComm(a.r1, c.r0);
    DotComm(a.r1, c.r1);
    DotComm(a.r1, c.r2);
    DotComm(a.r2, c.r0);
    DotComm(a.r2, c.r1);
    DotComm(a.r2, c.r2);
  }

  lemma OuterMul(a: Vec3, b: Vec3, c: Vec3)
    ensures Mul(Outer(a, b), c) == Scale(Dot(b, c), a)
  {
    hide Dot, Product;
    DotScale(b, a.x, c);
    DotScale(b, a.y, c);
    DotScale(b, a.z, c);
    ProductComm(a.x, Dot(b, c));
    ProductComm(a.y, Dot(b, c));
    ProductComm(a.z, Dot(b, c));
  }

  lemma OuterSlide(a: Vec3, e: real, b: Vec3)
    ensures Transpose(Outer(a, Scale(e, b))) == Outer(b, Scale(e, a))
  {
    hide Product;
    ProductSwap(a.x, e, b.x);
    ProductSwap(a.x, e, b.y);
    ProductSwap(a.x, e, b.z);
    ProductSwap(a.y, e, b.x);
    ProductSwap(a.y, e, b.y);
    ProductSwap(a.y, e, b.z);
    ProductSwap(a.z, e, b.x);
    ProductSwap(a.z, e, b.y);
    ProductSwap(a.z, e, b.z);
  }

  // ---- the same for spatial vectors ----

  lemma ApplyPlus(i: Inertia, a: Spatial, b: Spatial)
    ensures Apply(i, Plus(a, b)) == Plus(Apply(i, a), Apply(i, b))
  {
    hide Mul;
    MulAdd(i.vv, a.v, b.v);
    MulAdd(Transpose(i.wv), a.w, b.w);
    MulAdd(i.wv, a.v, b.v);
    MulAdd(i.ww, a.w, b.w);
  }

  lemma ApplyTimes(i: Inertia, k: real, a: Spatial)
    ensures Apply(i, Times(k, a)) == Times(k, Apply(i, a))
  {
    hide Mul, Scale, Add;
    MulScale(i.vv, k, a.v);
    MulScale(Transpose(i.wv), k, a.w);
    MulScale(i.wv, k, a.v);
    MulScale(i.ww, k, a.w);
    ScaleAdd(k, Mul(i.vv, a.v), Mul(Transpose(i.wv), a.w));
    ScaleAdd(k, Mul(i.wv, a.v), Mul(i.ww, a.w));
  }

  lemma ApplyInertiaAdd(i: Inertia, j: Inertia, a: Spatial)
    ensures Apply(InertiaAdd(i, j), a) == Plus(Apply(i, a), Apply(j, a))
  {
    hide Mul;
    MulMatAdd(i.vv, j.vv, a.v);
    assert Transpose(MatAdd(i.wv, j.wv)) == MatAdd(Transpose(i.wv), Transpose(j.wv));
    MulMatAdd(Transpose(i.wv), Transpose(j.wv), a.w);
    MulMatAdd(i.wv, j.wv, a.v);
    MulMatAdd(i.ww, j.ww, a.w);
  }

  lemma ApplyInertiaSub(i: Inertia, j: Inertia, a: Spatial)
    ensures Apply(InertiaSub(i, j), a) == Minus(Apply(i, a), Apply(j, a))
  {
    hide Mul;
    MulMatSub(i.vv, j.vv, a.v);
    assert Transpose(MatSub(i.wv, j.wv)) == MatSub(Transpose(i.wv), Transpose(j.wv));
    MulMatSub(Transpose(i.wv), Transpose(j.wv), a.w);
    MulMatSub(i.wv, j.wv, a.v);
    MulMatSub(i.ww, j.ww, a.w);
  }

  lemma ApplyZero(i: Inertia)
    ensures Apply(i, ZERO6) == ZERO6
  {
    hide Mul, Scale;
    ScaleUnits(ZERO3);
    MulZero(i.vv);
    MulZero(Transpose(i.wv));
    MulZero(i.wv);
    MulZero(i.ww);
  }

  lemma MulZero(m: Mat3)
    ensures Mul(m, ZERO3) == ZERO3
  {
    hide Mul, Scale;
    MulScale(m, 0.0, ZERO3);
    ScaleUnits(ZERO3);
    ScaleUnits(Mul(m, ZERO3));
  }

  /** One block row of h h^T / d applied to (a, b). */
  lemma RankOneRow(out: Vec3, hv: Vec3, hw: Vec3, e: real, a: Vec3, b: Vec3)
    ensures Add(Mul(Outer(out, Scale(e, hv)), a), Mul(Outer(out, Scale(e, hw)), b))
         == Scale(Product(e, Dot(hv, a) + Dot(hw, b)), out)
  {
    hide Mul, Outer, Scale, Dot, Product, Add;
    OuterMul(out, Scale(e, hv), a);
    OuterMul(out, Scale(e, hw), b);
    DotScale(hv, e, a);
    DotScale(hw, e, b);
    ProductAdd(e, Dot(hv, a), Dot(hw, b));
    ScaleSum(Product(e, Dot(hv, a)), Product(e, Dot(hw, b)), out);
  }

  /** h h^T / d sends a to (h . a / d) h. */
  lemma ApplyRankOne(h: Spatial, d: real, a: Spatial, q: real)
    requires d != 0.0 && Product(q, d) == Inner(h, a)
    ensures Apply(RankOne(h, d), a) == Times(q, h)
  {
    hide Mul, Outer, Scale, Dot, Product, Add, Transpose;
    Quotient(Inner(h, a), d, q);
    OuterSlide(h.w, 1.0 / d, h.v);
    RankOneRow(h.v, h.v, h.w, 1.0 / d, a.v, a.w);
    RankOneRow(h.w, h.v, h.w, 1.0 / d, a.v, a.w);
  }

  lemma SymmetricClosed(i: Inertia, j: Inertia, h: Spatial, d: real)
    requires Symmetric(i) && Symmetric(j) && d != 0.0
    ensures Symmetric(InertiaAdd(i, j)) && Symmetric(InertiaAdd(i, InertiaSub(j, RankOne(h, d))))
  {
    hide Scale, Product, Outer;
    OuterSlide(h.v, 1.0 / d, h.v);
    OuterSlide(h.w, 1.0 / d, h.w);
  }

  lemma InnerPlus(a: Spatial, b: Spatial, c: Spatial)
    ensures Inner(a, Plus(b, c)) == Inner(a, b) + Inner(a, c)
  {
    hide Dot;
    DotAdd(a.v, b.v, c.v);
    DotAdd(a.w, b.w, c.w);
  }

  lemma InnerMinus(a: Spatial, b: Spatial, c: Spatial)
    ensures Inner(a, Minus(b, c)) == Inner(a, b) - Inner(a, c)
  {
    hide Dot;
    DotSub(a.v, b.v, c.v);
    DotSub(a.w, b.w, c.w);
  }

  lemma InnerTimes(a: Spatial, k: real, b: Spatial)
    ensures Inner(a, Times(k, b)) == Product(k, Inner(a, b))
  {
    hide Dot, Product, Scale;
    DotScale(a.v, k, b.v);
    DotScale(a.w, k, b.w);
    ProductAdd(k, Dot(a.v, b.v), Dot(a.w, b.w));
  }

  lemma InnerComm(a: Spatial, b: Spatial)
    ensures Inner(a, b) == Inner(b, a)
  {
    hide Dot;
    DotComm(a.v, b.v);
    DotComm(a.w, b.w);
  }

  /** A symmetric inertia may move across the inner product. */
  lemma ApplySelfAdjoint(i: Inertia, a: Spatial, b: Spatial)
    requires Symmetric(i)
    ensures Inner(a, Apply(i, b)) == Inner(Apply(i, a), b)
  {
    hide Mul, Dot, Add;
    var t := Transpose(i.wv);
    MulAdjoint(i.vv, a.v, b.v);
    MulAdjoint(i.ww, a.w, b.w);
    MulAdjoint(i.wv, a.w, b.v);
    MulAdjoint(t, a.v, b.w);
    assert Transpose(t) == i.wv;
    DotAdd(a.v, Mul(i.vv, b.v), Mul(t, b.w));
    DotAdd(a.w, Mul(i.wv, b.v), Mul(i.ww, b.w));
    DotAddLeft(Mul(i.vv, a.v), Mul(t, a.w), b.v);
    DotAddLeft(Mul(i.wv, a.v), Mul(i.ww, a.w), b.w);
  }

  lemma TimesSum(k: real, e: real, a: Spatial)
    ensures Plus(Times(k, a), Times(e, a)) == Times(k + e, a)
  {
    hide Scale, Add;
    ScaleSum(k, e, a.v);
    ScaleSum(k, e, a.w);
  }

  lemma CrossTurns(a: Vec3, b: Vec3)
    ensures Cross(a, b) == Neg(Cross(b, a))
  {
    hide Product;
    ProductComm(a.y, b.z);
    ProductComm(a.z, b.y);
    ProductComm(a.z, b.x);
    ProductComm(a.x, b.z);
    ProductComm(a.x, b.y);
    ProductComm(a.y, b.x);
  }

  lemma DotZero(a: Vec3)
    ensures Dot(ZERO3, a) == 0.0 == Dot(a, ZERO3)
  {
    hide Product;
    ProductUnits(a.x);
    ProductUnits(a.y);
    ProductUnits(a.z);
  }

  lemma DotNeg(u: Vec3, a: Vec3)
    ensures Dot(u, Neg(a)) == -Dot(u, a)
  {
    hide Product;
    ProductNeg(u.x, a.x);
    ProductNeg(u.y, a.y);
    ProductNeg(u.z, a.z);
  }

  lemma NegDot(a: Vec3, b: Vec3)
    ensures Dot(Neg(a), b) == -Dot(a, b)
  {
    hide Dot;
    DotComm(Neg(a), b);
    DotComm(a, b);
    DotNeg(b, a);
  }

  lemma DiagonalMul(m: real, a: Vec3)
    ensures Mul(Mat3(Vec3(m, 0.0, 0.0), Vec3(0.0, m, 0.0), Vec3(0.0, 0.0, m)), a) == Scale(m, a)
  {
    hide Product;
    ProductUnits(a.x);
    ProductUnits(a.y);
    ProductUnits(a.z);
  }

  lemma AddComm(a: Vec3, b: Vec3)
    ensures Add(a, b) == Add(b, a)
  {}

  lemma ProductSign(a: real, b: real)
    requires a >= 0.0 && b >= 0.0
    ensures Product(a, b) >= 0.0
  {}

  lemma CrossZero(a: Vec3)
    ensures Cross(ZERO3, a) == ZERO3 == Cross(a, ZERO3)
  {
    hide Product;
    ProductUnits(a.x);
    ProductUnits(a.y);
    ProductUnits(a.z);
  }

  lemma ScaleZero(k: real)
    ensures Scale(k, ZERO3) == ZERO3
  {
    hide Product;
    ProductUnits(k);
  }

  lemma NegatedScale(k: real, a: Vec3)
    ensures Scale(k, Neg(a)) == Scale(-k, a) == Neg(Scale(k, a))
  {
    hide Product;
    ProductNeg(k, a.x);
    ProductNeg(k, a.y);
    ProductNeg(k, a.z);
  }

  lemma SelfCross(a: Vec3)
    ensures Cross(a, a) == ZERO3
  {
    hide Cross;
    CrossTurns(a, a);
  }

  lemma CrossSub(k: Vec3, a: Vec3, b: Vec3)
    ensures Cross(k, Sub(a, b)) == Sub(Cross(k, a), Cross(k, b))
  {
    hide Cross;
    CrossAdd(k, a, Neg(b));
    CrossNeg(k, b);
    assert Sub(a, b) == Add(a, Neg(b));
  }

  lemma CrossLeft(a: Vec3, b: Vec3, k: real, c: Vec3)
    ensures Cross(Add(a, b), c) == Add(Cross(a, c), Cross(b, c))
    ensures Cross(Scale(k, a), c) == Scale(k, Cross(a, c))
  {
    hide Cross, Scale;
    CrossTurns(Add(a, b), c);
    CrossAdd(c, a, b);
    CrossTurns(a, c);
    CrossTurns(b, c);
    CrossTurns(Scale(k, a), c);
    CrossScale(c, k, a);
    NegatedScale(k, Cross(c, a));
  }
}
