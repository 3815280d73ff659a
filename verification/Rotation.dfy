/** Rotation matrices: what Eigen3d.cpp's calcRodrigues builds, and that it is orthogonal. */
module Rotation {
  import opened LinearAlgebra

  /** The transpose undoes the matrix, from either side. */
  ghost predicate Orthogonal(m: Mat3) {
    forall x: Vec3 :: Mul(Transpose(m), Mul(m, x)) == x && Mul(m, Mul(Transpose(m), x)) == x
  }

  /** The matrix for an axis and the sine and cosine of the angle. */
  function Rodrigues(axis: Vec3, sth: real, cth: real): Mat3 {
    var vth := 1.0 - cth;
    var axx := Product(Product(axis.x, axis.x), vth);
    var ayy := Product(Product(axis.y, axis.y), vth);
    var azz := Product(Product(axis.z, axis.z), vth);
    var axy := Product(Product(axis.x, axis.y), vth);
    var ayz := Product(Product(axis.y, axis.z), vth);
    var azx := Product(Product(axis.z, axis.x), vth);
    var ax, ay, az := Product(axis.x, sth), Product(axis.y, sth), Product(axis.z, sth);
    Mat3(Vec3(1.0 - azz - ayy, -az + axy, ay + azx),
         Vec3(az + axy, 1.0 - azz - axx, -ax + ayz),
         Vec3(-ay + azx, ax + ayz, 1.0 - ayy - axx))
  }

  lemma OrthogonalProduct(a: Mat3, b: Mat3)
    requires Orthogonal(a) && Orthogonal(b)
    ensures Orthogonal(MatMul(a, b))
  {
    hide Mul, MatMul, Transpose;
    var m := MatMul(a, b);
    forall x: Vec3
      ensures Mul(Transpose(m), Mul(m, x)) == x && Mul(m, Mul(Transpose(m), x)) == x
    {
      TransposeMatMul(a, b);
      MulMatMul(a, b, x);
      MulMatMul(Transpose(b), Transpose(a), Mul(m, x));
      MulMatMul(Transpose(b), Transpose(a), x);
      MulMatMul(a, b, Mul(Transpose(m), x));
    }
  }

  lemma HatSquared(k: Vec3)
    ensures MatMul(Hat(k), Hat(k))
         == Mat3(Vec3(-Product(k.z, k.z) - Product(k.y, k.y), Product(k.x, k.y), Product(k.z, k.x)),
                 Vec3(Product(k.x, k.y), -Product(k.z, k.z) - Product(k.x, k.x), Product(k.y, k.z)),
                 Vec3(Product(k.z, k.x), Product(k.y, k.z), -Product(k.y, k.y) - Product(k.x, k.x)))
  {
    hide Product;
    SignedProducts(k.x, k.y);
    SignedProducts(k.y, k.z);
    SignedProducts(k.z, k.x);
    SignedProducts(k.x, k.x);
    SignedProducts(k.y, k.y);
    SignedProducts(k.z, k.z);
  }

  lemma SignedProducts(a: real, b: real)
    ensures Product(-a, -b) == Product(a, b) == Product(b, a) == Product(-b, -a)
    ensures Product(-a, b) == Product(a, -b) == -Product(a, b) == Product(-b, a) == Product(b, -a)
    ensures Product(0.0, a) == Product(a, 0.0) == Product(0.0, -a) == Product(-a, 0.0) == 0.0
    ensures Product(0.0, b) == Product(b, 0.0) == Product(0.0, -b) == Product(-b, 0.0) == 0.0
    ensures Product(0.0, 0.0) == 0.0
  {}

  /** The matrix is 1 + sin K + (1 - cos) K^2 for the skew matrix K of the axis. */
  lemma RodriguesForm(k: Vec3, sth: real, cth: real)
    ensures Rodrigues(k, sth, cth)
         == MatAdd(IDENTITY, MatAdd(MatScale(sth, Hat(k)), MatScale(1.0 - cth, MatMul(Hat(k), Hat(k)))))
  {
    hide Product, MatMul;
    var v := 1.0 - cth;
    HatSquared(k);
    SquareEntry(v, k.z, k.y);
    SquareEntry(v, k.z, k.x);
    SquareEntry(v, k.y, k.x);
    ProductComm(v, Product(k.x, k.y));
    ProductComm(v, Product(k.y, k.z));
    ProductComm(v, Product(k.z, k.x));
    SignedProducts(k.x, sth);
    SignedProducts(k.y, sth);
    SignedProducts(k.z, sth);
  }

  lemma SquareEntry(v: real, a: real, b: real)
    ensures Product(v, -Product(a, a) - Product(b, b)) == -Product(Product(a, a), v) - Product(Product(b, b), v)
  {
    hide Product;
    ProductSub(v, -Product(a, a), Product(b, b));
    SignedProducts(Product(a, a), v);
    ProductComm(v, Product(b, b));
  }

  lemma RodriguesTranspose(k: Vec3, sth: real, cth: real)
    ensures Transpose(Rodrigues(k, sth, cth)) == Rodrigues(k, -sth, cth)
  {
    hide Product;
    SignedProducts(k.x, sth);
    SignedProducts(k.y, sth);
    SignedProducts(k.z, sth);
  }

  /** The rotation as a vector formula: x + s (k x x) + v (k x (k x x)). */
  function Turn(k: Vec3, s: real, v: real, x: Vec3): Vec3 {
    Add(x, Add(Scale(s, Cross(k, x)), Scale(v, Cross(k, Cross(k, x)))))
  }

  lemma RodriguesTurns(k: Vec3, sth: real, cth: real, x: Vec3)
    ensures Mul(Rodrigues(k, sth, cth), x) == Turn(k, sth, 1.0 - cth, x)
  {
    hide Mul, MatMul, MatAdd, MatScale, Hat, Rodrigues, Cross, Add, Scale;
    var h, v := Hat(k), 1.0 - cth;
    RodriguesForm(k, sth, cth);
    MulMatAdd(IDENTITY, MatAdd(MatScale(sth, h), MatScale(v, MatMul(h, h))), x);
    MulMatAdd(MatScale(sth, h), MatScale(v, MatMul(h, h)), x);
    MulScale(h, sth, x);
    MulScale(MatMul(h, h), v, x);
    MulMatMul(h, h, x);
    MulUnits(x);
    HatCrosses(k, x);
    HatCrosses(k, Cross(k, x));
  }

  /** A cross product is across its factors. */
  lemma DotCross(k: Vec3, x: Vec3)
    ensures Dot(k, Cross(k, x)) == 0.0
  {
    hide Product;
    ProductSub(k.x, Product(k.y, x.z), Product(k.z, x.y));
    ProductSub(k.y, Product(k.z, x.x), Product(k.x, x.z));
    ProductSub(k.z, Product(k.x, x.y), Product(k.y, x.x));
    ProductSwap(k.x, k.y, x.z);
    ProductSwap(k.x, k.z, x.y);
    ProductSwap(k.y, k.z, x.x);
    ProductAssoc(k.x, k.y, x.z);
    ProductAssoc(k.y, k.x, x.z);
    ProductAssoc(k.z, k.x, x.y);
    ProductAssoc(k.x, k.z, x.y);
    ProductAssoc(k.y, k.z, x.x);
    ProductAssoc(k.z, k.y, x.x);
    ProductComm(k.x, k.y);
    ProductComm(k.y, k.z);
    ProductComm(k.z, k.x);
  }

  /** k x (k x y) for a unit k across y. */
  lemma CrossTwice(k: Vec3, y: Vec3)
    requires Dot(k, k) == 1.0 && Dot(k, y) == 0.0
    ensures Cross(k, Cross(k, y)) == Neg(y)
  {
    hide Product;
    CrossTwiceComponent(k.x, k.y, k.z, y.x, y.y, y.z);
    CrossTwiceComponent(k.y, k.z, k.x, y.y, y.z, y.x);
    CrossTwiceComponent(k.z, k.x, k.y, y.z, y.x, y.y);
  }

  lemma CrossTwiceComponent(a: real, b: real, c: real, x: real, y: real, z: real)
    requires Product(a, a) + Product(b, b) + Product(c, c) == 1.0
    requires Product(a, x) + Product(b, y) + Product(c, z) == 0.0
    ensures Product(b, Product(a, y) - Product(b, x)) - Product(c, Product(c, x) - Product(a, z)) == -x
  {
    hide Product;
    ProductSub(b, Product(a, y), Product(b, x));
    ProductSub(c, Product(c, x), Product(a, z));
    ProductAssoc(b, a, y);
    ProductAssoc(a, b, y);
    ProductComm(a, b);
    ProductAssoc(c, a, z);
    ProductAssoc(a, c, z);
    ProductComm(a, c);
    ProductAssoc(b, b, x);
    ProductAssoc(c, c, x);
    ProductAdd(a, Product(b, y), Product(c, z));
    ProductNeg(a, Product(a, x));
    ProductAssoc(a, a, x);
    ProductAdd(Product(b, b), Product(c, c), x);
    ProductAdd(Product(b, b) + Product(c, c), Product(a, a), x);
    ProductUnits(x);
  }

  lemma CrossCombination(k: Vec3, x: Vec3, s: real, y: Vec3, v: real, z: Vec3)
    ensures Cross(k, Add(x, Add(Scale(s, y), Scale(v, z))))
         == Add(Cross(k, x), Add(Scale(s, Cross(k, y)), Scale(v, Cross(k, z))))
  {
    hide Cross, Add, Scale;
    CrossAdd(k, x, Add(Scale(s, y), Scale(v, z)));
    CrossAdd(k, Scale(s, y), Scale(v, z));
    CrossScale(k, s, y);
    CrossScale(k, v, z);
  }

  /** The combinations that meet when a turn is undone cancel in every component. */
  lemma Unwind(x: Vec3, y: Vec3, z: Vec3, s: real, v: real, t: Vec3, kt: Vec3, kkt: Vec3)
    requires 2.0 * v == Product(s, s) + Product(v, v)
    requires t == Add(x, Add(Scale(s, y), Scale(v, z)))
    requires kt == Add(y, Add(Scale(s, z), Scale(v, Neg(y))))
    requires kkt == Add(z, Add(Scale(s, Neg(y)), Scale(v, Neg(z))))
    ensures Add(t, Add(Scale(-s, kt), Scale(v, kkt))) == x
  {
    hide Product;
    UnwindComponent(x.x, y.x, z.x, s, v);
    UnwindComponent(x.y, y.y, z.y, s, v);
    UnwindComponent(x.z, y.z, z.z, s, v);
  }

  lemma UnwindComponent(x: real, y: real, z: real, s: real, v: real)
    requires 2.0 * v == Product(s, s) + Product(v, v)
    ensures x + (Product(s, y) + Product(v, z))
          + (Product(-s, y + (Product(s, z) + Product(v, -y))) + Product(v, z + (Product(s, -y) + Product(v, -z)))) == x
  {
    hide Product;
    var kt, kkt := Product(s, z) + Product(v, -y), Product(s, -y) + Product(v, -z);
    ProductNeg(s, y + kt);
    ProductNeg(s, y);
    ProductNeg(v, y);
    ProductNeg(v, z);
    ProductAdd(s, y, kt);
    ProductAdd(s, Product(s, z), Product(v, -y));
    ProductNeg(s, Product(v, y));
    ProductAdd(v, z, kkt);
    ProductAdd(v, Product(s, -y), Product(v, -z));
    ProductNeg(v, Product(s, y));
    ProductNeg(v, Product(v, z));
    ProductAssoc(s, s, z);
    ProductAssoc(v, v, z);
    ProductAssoc(s, v, y);
    ProductAssoc(v, s, y);
    ProductComm(s, v);
    ProductAdd(Product(s, s), Product(v, v), z);
    ProductAdd(v, v, z);
  }

  lemma TurnUndone(k: Vec3, s: real, v: real, x: Vec3)
    requires Dot(k, k) == 1.0 && 2.0 * v == Product(s, s) + Product(v, v)
    ensures Turn(k, -s, v, Turn(k, s, v, x)) == x
  {
    hide Cross, Add, Scale, Neg, Dot, Product;
    var y := Cross(k, x);
    var z := Cross(k, y);
    var t := Turn(k, s, v, x);
    DotCross(k, x);
    CrossTwice(k, y);
    CrossNeg(k, y);
    CrossCombination(k, x, s, y, v, z);
    CrossCombination(k, y, s, z, v, Neg(y));
    Unwind(x, y, z, s, v, t, Cross(k, t), Cross(k, Cross(k, t)));
  }

  /** A Rodrigues matrix about a unit axis is orthogonal. */
  lemma RodriguesOrthogonal(k: Vec3, sth: real, cth: real)
    requires Dot(k, k) == 1.0 && Product(sth, sth) + Product(cth, cth) == 1.0
    ensures Orthogonal(Rodrigues(k, sth, cth))
  {
    hide Mul, Rodrigues, Transpose, Turn, Dot, Product;
    var m, v := Rodrigues(k, sth, cth), 1.0 - cth;
    RodriguesTranspose(k, sth, cth);
    ProductNeg(sth, -sth);
    ProductNeg(sth, sth);
    ProductSub(1.0 - cth, 1.0, cth);
    ProductSub(1.0, cth, cth);
    ProductUnits(cth);
    ProductUnits(1.0 - cth);
    forall x: Vec3
      ensures Mul(Transpose(m), Mul(m, x)) == x && Mul(m, Mul(Transpose(m), x)) == x
    {
      RodriguesTurns(k, sth, cth, x);
      RodriguesTurns(k, -sth, cth, Mul(m, x));
      RodriguesTurns(k, -sth, cth, x);
      RodriguesTurns(k, sth, cth, Mul(Transpose(m), x));
      TurnUndone(k, sth, v, x);
      TurnUndone(k, -sth, v, x);
      assert -(-sth) == sth;
    }
  }

  lemma TurnKeepsAxis(k: Vec3, s: real, v: real)
    ensures Turn(k, s, v, k) == k
  {
    hide Cross, Scale, Dot;
    CrossTurns(k, k);
    CrossZero(k);
    ScaleZero(s);
    ScaleZero(v);
  }

  lemma TurnAcross(k: Vec3, s: real, v: real, x: Vec3)
    requires Dot(k, k) == 1.0 && Dot(k, x) == 0.0
    ensures Turn(k, s, v, x) == Add(Scale(1.0 - v, x), Scale(s, Cross(k, x)))
  {
    hide Cross, Scale, Dot;
    CrossTwice(k, x);
    NegatedScale(v, x);
    ScaleSum(1.0, -v, x);
    ScaleUnits(x);
  }

  /** The matrix keeps its axis, and turns what is across it by the angle, from x towards axis x x. */
  lemma RodriguesRotates(k: Vec3, sth: real, cth: real, x: Vec3)
    requires Dot(k, k) == 1.0
    ensures Mul(Rodrigues(k, sth, cth), k) == k
    ensures Dot(k, x) == 0.0 ==> Mul(Rodrigues(k, sth, cth), x) == Add(Scale(cth, x), Scale(sth, Cross(k, x)))
  {
    hide Mul, Rodrigues, Cross, Scale, Dot, Turn, Add;
    var v := 1.0 - cth;
    RodriguesTurns(k, sth, cth, k);
    TurnKeepsAxis(k, sth, v);
    RodriguesTurns(k, sth, cth, x);
    if Dot(k, x) == 0.0 {
      TurnAcross(k, sth, v, x);
      assert 1.0 - v == cth;
    }
  }
}
