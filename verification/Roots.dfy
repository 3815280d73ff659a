/** Signs, quotients and square roots of reals. */
module Roots {
  import opened LinearAlgebra

  ghost predicate IsSqrt(sqrt: real -> real) {
    forall a: real | a >= 0.0 :: sqrt(a) >= 0.0 && Product(sqrt(a), sqrt(a)) == a
  }

  lemma DivideBack(a: real, b: real)
    requires b != 0.0
    ensures Product(a / b, b) == a
  {}

  lemma SquareOfProduct(s: real, a: real)
    ensures Product(Product(s, a), Product(s, a)) == Product(Product(s, s), Product(a, a))
  {
    hide Product;
    ProductAssoc(Product(s, a), s, a);
    ProductComm(Product(s, a), s);
    ProductAssoc(s, s, a);
    ProductAssoc(Product(s, s), a, a);
  }

  /** Sign of a product with a positive factor. */
  lemma PositiveFactor(d: real, v: real)
    requires d > 0.0
    ensures (Product(d, v) > 0.0 <==> v > 0.0) && (Product(d, v) == 0.0 <==> v == 0.0)
  {
    if v > 0.0 {
      assert d * v > 0.0;
    } else if v < 0.0 {
      assert d * -v > 0.0;
    }
  }

  lemma RootUnique(a: real, b: real)
    requires a >= 0.0 && b >= 0.0 && Product(a, a) == Product(b, b)
    ensures a == b
  {
    if a > b {
      SquareExceeds(a, b);
    } else if b > a {
      SquareExceeds(b, a);
    }
  }

  lemma SquareExceeds(a: real, b: real)
    requires a > b >= 0.0
    ensures Product(a, a) > Product(b, b)
  {
    var d, e := a - b, a + b;
    assert d * e > 0.0;
    assert d * e == a * a - b * b;
  }

  lemma CancelRight(x: real, y: real, a: real)
    requires a != 0.0 && Product(x, a) == Product(y, a)
    ensures x == y
  {
    hide Product;
    ProductSub(x, y, a);
    ZeroFactor(x - y, a);
  }

  lemma ZeroFactor(d: real, a: real)
    requires a != 0.0 && Product(d, a) == 0.0
    ensures d == 0.0
  {
    assert d == (d * a) / a;
  }

  lemma SquareZero(a: real)
    ensures Product(a, a) == 0.0 ==> a == 0.0
  {
    hide Product;
    if a > 0.0 {
      PositiveFactor(a, a);
    } else if a < 0.0 {
      PositiveFactor(-a, a);
      ProductNeg(a, a);
    }
  }

  lemma SquarePositive(a: real)
    ensures Product(a, a) >= 0.0 && (a != 0.0 ==> Product(a, a) > 0.0)
  {
    hide Product;
    ProductSquare(a);
    SquareZero(a);
  }
}
