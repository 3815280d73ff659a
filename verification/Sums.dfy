/** Inner products of sequences of reals, and how they change when one entry does. */
module Sums {
  import opened LinearAlgebra

  function SeqDot(a: seq<real>, x: seq<real>): real
    requires |a| == |x|
  {
    if a == [] then 0.0
    else SeqDot(a[..|a| - 1], x[..|x| - 1]) + Product(a[|a| - 1], x[|x| - 1])
  }

  lemma {:induction false} SeqDotComm(a: seq<real>, x: seq<real>)
    requires |a| == |x|
    ensures SeqDot(a, x) == SeqDot(x, a)
  {
    hide Product;
    if a != [] {
      SeqDotComm(a[..|a| - 1], x[..|x| - 1]);
      ProductComm(a[|a| - 1], x[|x| - 1]);
    }
  }

  lemma {:induction false} SeqDotSame(a: seq<real>, b: seq<real>, x: seq<real>)
    requires |a| == |b| == |x| && forall i | 0 <= i < |x| :: Product(a[i], x[i]) == Product(b[i], x[i])
    ensures SeqDot(a, x) == SeqDot(b, x)
  {
    hide Product;
    if x != [] {
      var n := |x| - 1;
      SeqDotSame(a[..n], b[..n], x[..n]);
    }
  }

  /** Changing entry j by d changes the product by a[j] d. */
  lemma {:induction false} SeqDotUpdate(a: seq<real>, x: seq<real>, j: nat, d: real)
    requires |a| == |x| && j < |a|
    ensures SeqDot(a, x[j := x[j] + d]) == SeqDot(a, x) + Product(a[j], d)
  {
    hide Product;
    var n := |a| - 1;
    var y := x[j := x[j] + d];
    if j == n {
      assert y[..n] == x[..n];
      ProductAdd(a[n], x[n], d);
    } else {
      SeqDotUpdate(a[..n], x[..n], j, d);
      assert y[..n] == x[..n][j := x[..n][j] + d];
    }
  }

  /** The product is linear in its second factor. */
  lemma {:induction false} SeqDotShift(a: seq<real>, x: seq<real>, y: seq<real>, d: real, z: seq<real>)
    requires |a| == |x| == |y| == |z|
    requires forall i | 0 <= i < |a| :: z[i] == x[i] + Product(d, y[i])
    ensures SeqDot(a, z) == SeqDot(a, x) + Product(d, SeqDot(a, y))
  {
    hide Product;
    if a == [] {
      ProductUnits(d);
    } else {
      var n := |a| - 1;
      SeqDotShift(a[..n], x[..n], y[..n], d, z[..n]);
      ProductAdd(a[n], x[n], Product(d, y[n]));
      ProductSwap(a[n], d, y[n]);
      ProductAdd(d, SeqDot(a[..n], y[..n]), Product(a[n], y[n]));
    }
  }

  predicate IsSquare(m: seq<seq<real>>) { forall i | 0 <= i < |m| :: |m[i]| == |m| }

  predicate IsSymmetricMatrix(m: seq<seq<real>>)
    requires IsSquare(m)
  {
    forall i, j | 0 <= i < |m| && 0 <= j < |m| :: m[i][j] == m[j][i]
  }

  /** The matrix times a vector. */
  ghost function Rows(m: seq<seq<real>>, x: seq<real>): (r: seq<real>)
    requires IsSquare(m) && |x| == |m|
    ensures |r| == |m| && forall i | 0 <= i < |m| :: r[i] == SeqDot(m[i], x)
  {
    seq(|m|, i requires 0 <= i < |m| => SeqDot(m[i], x))
  }

  /** x^T M x, when entry j of x changes by d and M is symmetric. */
  lemma QuadraticUpdate(m: seq<seq<real>>, x: seq<real>, j: nat, d: real)
    requires IsSquare(m) && IsSymmetricMatrix(m) && |x| == |m| && j < |x|
    ensures var y := x[j := x[j] + d];
      SeqDot(y, Rows(m, y)) == SeqDot(x, Rows(m, x)) + 2.0 * Product(d, SeqDot(m[j], x))
          + Product(m[j][j], Product(d, d))
  {
    hide Product, SeqDot;
    var y, r := x[j := x[j] + d], Rows(m, x);
    forall i | 0 <= i < |m|
      ensures Rows(m, y)[i] == r[i] + Product(d, m[j][i])
    {
      SeqDotUpdate(m[i], x, j, d);
      ProductComm(m[i][j], d);
    }
    SeqDotShift(y, r, m[j], d, Rows(m, y));
    SeqDotComm(y, r);
    SeqDotUpdate(r, x, j, d);
    SeqDotComm(r, x);
    SeqDotComm(y, m[j]);
    SeqDotUpdate(m[j], x, j, d);
    ProductAdd(d, SeqDot(m[j], x), Product(m[j][j], d));
    ProductComm(d, r[j]);
    ProductSwap(d, m[j][j], d);
  }
}
