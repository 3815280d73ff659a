/** The projected Gauss-Seidel solver for the contact problem: what its passes compute, that their
    result respects every contact and its friction cone, and what a pass that changes nothing means. */
module GaussSeidel {
  import opened LinearAlgebra
  import opened Roots
  import opened Sums

  function Pow2(n: nat): (r: int)
    ensures r >= 1
  {
    if n == 0 then 1 else 2 * Pow2(n - 1)
  }

  /** numeric_limits<double>::max(), the marker of a singular diagonal entry. */
  const SINGULAR: real := ((Pow2(53) - 1) * Pow2(971)) as real

  /** numeric_limits<double>::epsilon() */
  const EPSILON: real := 1.0 / (Pow2(52) as real)

  /** A contact problem: n constraint rows, the first |mu| of them contact normals and the rest
      connections, then two friction rows for each contact. */
  datatype Problem = Problem(M: seq<seq<real>>, b: seq<real>, mu: seq<real>, n: nat) {

    predicate Valid() {
      && |mu| <= n && |M| == |b| == n + 2 * |mu| && IsSquare(M)
      && (forall i | 0 <= i < |M| :: M[i][i] > 0.0)
      && (forall k | 0 <= k < |mu| :: mu[k] >= 0.0)
    }

    predicate Fits(x: seq<real>) { Valid() && |x| == |M| }
  }

  /** Row j of M x + b. */
  function Residual(p: Problem, x: seq<real>, j: nat): real
    requires p.Fits(x) && j < |x|
  {
    SeqDot(p.M[j], x) + p.b[j]
  }

  /** The value of entry j that makes row j vanish, other entries held. */
  function Relaxed(p: Problem, x: seq<real>, j: nat): real
    requires p.Fits(x) && j < |x|
  {
    (-p.b[j] - (-Product(p.M[j][j], x[j]) + SeqDot(p.M[j], x))) / p.M[j][j]
  }

  /** The same, except that a pass that heeds the marker puts nothing on a singular row. */
  function Value(p: Problem, x: seq<real>, j: nat, marked: bool): real
    requires p.Fits(x) && j < |x|
  {
    if marked && p.M[j][j] == SINGULAR then 0.0 else Relaxed(p, x, j)
  }

  function RowValue(p: Problem, x: seq<real>, j: nat, marked: bool): real
    requires p.Fits(x) && j < p.n
  {
    var v := Value(p, x, j, marked);
    if j < |p.mu| && v < 0.0 then 0.0 else v
  }

  /** Constraint rows j, j+1, ... in turn. */
  function RowSweep(p: Problem, x: seq<real>, j: nat, marked: bool): (y: seq<real>)
    requires p.Fits(x) && j <= p.n
    ensures |y| == |x|
    decreases p.n - j
  {
    if j == p.n then x else RowSweep(p, x[j := RowValue(p, x, j, marked)], j + 1, marked)
  }

  /** A pair of friction forces scaled back into the circle of radius |fmax|. */
  function Clip(fx: real, fy: real, fmax: real, sqrt: real -> real): (real, real) {
    var fmag2 := Product(fx, fx) + Product(fy, fy);
    if fmag2 > Product(fmax, fmax) && sqrt(fmag2) != 0.0 then
      (Product(fmax / sqrt(fmag2), fx), Product(fmax / sqrt(fmag2), fy))
    else
      (fx, fy)
  }

  /** The greatest friction force of contact k. */
  function Limit(p: Problem, x: seq<real>, k: nat): real
    requires p.Fits(x) && k < |p.mu|
  {
    Product(p.mu[k], x[k])
  }

  function PairStep(p: Problem, x: seq<real>, k: nat, marked: bool, sqrt: real -> real): (y: seq<real>)
    requires p.Fits(x) && k < |p.mu|
    ensures |y| == |x|
  {
    var i := p.n + 2 * k;
    var f := Clip(Value(p, x, i, marked), Value(p, x, i + 1, marked), Limit(p, x, k), sqrt);
    x[i := f.0][i + 1 := f.1]
  }

  /** The friction pairs of contacts k, k+1, ... in turn. */
  function PairSweep(p: Problem, x: seq<real>, k: nat, marked: bool, sqrt: real -> real): (y: seq<real>)
    requires p.Fits(x) && k <= |p.mu|
    ensures |y| == |x|
    decreases |p.mu| - k
  {
    if k == |p.mu| then x else PairSweep(p, PairStep(p, x, k, marked, sqrt), k + 1, marked, sqrt)
  }

  /** One pass over all rows. */
  function Pass(p: Problem, x: seq<real>, marked: bool, sqrt: real -> real): (y: seq<real>)
    requires p.Fits(x)
    ensures |y| == |x|
  {
    PairSweep(p, RowSweep(p, x, 0, marked), 0, marked, sqrt)
  }

  function Passes(p: Problem, x: seq<real>, times: nat, sqrt: real -> real): (y: seq<real>)
    requires p.Fits(x)
    ensures |y| == |x|
  {
    if times == 0 then x else Pass(p, Passes(p, x, times - 1, sqrt), true, sqrt)
  }

  // ---- feasibility ----

  predicate InCone(p: Problem, x: seq<real>, k: nat)
    requires p.Fits(x) && k < |p.mu|
  {
    var i, fmax := p.n + 2 * k, Limit(p, x, k);
    Product(x[i], x[i]) + Product(x[i + 1], x[i + 1]) <= Product(fmax, fmax)
  }

  /** Every normal force pushes, and every friction pair lies in the cone of its own contact. */
  predicate Feasible(p: Problem, x: seq<real>)
    requires p.Fits(x)
  {
    forall k | 0 <= k < |p.mu| :: x[k] >= 0.0 && InCone(p, x, k)
  }

  lemma {:induction false} RowSweepKeeps(p: Problem, x: seq<real>, j: nat, marked: bool)
    requires p.Fits(x) && j <= p.n
    ensures var y := RowSweep(p, x, j, marked);
      && (forall i | 0 <= i < j || p.n <= i < |x| :: y[i] == x[i])
      && (forall i | j <= i < |p.mu| :: y[i] >= 0.0)
    decreases p.n - j
  {
    hide Product;
    if j < p.n {
      var x' := x[j := RowValue(p, x, j, marked)];
      RowSweepKeeps(p, x', j + 1, marked);
      assert RowSweep(p, x, j, marked) == RowSweep(p, x', j + 1, marked);
    }
  }

  lemma ClipInCircle(fx: real, fy: real, fmax: real, sqrt: real -> real)
    requires IsSqrt(sqrt)
    ensures var f := Clip(fx, fy, fmax, sqrt);
      Product(f.0, f.0) + Product(f.1, f.1) <= Product(fmax, fmax)
  {
    hide Product;
    var fmag2 := Product(fx, fx) + Product(fy, fy);
    if fmag2 > Product(fmax, fmax) {
      ProductSquare(fmax);
      var r := sqrt(fmag2);
      ProductUnits(r);
      var s := fmax / r;
      DivideBack(fmax, r);
      SquareOfProduct(s, fx);
      SquareOfProduct(s, fy);
      SquareOfProduct(s, r);
      ProductAdd(Product(s, s), Product(fx, fx), Product(fy, fy));
    }
  }

  lemma {:induction false} PairSweepKeeps(p: Problem, x: seq<real>, k: nat, marked: bool, sqrt: real -> real)
    requires p.Fits(x) && k <= |p.mu| && IsSqrt(sqrt)
    ensures var y := PairSweep(p, x, k, marked, sqrt);
      && (forall i | 0 <= i < p.n + 2 * k :: y[i] == x[i])
      && (forall l | k <= l < |p.mu| :: InCone(p, y, l))
    decreases |p.mu| - k
  {
    hide Product, Clip, Value;
    if k < |p.mu| {
      var i := p.n + 2 * k;
      ClipInCircle(Value(p, x, i, marked), Value(p, x, i + 1, marked), Limit(p, x, k), sqrt);
      PairSweepKeeps(p, PairStep(p, x, k, marked, sqrt), k + 1, marked, sqrt);
    }
  }

  /** Whatever it starts from, a pass ends feasible. */
  lemma PassFeasible(p: Problem, x: seq<real>, marked: bool, sqrt: real -> real)
    requires p.Fits(x) && IsSqrt(sqrt)
    ensures Feasible(p, Pass(p, x, marked, sqrt))
  {
    hide Product;
    RowSweepKeeps(p, x, 0, marked);
    var y := RowSweep(p, x, 0, marked);
    PairSweepKeeps(p, y, 0, marked, sqrt);
    assert forall k | 0 <= k < |p.mu| :: Pass(p, x, marked, sqrt)[k] == y[k];
  }
}
