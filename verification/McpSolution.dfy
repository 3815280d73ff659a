/** What it means for the contact forces to solve the contact problem, and that a pass leaves them
    unchanged exactly when they do. */
module McpSolution {
  import opened LinearAlgebra
  import opened Roots
  import opened Sums
  import opened GaussSeidel

  /** Complementarity of contact normal j: it pushes or separates, never both. */
  ghost predicate NormalSolved(p: Problem, x: seq<real>, j: nat)
    requires p.Fits(x) && j < |p.mu|
  {
    x[j] >= 0.0 && Residual(p, x, j) >= 0.0 && (x[j] == 0.0 || Residual(p, x, j) == 0.0)
  }

  ghost predicate ConnectionSolved(p: Problem, x: seq<real>, j: nat)
    requires p.Fits(x) && j < |x|
  {
    Residual(p, x, j) == 0.0
  }

  /** The friction of contact k either stops all sliding, or is the greatest the cone allows and
      is against the residual, each component weighed by its own diagonal entry. */
  ghost predicate FrictionSolved(p: Problem, x: seq<real>, k: nat)
    requires p.Fits(x) && k < |p.mu|
  {
    var i, fmax := p.n + 2 * k, Limit(p, x, k);
    && InCone(p, x, k)
    && (|| (Residual(p, x, i) == 0.0 && Residual(p, x, i + 1) == 0.0)
        || fmax == 0.0
        || exists c: real :: Slides(p, x, k, c))
  }

  /** The friction of contact k is on the boundary of its cone and against the residual, with factor c. */
  ghost predicate Slides(p: Problem, x: seq<real>, k: nat, c: real)
    requires p.Fits(x) && k < |p.mu|
  {
    var i, fmax := p.n + 2 * k, Limit(p, x, k);
    && c > 0.0
    && Product(x[i], x[i]) + Product(x[i + 1], x[i + 1]) == Product(fmax, fmax)
    && Residual(p, x, i) == -Product(c, Product(p.M[i][i], x[i]))
    && Residual(p, x, i + 1) == -Product(c, Product(p.M[i + 1][i + 1], x[i + 1]))
  }

  ghost predicate Solved(p: Problem, x: seq<real>)
    requires p.Fits(x)
  {
    && (forall j | 0 <= j < |p.mu| :: NormalSolved(p, x, j))
    && (forall j | |p.mu| <= j < p.n :: ConnectionSolved(p, x, j))
    && (forall k | 0 <= k < |p.mu| :: FrictionSolved(p, x, k))
  }

  /** Relaxing row j moves entry j by minus the residual over the diagonal. */
  lemma RelaxedStep(p: Problem, x: seq<real>, j: nat)
    requires p.Fits(x) && j < |x|
    ensures Product(p.M[j][j], Relaxed(p, x, j)) == Product(p.M[j][j], x[j]) - Residual(p, x, j)
  {
    hide Product, SeqDot;
    var d := p.M[j][j];
    var top := -p.b[j] - (-Product(d, x[j]) + SeqDot(p.M[j], x));
    DivideBack(top, d);
    ProductComm(d, top / d);
  }

  lemma RowFixed(p: Problem, x: seq<real>, j: nat)
    requires p.Fits(x) && j < p.n
    ensures RowValue(p, x, j, false) == x[j]
       <==> if j < |p.mu| then NormalSolved(p, x, j) else ConnectionSolved(p, x, j)
  {
    hide Product, SeqDot;
    var d, v := p.M[j][j], Relaxed(p, x, j);
    RelaxedStep(p, x, j);
    ProductSub(d, v, x[j]);
    PositiveFactor(d, v - x[j]);
    PositiveFactor(d, v);
    PositiveFactor(d, x[j]);
  }

  /** A pair that was scaled back is on the circle, a factor short of where it was. */
  lemma ClippedPair(vx: real, vy: real, fmax: real, sqrt: real -> real) returns (c: real)
    requires IsSqrt(sqrt) && fmax > 0.0 && Product(vx, vx) + Product(vy, vy) > Product(fmax, fmax)
    ensures var f := Clip(vx, vy, fmax, sqrt);
      && c > 0.0
      && Product(f.0, f.0) + Product(f.1, f.1) == Product(fmax, fmax)
      && vx == f.0 + Product(c, f.0) && vy == f.1 + Product(c, f.1)
  {
    hide Product;
    var fmag2 := Product(vx, vx) + Product(vy, vy);
    var r := sqrt(fmag2);
    ProductSquare(fmax);
    ProductUnits(r);
    assert r > fmax by { SquareOrder(r, fmax); }
    var s := fmax / r;
    DivideBack(fmax, r);
    SquareOfProduct(s, vx);
    SquareOfProduct(s, vy);
    SquareOfProduct(s, r);
    ProductAdd(Product(s, s), Product(vx, vx), Product(vy, vy));
    var t := r / fmax;
    c := t - 1.0;
    assert c > 0.0;
    Undo(s, t, fmax, r, vx);
    Undo(s, t, fmax, r, vy);
    ProductSub(t, 1.0, Product(s, vx));
    ProductSub(t, 1.0, Product(s, vy));
    ProductUnits(Product(s, vx));
    ProductUnits(Product(s, vy));
  }

  lemma SquareOrder(a: real, b: real)
    requires a >= 0.0 && b > 0.0 && Product(a, a) > Product(b, b)
    ensures a > b
  {
    assert a <= b ==> a * a <= b * b;
  }

  lemma Undo(s: real, t: real, a: real, b: real, v: real)
    requires a != 0.0 && b != 0.0 && s == a / b && t == b / a
    ensures Product(t, Product(s, v)) == v
  {
    assert t * s == 1.0;
    calc {
      Product(t, Product(s, v));
      { ProductAssoc(t, s, v); }
      Product(Product(t, s), v);
      { ProductUnits(v); }
      v;
    }
  }

  /** A pair pushed out of the circle along its own direction is scaled back to where it was. */
  lemma PushedPair(fx: real, fy: real, c: real, fmax: real, sqrt: real -> real)
    requires IsSqrt(sqrt) && fmax > 0.0 && c > 0.0
    requires Product(fx, fx) + Product(fy, fy) == Product(fmax, fmax)
    ensures Clip(fx + Product(c, fx), fy + Product(c, fy), fmax, sqrt) == (fx, fy)
  {
    hide Product;
    var t := 1.0 + c;
    ProductAdd(1.0, c, fx);
    ProductAdd(1.0, c, fy);
    ProductUnits(fx);
    ProductUnits(fy);
    var vx, vy := Product(t, fx), Product(t, fy);
    var fmag2, r := Product(vx, vx) + Product(vy, vy), Product(t, fmax);
    SquareOfProduct(t, fx);
    SquareOfProduct(t, fy);
    SquareOfProduct(t, fmax);
    ProductAdd(Product(t, t), Product(fx, fx), Product(fy, fy));
    PositiveFactor(t, fmax);
    PositiveFactor(c, fmax);
    ProductAdd(1.0, c, fmax);
    ProductUnits(fmax);
    SquareGrows(fmax, r);
    ProductSquare(vx);
    ProductSquare(vy);
    RootUnique(sqrt(fmag2), r);
    ShrinkBack(fmax, r, t, fx);
    ShrinkBack(fmax, r, t, fy);
  }

  lemma SquareGrows(a: real, b: real)
    requires 0.0 < a < b
    ensures Product(b, b) > Product(a, a)
  {}

  lemma ShrinkBack(a: real, r: real, t: real, f: real)
    requires a > 0.0 && t > 0.0 && r == Product(t, a) && r > 0.0
    ensures Product(a / r, Product(t, f)) == f
  {
    hide Product;
    DivideBack(r, a);
    CancelRight(r / a, t, a);
    Undo(r / a, a / r, r, a, f);
  }

  /** Clipping with a vanishing limit leaves nothing of a pair outside, and nothing is all there is. */
  lemma ClipToNothing(vx: real, vy: real, sqrt: real -> real)
    requires IsSqrt(sqrt)
    ensures Clip(vx, vy, 0.0, sqrt) == (0.0, 0.0)
  {
    hide Product;
    ProductUnits(0.0);
    ProductSquare(vx);
    ProductSquare(vy);
    SquareZero(vx);
    SquareZero(vy);
    var fmag2 := Product(vx, vx) + Product(vy, vy);
    var r := sqrt(fmag2);
    if fmag2 > 0.0 {
      assert r != 0.0;
      var s := 0.0 / r;
      assert s == 0.0;
      ProductUnits(vx);
      ProductUnits(vy);
      assert Clip(vx, vy, 0.0, sqrt) == (Product(s, vx), Product(s, vy));
    } else {
      assert vx == 0.0 && vy == 0.0;
      assert Clip(vx, vy, 0.0, sqrt) == (vx, vy);
    }
  }

  lemma NothingInside(fx: real, fy: real)
    requires Product(fx, fx) + Product(fy, fy) <= 0.0
    ensures fx == 0.0 && fy == 0.0
  {
    hide Product;
    ProductSquare(fx);
    ProductSquare(fy);
    SquareZero(fx);
    SquareZero(fy);
  }

  /** The values a pair is clipped from: where it is, less the residuals over the diagonals. */
  lemma PairValues(p: Problem, x: seq<real>, i: nat, c: real)
    requires p.Fits(x) && i < |x|
    ensures Residual(p, x, i) == -Product(c, Product(p.M[i][i], x[i])) <==> Relaxed(p, x, i) == x[i] + Product(c, x[i])
    ensures Residual(p, x, i) == 0.0 <==> Relaxed(p, x, i) == x[i]
  {
    hide Product, SeqDot;
    var d, v := p.M[i][i], Relaxed(p, x, i);
    RelaxedStep(p, x, i);
    ProductSub(d, v, x[i]);
    PositiveFactor(d, v - x[i]);
    ProductSwap(c, d, x[i]);
    ProductSub(d, v - x[i], Product(c, x[i]));
    PositiveFactor(d, v - x[i] - Product(c, x[i]));
  }

  lemma PairFixed(p: Problem, x: seq<real>, k: nat, sqrt: real -> real)
    requires p.Fits(x) && k < |p.mu| && IsSqrt(sqrt) && x[k] >= 0.0
    ensures PairStep(p, x, k, false, sqrt) == x <==> FrictionSolved(p, x, k)
  {
    hide Product, SeqDot, Relaxed, Residual;
    var i, fmax := p.n + 2 * k, Limit(p, x, k);
    var vx, vy := Relaxed(p, x, i), Relaxed(p, x, i + 1);
    ProductSign(p.mu[k], x[k]);
    ClipInCircle(vx, vy, fmax, sqrt);
    StepIsClip(p, x, k, sqrt);
    PairValues(p, x, i, 0.0);
    PairValues(p, x, i + 1, 0.0);
    ProductUnits(fmax);
    if fmax == 0.0 {
      ClipToNothing(vx, vy, sqrt);
      if InCone(p, x, k) { NothingInside(x[i], x[i + 1]); }
    } else {
      if Clip(vx, vy, fmax, sqrt) == (x[i], x[i + 1]) && Product(vx, vx) + Product(vy, vy) > Product(fmax, fmax) {
        var c := ClippedPair(vx, vy, fmax, sqrt);
        PairValues(p, x, i, c);
        PairValues(p, x, i + 1, c);
        assert Slides(p, x, k, c);
      }
      if c: real :| Slides(p, x, k, c) {
        PairValues(p, x, i, c);
        PairValues(p, x, i + 1, c);
        PushedPair(x[i], x[i + 1], c, fmax, sqrt);
      }
    }
  }

  lemma StepIsClip(p: Problem, x: seq<real>, k: nat, sqrt: real -> real)
    requires p.Fits(x) && k < |p.mu|
    ensures var i := p.n + 2 * k;
      PairStep(p, x, k, false, sqrt) == x
      <==> Clip(Relaxed(p, x, i), Relaxed(p, x, i + 1), Limit(p, x, k), sqrt) == (x[i], x[i + 1])
  {
    hide Product, SeqDot, Clip, Relaxed;
    var i := p.n + 2 * k;
    var y := PairStep(p, x, k, false, sqrt);
    if y == x {
      assert y[i] == x[i] && y[i + 1] == x[i + 1];
    }
  }

  // ---- a whole pass ----

  lemma {:induction false} RowSweepFixed(p: Problem, x: seq<real>, j: nat)
    requires p.Fits(x) && j <= p.n
    ensures RowSweep(p, x, j, false) == x <==> forall i | j <= i < p.n :: RowValue(p, x, i, false) == x[i]
    decreases p.n - j
  {
    hide Product, SeqDot, Relaxed;
    if j < p.n {
      var y := x[j := RowValue(p, x, j, false)];
      RowSweepKeeps(p, y, j + 1, false);
      assert RowSweep(p, x, j, false) == RowSweep(p, y, j + 1, false);
      if RowValue(p, x, j, false) == x[j] {
        assert y == x;
        RowSweepFixed(p, x, j + 1);
      } else {
        assert RowSweep(p, y, j + 1, false)[j] == y[j] != x[j];
      }
    }
  }

  lemma {:induction false} PairSweepFixed(p: Problem, x: seq<real>, k: nat, sqrt: real -> real)
    requires p.Fits(x) && k <= |p.mu| && IsSqrt(sqrt)
    ensures PairSweep(p, x, k, false, sqrt) == x <==> forall l | k <= l < |p.mu| :: PairStep(p, x, l, false, sqrt) == x
    decreases |p.mu| - k
  {
    hide Product, SeqDot, Clip, Value, Limit;
    if k < |p.mu| {
      var i := p.n + 2 * k;
      var y := PairStep(p, x, k, false, sqrt);
      PairSweepKeeps(p, y, k + 1, false, sqrt);
      assert PairSweep(p, x, k, false, sqrt) == PairSweep(p, y, k + 1, false, sqrt);
      if y == x {
        PairSweepFixed(p, x, k + 1, sqrt);
      } else {
        assert y[i] != x[i] || y[i + 1] != x[i + 1];
      }
    }
  }

  /** The error check leaves the forces as they are exactly when they solve the contact problem. */
  lemma FixedIffSolved(p: Problem, x: seq<real>, sqrt: real -> real)
    requires p.Fits(x) && IsSqrt(sqrt)
    ensures Pass(p, x, false, sqrt) == x <==> Solved(p, x)
  {
    hide Product, SeqDot, RowValue, PairStep, NormalSolved, ConnectionSolved, FrictionSolved;
    var y := RowSweep(p, x, 0, false);
    RowSweepKeeps(p, x, 0, false);
    PairSweepKeeps(p, y, 0, false, sqrt);
    RowSweepFixed(p, x, 0);
    PairSweepFixed(p, x, 0, sqrt);
    forall j | 0 <= j < p.n
      ensures RowValue(p, x, j, false) == x[j]
         <==> if j < |p.mu| then NormalSolved(p, x, j) else ConnectionSolved(p, x, j)
    {
      RowFixed(p, x, j);
    }
    if Pass(p, x, false, sqrt) == x {
      assert forall i | 0 <= i < p.n :: y[i] == x[i];
      assert y == x;
    }
    if y == x {
      NormalsNonNegative(p, x);
      forall k | 0 <= k < |p.mu|
        ensures PairStep(p, x, k, false, sqrt) == x <==> FrictionSolved(p, x, k)
      {
        PairFixed(p, x, k, sqrt);
      }
    }
  }

  lemma NormalsNonNegative(p: Problem, x: seq<real>)
    requires p.Fits(x) && RowSweep(p, x, 0, false) == x
    ensures forall k | 0 <= k < |p.mu| :: x[k] >= 0.0
  {
    RowSweepKeeps(p, x, 0, false);
  }

  // ---- what one step reaches ----

  /** Changing entry j by d changes the residual of its row by the diagonal entry times d. */
  lemma ResidualUpdate(p: Problem, x: seq<real>, j: nat, v: real)
    requires p.Fits(x) && j < |x|
    ensures Residual(p, x[j := v], j) == Residual(p, x, j) + Product(p.M[j][j], v) - Product(p.M[j][j], x[j])
  {
    hide Product, SeqDot;
    var d := v - x[j];
    SeqDotUpdate(p.M[j], x, j, d);
    assert x[j := x[j] + d] == x[j := v];
    ProductSub(p.M[j][j], v, x[j]);
  }

  /** The relaxed entry makes its row vanish. */
  lemma RelaxedVanishes(p: Problem, x: seq<real>, j: nat)
    requires p.Fits(x) && j < |x|
    ensures Residual(p, x[j := Relaxed(p, x, j)], j) == 0.0
  {
    hide Product, SeqDot, Residual, Relaxed;
    RelaxedStep(p, x, j);
    ResidualUpdate(p, x, j, Relaxed(p, x, j));
  }

  /** One step of a pass solves its row, other entries held: a contact normal is complementary and a connection has
      no residual. Only on a row that is marked as singular a pass that heeds the mark puts nothing instead. */
  lemma RowStepSolves(p: Problem, x: seq<real>, j: nat, marked: bool)
    requires p.Fits(x) && j < p.n
    ensures var y := x[j := RowValue(p, x, j, marked)];
            if marked && p.M[j][j] == SINGULAR then y[j] == 0.0
            else if j < |p.mu| then NormalSolved(p, y, j) else ConnectionSolved(p, y, j)
  {
    hide Product, SeqDot, Residual, Relaxed;
    var d, v := p.M[j][j], Relaxed(p, x, j);
    RelaxedVanishes(p, x, j);
    ResidualUpdate(p, x, j, 0.0);
    ResidualUpdate(p, x, j, v);
    ProductUnits(d);
    PositiveFactor(d, v);
  }

  /** The value that makes row j vanish, other entries held, or none on a row marked as singular. */
  ghost predicate Vanishing(p: Problem, x: seq<real>, j: nat, v: real, marked: bool)
    requires p.Fits(x) && j < |x|
  {
    if marked && p.M[j][j] == SINGULAR then v == 0.0 else Residual(p, x[j := v], j) == 0.0
  }

  /** A pair inside the circle stays, and one outside is taken straight back onto it. */
  ghost predicate TakenBack(v0: real, v1: real, fmax: real, f0: real, f1: real) {
    if Product(v0, v0) + Product(v1, v1) <= Product(fmax, fmax) then f0 == v0 && f1 == v1
    else
      && Product(f0, f0) + Product(f1, f1) == Product(fmax, fmax)
      && exists s: real :: s >= 0.0 && Stretched(s, v0, v1, f0, f1)
  }

  ghost predicate Stretched(s: real, v0: real, v1: real, f0: real, f1: real) {
    f0 == Product(s, v0) && f1 == Product(s, v1)
  }

  /** One friction step: both components are made to vanish, each with the other held, and then taken back together
      into the cone of their own contact. */
  lemma PairStepReaches(p: Problem, x: seq<real>, k: nat, marked: bool, sqrt: real -> real) returns (v0: real, v1: real)
    requires p.Fits(x) && k < |p.mu| && x[k] >= 0.0 && IsSqrt(sqrt)
    ensures var i, y := p.n + 2 * k, PairStep(p, x, k, marked, sqrt);
      && (forall j | 0 <= j < |x| && j != i && j != i + 1 :: y[j] == x[j])
      && Vanishing(p, x, i, v0, marked) && Vanishing(p, x, i + 1, v1, marked)
      && TakenBack(v0, v1, Product(p.mu[k], x[k]), y[i], y[i + 1])
  {
    hide Product, SeqDot, Residual, Relaxed, Clip;
    var i := p.n + 2 * k;
    RelaxedVanishes(p, x, i);
    RelaxedVanishes(p, x, i + 1);
    ProductSign(p.mu[k], x[k]);
    v0, v1 := Value(p, x, i, marked), Value(p, x, i + 1, marked);
    ClipTakesBack(v0, v1, Limit(p, x, k), sqrt);
  }

  lemma ClipTakesBack(v0: real, v1: real, fmax: real, sqrt: real -> real)
    requires IsSqrt(sqrt) && fmax >= 0.0
    ensures var f := Clip(v0, v1, fmax, sqrt); TakenBack(v0, v1, fmax, f.0, f.1)
  {
    hide Product;
    var fmag2 := Product(v0, v0) + Product(v1, v1);
    if fmag2 > Product(fmax, fmax) {
      ProductSquare(fmax);
      var r := sqrt(fmag2);
      ProductUnits(r);
      var s := fmax / r;
      DivideBack(fmax, r);
      SquareOfProduct(s, v0);
      SquareOfProduct(s, v1);
      SquareOfProduct(s, r);
      ProductAdd(Product(s, s), Product(v0, v0), Product(v1, v1));
      assert s >= 0.0 && Stretched(s, v0, v1, Product(s, v0), Product(s, v1));
    }
  }
}
