/** The contact energy 1/2 x^T M x + b^T x never grows while the normal and connection rows are
    relaxed; and when the friction of a contact really is against its sliding. */
module ContactEnergy {
  import opened LinearAlgebra
  import opened Roots
  import opened Sums
  import opened GaussSeidel
  import opened McpSolution

  ghost function Energy(p: Problem, x: seq<real>): real
    requires p.Fits(x)
  {
    SeqDot(x, Rows(p.M, x)) / 2.0 + SeqDot(p.b, x)
  }

  lemma EnergyUpdate(p: Problem, x: seq<real>, j: nat, d: real)
    requires p.Fits(x) && IsSymmetricMatrix(p.M) && j < |x|
    ensures Energy(p, x[j := x[j] + d]) == Energy(p, x) + Product(d, Residual(p, x, j))
        + Product(p.M[j][j], Product(d, d)) / 2.0
  {
    hide Product, SeqDot;
    QuadraticUpdate(p.M, x, j, d);
    SeqDotUpdate(p.b, x, j, d);
    ProductAdd(d, SeqDot(p.M[j], x), p.b[j]);
    ProductComm(d, p.b[j]);
  }

  /** Relaxing one normal or connection row lowers the energy by at least half the diagonal times the
      square of the change. */
  lemma RowDescends(p: Problem, x: seq<real>, j: nat)
    requires p.Fits(x) && IsSymmetricMatrix(p.M) && j < p.n
    requires j < |p.mu| ==> x[j] >= 0.0
    ensures var d := RowValue(p, x, j, false) - x[j];
      Energy(p, x[j := RowValue(p, x, j, false)]) <= Energy(p, x) - Product(p.M[j][j], Product(d, d)) / 2.0
  {
    hide Product, SeqDot, Energy, Relaxed, Residual;
    var m, v := p.M[j][j], Relaxed(p, x, j);
    var d := RowValue(p, x, j, false) - x[j];
    var r := Residual(p, x, j);
    EnergyUpdate(p, x, j, d);
    RelaxedStep(p, x, j);
    ProductSub(m, v, x[j]);
    ProductSwap(d, m, d);
    if j < |p.mu| && v < 0.0 {
      // clipped: d == -x[j] and r == m (x[j] - v) >= -m d, while d <= 0
      ProductSub(m, v, d);
      ProductSub(m, d, v - x[j]);
      PositiveFactor(m, d - (v - x[j]));
      OppositeSigns(d, r + Product(m, d));
      ProductAdd(d, r, Product(m, d));
    } else {
      ProductNeg(d, Product(m, d));
    }
  }

  lemma OppositeSigns(a: real, b: real)
    requires a <= 0.0 && b >= 0.0
    ensures Product(a, b) <= 0.0
  {}

  /** A sweep over the normal and connection rows never raises the energy, and lowers it unless it
      changes nothing. */
  lemma {:induction false} SweepDescends(p: Problem, x: seq<real>, j: nat)
    requires p.Fits(x) && IsSymmetricMatrix(p.M) && j <= p.n
    requires forall k | j <= k < |p.mu| :: x[k] >= 0.0
    ensures Energy(p, RowSweep(p, x, j, false)) <= Energy(p, x)
    ensures RowSweep(p, x, j, false) != x ==> Energy(p, RowSweep(p, x, j, false)) < Energy(p, x)
    decreases p.n - j
  {
    hide Product, SeqDot, Energy, Relaxed, Residual;
    if j < p.n {
      var v := RowValue(p, x, j, false);
      var y := x[j := v];
      assert RowSweep(p, x, j, false) == RowSweep(p, y, j + 1, false);
      RowDescends(p, x, j);
      SquarePositive(v - x[j]);
      PositiveFactor(p.M[j][j], Product(v - x[j], v - x[j]));
      SweepDescends(p, y, j + 1);
      if v == x[j] {
        assert y == x;
      }
    }
  }

  /** Where no normal or connection row is singular, the sweep that heeds the marker is the same. */
  lemma {:induction false} MarkerUnused(p: Problem, x: seq<real>, j: nat)
    requires p.Fits(x) && j <= p.n && forall i | j <= i < p.n :: p.M[i][i] != SINGULAR
    ensures RowSweep(p, x, j, true) == RowSweep(p, x, j, false)
    decreases p.n - j
  {
    if j < p.n {
      MarkerUnused(p, x[j := RowValue(p, x, j, true)], j + 1);
    }
  }

  /** So each sweep of the main iteration, which heeds the marker, descends as well. */
  lemma MainSweepDescends(p: Problem, x: seq<real>)
    requires p.Fits(x) && IsSymmetricMatrix(p.M) && forall k | 0 <= k < |p.mu| :: x[k] >= 0.0
    requires forall i | 0 <= i < p.n :: p.M[i][i] != SINGULAR
    ensures Energy(p, RowSweep(p, x, 0, true)) <= Energy(p, x)
    ensures RowSweep(p, x, 0, true) != x ==> Energy(p, RowSweep(p, x, 0, true)) < Energy(p, x)
  {
    MarkerUnused(p, x, 0);
    SweepDescends(p, x, 0);
  }

  // ---- the direction of friction ----

  /** The friction of contact k is along the line of the residual, which is the sliding it resists. */
  ghost predicate AlongResidual(p: Problem, x: seq<real>, k: nat)
    requires p.Fits(x) && k < |p.mu|
  {
    var i := p.n + 2 * k;
    Product(Residual(p, x, i), x[i + 1]) == Product(Residual(p, x, i + 1), x[i])
  }

  /** A sliding contact's friction is along the residual exactly when its two diagonal entries agree
      or it acts along one of the two friction axes. */
  lemma AlongResidualIff(p: Problem, x: seq<real>, k: nat, c: real)
    requires p.Fits(x) && k < |p.mu| && Slides(p, x, k, c)
    ensures var i := p.n + 2 * k;
      AlongResidual(p, x, k) <==> p.M[i][i] == p.M[i + 1][i + 1] || x[i] == 0.0 || x[i + 1] == 0.0
  {
    hide Product, SeqDot, Residual;
    var i := p.n + 2 * k;
    var a, b, f, g := p.M[i][i], p.M[i + 1][i + 1], x[i], x[i + 1];
    FrictionCross(c, a, f, g);
    FrictionCross(c, b, g, f);
    ProductComm(f, g);
    ProductSub(a, b, Product(f, g));
    ProductSub(c, Product(a, Product(f, g)), Product(b, Product(f, g)));
    PositiveFactor(c, Product(a - b, Product(f, g)));
    ZeroProduct(a - b, Product(f, g));
    ZeroProduct(f, g);
  }

  lemma FrictionCross(c: real, a: real, f: real, g: real)
    ensures Product(-Product(c, Product(a, f)), g) == -Product(c, Product(a, Product(f, g)))
  {
    hide Product;
    ProductNeg(Product(c, Product(a, f)), g);
    ProductAssoc(c, Product(a, f), g);
    ProductAssoc(a, f, g);
  }

  lemma ZeroProduct(a: real, b: real)
    ensures Product(a, b) == 0.0 <==> a == 0.0 || b == 0.0
  {
    if b != 0.0 && Product(a, b) == 0.0 {
      ZeroFactor(a, b);
    }
  }

  /** Whatever the constant vector, a sliding contact k of a solved problem has its friction along the residual. */
  ghost predicate FrictionOpposes(p: Problem, k: nat)
    requires p.Valid() && k < |p.mu|
  {
    forall b: seq<real>, x: seq<real>, c: real | |b| == |p.b| && |x| == |p.M| ::
      Solved(p.(b := b), x) && Slides(p.(b := b), x, k, c) ==> AlongResidual(p.(b := b), x, k)
  }

  /** The friction of contact k always opposes its sliding exactly when its two friction rows weigh alike,
      or it has no friction. */
  lemma FrictionOpposesIff(p: Problem, k: nat)
    requires p.Valid() && k < |p.mu|
    ensures var i := p.n + 2 * k; FrictionOpposes(p, k) <==> p.M[i][i] == p.M[i + 1][i + 1] || p.mu[k] == 0.0
  {
    hide Product, SeqDot, Residual, Solved, Slides, AlongResidual;
    var i := p.n + 2 * k;
    if p.M[i][i] == p.M[i + 1][i + 1] || p.mu[k] == 0.0 {
      forall b: seq<real>, x: seq<real>, c: real |
        |b| == |p.b| && |x| == |p.M| && Solved(p.(b := b), x) && Slides(p.(b := b), x, k, c)
        ensures AlongResidual(p.(b := b), x, k)
      {
        AlongResidualIff(p.(b := b), x, k, c);
        if p.mu[k] == 0.0 {
          NoFriction(p.(b := b), x, k, c);
        }
      }
    } else {
      var x := Pressed(p, k);
      var q := p.(b := Balancing(p, x, Sliding(p, k)));
      PressedSolved(p, k);
      AlongResidualIff(q, x, k, 1.0);
      assert !AlongResidual(p.(b := q.b), x, k);
    }
  }

  lemma NoFriction(p: Problem, x: seq<real>, k: nat, c: real)
    requires p.Fits(x) && k < |p.mu| && p.mu[k] == 0.0 && Slides(p, x, k, c)
    ensures x[p.n + 2 * k] == 0.0
  {
    hide Product, Residual;
    var f, g := x[p.n + 2 * k], x[p.n + 2 * k + 1];
    ProductUnits(x[k]);
    ProductUnits(Limit(p, x, k));
    SquarePositive(f);
    SquarePositive(g);
  }

  /** Contact k pressed with force one, at the edge of its cone; nothing else acts. */
  function Pressed(p: Problem, k: nat): (x: seq<real>)
    requires p.Valid() && k < |p.mu|
    ensures |x| == |p.M|
  {
    var i := p.n + 2 * k;
    seq(|p.M|, j => if j == k then 1.0 else if j == i then Product(0.6, p.mu[k])
                    else if j == i + 1 then Product(0.8, p.mu[k]) else 0.0)
  }

  /** The residual of a contact k that slides against its friction, each row weighed by its diagonal. */
  function Sliding(p: Problem, k: nat): (r: seq<real>)
    requires p.Valid() && k < |p.mu|
    ensures |r| == |p.M|
  {
    var i, x := p.n + 2 * k, Pressed(p, k);
    seq(|p.M|, j requires 0 <= j < |p.M| => if j == i || j == i + 1 then -Product(p.M[j][j], x[j]) else 0.0)
  }

  /** The constant vector under which forces x leave residual r. */
  function Balancing(p: Problem, x: seq<real>, r: seq<real>): (b: seq<real>)
    requires p.Valid() && |x| == |r| == |p.M|
    ensures |b| == |p.b|
  {
    seq(|p.M|, j requires 0 <= j < |p.M| => r[j] - SeqDot(p.M[j], x))
  }

  lemma PressedSolved(p: Problem, k: nat)
    requires p.Valid() && k < |p.mu|
    ensures var x := Pressed(p, k); var q := p.(b := Balancing(p, x, Sliding(p, k)));
      q.Fits(x) && Solved(q, x) && Slides(q, x, k, 1.0)
    ensures var i := p.n + 2 * k; p.mu[k] != 0.0 ==> Pressed(p, k)[i] != 0.0 && Pressed(p, k)[i + 1] != 0.0
  {
    hide Product, SeqDot;
    var i, x, r := p.n + 2 * k, Pressed(p, k), Sliding(p, k);
    var q := p.(b := Balancing(p, x, r));
    assert forall j | 0 <= j < |x| :: Residual(q, x, j) == r[j];
    ThreeFourFive(p.mu[k]);
    ProductUnits(p.mu[k]);
    ProductUnits(Product(q.M[i][i], x[i]));
    ProductUnits(Product(q.M[i + 1][i + 1], x[i + 1]));
    assert Slides(q, x, k, 1.0);
    forall l | 0 <= l < |p.mu| ensures FrictionSolved(q, x, l) {
      ProductUnits(p.mu[l]);
      ProductUnits(0.0);
      SquarePositive(Limit(q, x, l));
    }
    ZeroProduct(0.6, p.mu[k]);
    ZeroProduct(0.8, p.mu[k]);
  }

  lemma ThreeFourFive(m: real)
    ensures Product(Product(0.6, m), Product(0.6, m)) + Product(Product(0.8, m), Product(0.8, m)) == Product(m, m)
  {
    assert 0.6 * m * (0.6 * m) == 0.36 * (m * m);
    assert 0.8 * m * (0.8 * m) == 0.64 * (m * m);
  }

  /** One contact whose two friction rows weigh differently. */
  function UnevenContact(): Problem {
    Problem([[1.0, 0.0, 0.0], [0.0, 1.0, 0.0], [0.0, 0.0, 2.0]], [-1.0, -1.2, -3.2], [1.0], 1)
  }

  /** Its forces pass the error check unchanged, and its friction is not along the residual. */
  lemma SolvedButAskew(sqrt: real -> real)
    requires IsSqrt(sqrt)
    ensures var p, x := UnevenContact(), [1.0, 0.6, 0.8];
      p.Fits(x) && Pass(p, x, false, sqrt) == x && !AlongResidual(p, x, 0)
  {
    hide SeqDot, Residual, Pass, AlongResidual;
    var p, x := UnevenContact(), [1.0, 0.6, 0.8];
    UnevenResiduals();
    assert Limit(p, x, 0) == 1.0;
    assert Slides(p, x, 0, 1.0);
    assert NormalSolved(p, x, 0);
    assert Solved(p, x);
    FixedIffSolved(p, x, sqrt);
    AlongResidualIff(p, x, 0, 1.0);
  }

  lemma UnevenResiduals()
    ensures var p, x := UnevenContact(), [1.0, 0.6, 0.8];
      p.Fits(x) && Residual(p, x, 0) == 0.0 && Residual(p, x, 1) == -0.6 && Residual(p, x, 2) == -1.6
  {
    var x := [1.0, 0.6, 0.8];
    assert x[..2] == [1.0, 0.6] && x[..2][..1] == [1.0];
    forall a: seq<real> | |a| == 3
      ensures SeqDot(a, x) == Product(a[0], 1.0) + Product(a[1], 0.6) + Product(a[2], 0.8)
    {
      assert SeqDot(a[..2][..1], x[..2][..1]) == Product(a[0], 1.0);
      assert SeqDot(a[..2], x[..2]) == Product(a[0], 1.0) + Product(a[1], 0.6);
    }
  }
}
