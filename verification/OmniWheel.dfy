/** Straight motion of a robot whose degrees of freedom are either bounded or rotations that may turn
    forever: interpolation, distance, and how the two fit together. */
module OmniWheel {
  import opened LinearAlgebra
  import opened Roots

  const M_PI: real := 3.14159265358979323846
  const TURN: real := 2.0 * M_PI

  type Configuration = seq<real>

  /** The settings shared by all configurations: which degrees of freedom turn without bound, and
      how much each weighs in the distance. */
  datatype Space = Space(unboundedRotation: seq<bool>, weight: seq<real>) {
    predicate Valid() { |unboundedRotation| == |weight| }
    predicate Has(c: Configuration) { Valid() && |c| == |weight| }
    predicate Bounded() { forall i | 0 <= i < |unboundedRotation| :: !unboundedRotation[i] }
  }

  // ---- angles ----

  /** The angle in [0, TURN) that differs from theta by full turns. */
  function Limited(theta: real): (r: real)
    ensures 0.0 <= r < TURN
    ensures theta == r + TURN * ((theta / TURN).Floor as real)
  {
    theta - TURN * ((theta / TURN).Floor as real)
  }

  lemma LimitedUnique(theta: real, r: real, k: int)
    requires 0.0 <= r < TURN && theta == r + TURN * (k as real)
    ensures Limited(theta) == r
  {
    var q := theta / TURN;
    var turns := k as real;
    assert q == r / TURN + turns;
    assert 0.0 <= r / TURN < 1.0;
    WholePart(q, k);
  }

  lemma WholePart(q: real, k: int)
    requires k as real <= q < k as real + 1.0
    ensures q.Floor == k
  {}

  method ThetaLimit(theta0: real) returns (theta: real)
    ensures theta == Limited(theta0)
  {
    theta := theta0;
    ghost var k := 0;
    while theta >= TURN
      invariant theta0 == theta + TURN * (k as real)
      invariant theta0 >= 0.0 ==> theta >= 0.0
      invariant theta0 < 0.0 ==> theta == theta0
      decreases theta
    {
      theta := theta - TURN;
      k := k + 1;
    }
    while theta < 0.0
      invariant theta0 == theta + TURN * (k as real)
      invariant theta < TURN
      decreases -theta
    {
      theta := theta + TURN;
      k := k - 1;
    }
    LimitedUnique(theta0, theta, k);
  }

  /** The shortest rotation from angle a to angle b, in (-M_PI, M_PI]. */
  function Swing(a: real, b: real): (s: real)
    ensures -M_PI < s <= M_PI
  {
    var d := Limited(b - a);
    if d > M_PI then d - TURN else d
  }

  lemma SwingUnique(a: real, b: real, s: real, k: int)
    requires -M_PI < s <= M_PI && b - a == s + TURN * (k as real)
    ensures Swing(a, b) == s
  {
    if s >= 0.0 {
      LimitedUnique(b - a, s, k);
    } else {
      LimitedUnique(b - a, s + TURN, k - 1);
    }
  }

  /** The number of full turns that the shortest rotation saves. */
  function Turns(a: real, b: real): (k: int)
    ensures b - a == Swing(a, b) + TURN * (k as real)
  {
    var k := ((b - a) / TURN).Floor;
    if Limited(b - a) > M_PI then k + 1 else k
  }

  function Gap(a: real, b: real): (g: real)
    ensures 0.0 <= g <= M_PI
    ensures g == if Swing(a, b) < 0.0 then -Swing(a, b) else Swing(a, b)
  {
    var d := Limited(b - a);
    if d > M_PI then TURN - d else d
  }

  /** Rotations either way cover the same gap; half a turn alone is its own opposite. */
  lemma SwingBack(a: real, b: real)
    ensures Gap(b, a) == Gap(a, b)
    ensures Swing(b, a) == if Swing(a, b) == M_PI then M_PI else -Swing(a, b)
  {
    var s, k := Swing(a, b), Turns(a, b);
    if s == M_PI {
      SwingUnique(b, a, M_PI, -k - 1);
    } else {
      SwingUnique(b, a, -s, -k);
    }
  }

  /** Angles that differ by d, up to full turns, are |d| apart when that is no more than half a turn. */
  lemma GapOf(a: real, b: real, d: real, k: int)
    requires -M_PI <= d <= M_PI && b - a == d + TURN * (k as real)
    ensures Gap(a, b) == if d < 0.0 then -d else d
  {
    if d == -M_PI {
      SwingUnique(a, b, M_PI, k - 1);
    } else {
      SwingUnique(a, b, d, k);
    }
  }

  // ---- interpolation and distance ----

  function Between(unbounded: bool, a: real, b: real, ratio: real): real {
    if unbounded then a + Product(ratio, Swing(a, b)) else Product(1.0 - ratio, a) + Product(ratio, b)
  }

  function Interpolate(s: Space, from: Configuration, to: Configuration, ratio: real): (c: Configuration)
    requires s.Has(from) && s.Has(to)
    ensures s.Has(c)
    ensures forall i | 0 <= i < |c| :: c[i] == Between(s.unboundedRotation[i], from[i], to[i], ratio)
  {
    seq(|from|, i requires 0 <= i < |from| => Between(s.unboundedRotation[i], from[i], to[i], ratio))
  }

  method InterpolateConfiguration(s: Space, from: Configuration, to: Configuration, ratio: real)
    returns (cfg: Configuration)
    requires s.Has(from) && s.Has(to)
    ensures cfg == Interpolate(s, from, to, ratio)
  {
    hide Product, Swing, Limited;
    cfg := seq(|from|, i => 0.0);
    for i := 0 to |from|
      invariant |cfg| == |from|
      invariant forall k | 0 <= k < i :: cfg[k] == Between(s.unboundedRotation[k], from[k], to[k], ratio)
    {
      if s.unboundedRotation[i] {
        var dth := ThetaLimit(to[i] - from[i]);
        if dth > M_PI {
          dth := dth - 2.0 * M_PI;
        }
        SwingOf(from[i], to[i], dth);
        cfg := cfg[i := from[i] + Product(ratio, dth)];
      } else {
        cfg := cfg[i := Product(1.0 - ratio, from[i]) + Product(ratio, to[i])];
      }
    }
  }

  lemma SwingOf(a: real, b: real, d: real)
    requires var t := Limited(b - a); d == if t > M_PI then t - 2.0 * M_PI else t
    ensures d == Swing(a, b)
  {}

  function Apart(s: Space, i: nat, a: Configuration, b: Configuration): real
    requires s.Has(a) && s.Has(b) && i < |a|
  {
    Product(s.weight[i], if s.unboundedRotation[i] then Gap(a[i], b[i]) else b[i] - a[i])
  }

  /** The square of the distance over the first n degrees of freedom. */
  function DistanceSquare(s: Space, a: Configuration, b: Configuration, n: nat): (v: real)
    requires s.Has(a) && s.Has(b) && n <= |a|
    ensures v >= 0.0
  {
    if n == 0 then 0.0
    else
      var d := Apart(s, n - 1, a, b);
      ProductSquare(d);
      DistanceSquare(s, a, b, n - 1) + Product(d, d)
  }

  function Distance(s: Space, a: Configuration, b: Configuration, sqrt: real -> real): real
    requires s.Has(a) && s.Has(b)
  {
    sqrt(DistanceSquare(s, a, b, |a|))
  }

  method DistanceOf(s: Space, from: Configuration, to: Configuration, sqrt: real -> real) returns (d: real)
    requires s.Has(from) && s.Has(to)
    ensures d == Distance(s, from, to, sqrt)
  {
    hide Product, Gap, Limited;
    var v := 0.0;
    for i := 0 to |from|
      invariant v == DistanceSquare(s, from, to, i)
    {
      var d;
      if s.unboundedRotation[i] {
        var dth := ThetaLimit(to[i] - from[i]);
        if dth > M_PI {
          dth := 2.0 * M_PI - dth;
        }
        GapIs(from[i], to[i], dth);
        d := Product(s.weight[i], dth);
      } else {
        d := Product(s.weight[i], to[i] - from[i]);
      }
      v := v + Product(d, d);
    }
    d := sqrt(v);
  }

  lemma GapIs(a: real, b: real, d: real)
    requires var t := Limited(b - a); d == if t > M_PI then 2.0 * M_PI - t else t
    ensures d == Gap(a, b)
  {}

  // ---- properties ----

  /** Distance is the same both ways, turning joints included. */
  lemma {:induction false} DistanceSymmetric(s: Space, a: Configuration, b: Configuration, n: nat)
    requires s.Has(a) && s.Has(b) && n <= |a|
    ensures DistanceSquare(s, a, b, n) == DistanceSquare(s, b, a, n)
  {
    hide Product, Gap;
    if n > 0 {
      DistanceSymmetric(s, a, b, n - 1);
      SwingBack(a[n - 1], b[n - 1]);
      var w, d := s.weight[n - 1], b[n - 1] - a[n - 1];
      ProductNeg(w, d);
      ProductNeg(Product(w, d), Product(w, d));
      ProductNeg(Product(w, d), -Product(w, d));
    }
  }

  /** The same place, up to full turns of the joints that turn without bound. */
  ghost predicate SamePlace(s: Space, a: Configuration, b: Configuration)
    requires s.Has(a) && s.Has(b)
  {
    forall i | 0 <= i < |a| :: if s.unboundedRotation[i] then Swing(a[i], b[i]) == 0.0 else a[i] == b[i]
  }

  /** p and q lie at ratios r <= t of the way from a to b, up to full turns. */
  ghost predicate OnWay(s: Space, a: Configuration, b: Configuration, r: real, c: Configuration)
    requires s.Has(a) && s.Has(b) && s.Has(c)
  {
    SamePlace(s, Interpolate(s, a, b, r), c)
  }

  lemma StartOnWay(s: Space, a: Configuration, b: Configuration)
    requires s.Has(a) && s.Has(b)
    ensures OnWay(s, a, b, 0.0, a)
  {
    hide Product;
    forall i | 0 <= i < |a|
      ensures Between(s.unboundedRotation[i], a[i], b[i], 0.0) == a[i] && Swing(a[i], a[i]) == 0.0
    {
      ProductUnits(Swing(a[i], b[i]));
      ProductUnits(a[i]);
      ProductUnits(b[i]);
      SwingUnique(a[i], a[i], 0.0, 0);
    }
  }

  lemma EndOnWay(s: Space, a: Configuration, b: Configuration)
    requires s.Has(a) && s.Has(b)
    ensures OnWay(s, a, b, 1.0, b)
  {
    hide Product;
    forall i | 0 <= i < |a|
      ensures var c := Between(s.unboundedRotation[i], a[i], b[i], 1.0);
              if s.unboundedRotation[i] then Swing(c, b[i]) == 0.0 else c == b[i]
    {
      ProductUnits(Swing(a[i], b[i]));
      ProductUnits(a[i]);
      ProductUnits(b[i]);
      if s.unboundedRotation[i] {
        SwingUnique(a[i] + Swing(a[i], b[i]), b[i], 0.0, Turns(a[i], b[i]));
      }
    }
  }

  lemma InterpolatedOnWay(s: Space, a: Configuration, b: Configuration, r: real)
    requires s.Has(a) && s.Has(b)
    ensures OnWay(s, a, b, r, Interpolate(s, a, b, r))
  {
    hide Between;
    var c := Interpolate(s, a, b, r);
    forall i | 0 <= i < |c| ensures Swing(c[i], c[i]) == 0.0 {
      SwingUnique(c[i], c[i], 0.0, 0);
    }
  }

  /** One degree of freedom of two configurations on the way from a to b. */
  lemma GapOnWay(a: real, b: real, r: real, t: real, p: real, q: real)
    requires 0.0 <= r <= t <= 1.0
    requires Swing(a + Product(r, Swing(a, b)), p) == 0.0 && Swing(a + Product(t, Swing(a, b)), q) == 0.0
    ensures Gap(p, q) == Product(t - r, Gap(a, b))
  {
    hide Product, Swing, Gap, Turns;
    var s := Swing(a, b);
    var x, y, d := a + Product(r, s), a + Product(t, s), Product(t - r, s);
    var i, j := Turns(x, p), Turns(y, q);
    ProductSub(t, r, s);
    assert y - x == d;
    assert p - x == TURN * (i as real) && q - y == TURN * (j as real);
    assert q - p == d + TURN * ((j - i) as real);
    ProductNeg(t - r, s);
    GapIsSwing(a, b);
    UnitScales(t - r, Gap(a, b));
    GapOf(p, q, d, j - i);
  }

  lemma GapIsSwing(a: real, b: real)
    ensures 0.0 <= Gap(a, b) <= M_PI && Gap(a, b) == if Swing(a, b) < 0.0 then -Swing(a, b) else Swing(a, b)
  {}

  lemma UnitScales(u: real, g: real)
    requires 0.0 <= u <= 1.0 && g >= 0.0
    ensures 0.0 <= Product(u, g) <= g
  {
    hide Product;
    ProductSign(u, g);
    ProductSign(1.0 - u, g);
    ProductSub(1.0, u, g);
    ProductUnits(g);
  }

  lemma ApartOnWay(s: Space, a: Configuration, b: Configuration, r: real, t: real, p: Configuration, q: Configuration,
                   i: nat)
    requires s.Has(a) && s.Has(b) && s.Has(p) && s.Has(q) && i < |a| && 0.0 <= r <= t <= 1.0
    requires OnWay(s, a, b, r, p) && OnWay(s, a, b, t, q)
    ensures Apart(s, i, p, q) == Product(t - r, Apart(s, i, a, b))
  {
    hide Product, Swing, Gap;
    var w := s.weight[i];
    if s.unboundedRotation[i] {
      GapOnWay(a[i], b[i], r, t, p[i], q[i]);
      ProductSwap(w, t - r, Gap(a[i], b[i]));
    } else {
      var x, y := a[i], b[i];
      ProductSub(1.0, t, x);
      ProductSub(1.0, r, x);
      ProductSub(t, r, x);
      ProductSub(t, r, y);
      ProductSub(t - r, y, x);
      assert q[i] - p[i] == Product(t - r, y - x);
      ProductSwap(w, t - r, y - x);
    }
  }

  lemma {:induction false} SquareOnWay(s: Space, a: Configuration, b: Configuration, r: real, t: real, p: Configuration,
                                       q: Configuration, n: nat)
    requires s.Has(a) && s.Has(b) && s.Has(p) && s.Has(q) && n <= |a| && 0.0 <= r <= t <= 1.0
    requires OnWay(s, a, b, r, p) && OnWay(s, a, b, t, q)
    ensures DistanceSquare(s, p, q, n) == Product(Product(t - r, t - r), DistanceSquare(s, a, b, n))
  {
    hide Product, Apart, OnWay;
    var u := t - r;
    if n == 0 {
      ProductUnits(Product(u, u));
    } else {
      SquareOnWay(s, a, b, r, t, p, q, n - 1);
      ApartOnWay(s, a, b, r, t, p, q, n - 1);
      var d := Apart(s, n - 1, a, b);
      SquareOfProduct(u, d);
      ProductAdd(Product(u, u), DistanceSquare(s, a, b, n - 1), Product(d, d));
    }
  }

  /** Distance along the way is proportional to the ratio covered, also across a full turn. */
  lemma DistanceOnWay(s: Space, a: Configuration, b: Configuration, r: real, t: real, p: Configuration,
                      q: Configuration, sqrt: real -> real)
    requires s.Has(a) && s.Has(b) && s.Has(p) && s.Has(q) && 0.0 <= r <= t <= 1.0 && IsSqrt(sqrt)
    requires OnWay(s, a, b, r, p) && OnWay(s, a, b, t, q)
    ensures Distance(s, p, q, sqrt) == Product(t - r, Distance(s, a, b, sqrt))
  {
    hide Product, DistanceSquare, OnWay;
    SquareOnWay(s, a, b, r, t, p, q, |a|);
    var d := Distance(s, a, b, sqrt);
    SquareOfProduct(t - r, d);
    ProductSign(t - r, d);
    ProductSquare(Product(t - r, d));
    RootUnique(Distance(s, p, q, sqrt), Product(t - r, d));
  }

  // ---- what the distance is ----

  /** How far a degree of freedom is from one configuration to another: the shorter way round, if it turns without
      bound. */
  ghost function HowFar(s: Space, i: nat, a: Configuration, b: Configuration): real
    requires s.Has(a) && s.Has(b) && i < |a|
  {
    var d := if s.unboundedRotation[i] then Swing(a[i], b[i]) else b[i] - a[i];
    if d < 0.0 then -d else d
  }

  lemma {:induction false} DistanceOneAxis(s: Space, a: Configuration, b: Configuration, i: nat, n: nat)
    requires s.Has(a) && s.Has(b) && i < |a| && n <= |a|
    requires forall j | 0 <= j < |a| && j != i :: a[j] == b[j]
    ensures var d := Product(s.weight[i], HowFar(s, i, a, b));
      DistanceSquare(s, a, b, n) == if i < n then Product(d, d) else 0.0
  {
    hide Product, HowFar, Apart;
    if n > 0 {
      DistanceOneAxis(s, a, b, i, n - 1);
      if i == n - 1 {
        SquareOfApart(s, a, b, i);
      } else {
        NotApart(s, a, b, n - 1);
      }
    }
  }

  lemma NotApart(s: Space, a: Configuration, b: Configuration, k: nat)
    requires s.Has(a) && s.Has(b) && k < |a| && a[k] == b[k]
    ensures Product(Apart(s, k, a, b), Apart(s, k, a, b)) == 0.0
  {
    hide Product, Swing;
    SwingUnique(a[k], b[k], 0.0, 0);
    ProductUnits(s.weight[k]);
    ProductUnits(0.0);
  }

  lemma SquareOfApart(s: Space, a: Configuration, b: Configuration, k: nat)
    requires s.Has(a) && s.Has(b) && k < |a|
    ensures var d := Product(s.weight[k], HowFar(s, k, a, b));
      Product(Apart(s, k, a, b), Apart(s, k, a, b)) == Product(d, d)
  {
    hide Product, Swing;
    var w, d := s.weight[k], if s.unboundedRotation[k] then Swing(a[k], b[k]) else b[k] - a[k];
    ProductNeg(w, d);
    ProductNeg(Product(w, d), Product(w, d));
    ProductNeg(Product(w, d), -Product(w, d));
  }

  /** Configurations that differ in one degree of freedom are as far apart as it is, by its weight. */
  lemma DistanceAlongAxis(s: Space, a: Configuration, b: Configuration, i: nat, sqrt: real -> real)
    requires IsSqrt(sqrt) && s.Has(a) && s.Has(b) && i < |a| && s.weight[i] >= 0.0
    requires forall j | 0 <= j < |a| && j != i :: a[j] == b[j]
    ensures Distance(s, a, b, sqrt) == Product(s.weight[i], HowFar(s, i, a, b))
  {
    hide HowFar, DistanceSquare, Product;
    DistanceOneAxis(s, a, b, i, |a|);
    HowFarPositive(s, i, a, b);
    ProductSign(s.weight[i], HowFar(s, i, a, b));
    RootUnique(Distance(s, a, b, sqrt), Product(s.weight[i], HowFar(s, i, a, b)));
  }

  lemma HowFarPositive(s: Space, i: nat, a: Configuration, b: Configuration)
    requires s.Has(a) && s.Has(b) && i < |a|
    ensures HowFar(s, i, a, b) >= 0.0
  {}
}
