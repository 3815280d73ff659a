/** Which spaces let a joint turn by exactly half a turn on a way of several steps, and so make the claim that
    motions are reversible a false one. */
module HalfTurns {
  import opened LinearAlgebra
  import opened Roots
  import opened OmniWheel
  import opened Mobility

  /** The square of the greatest distance that the first n degrees of freedom can cover by turning. */
  function TurningReach(s: Space, n: nat): (v: real)
    requires s.Valid() && n <= |s.weight|
    ensures v >= 0.0
  {
    if n == 0 then 0.0
    else
      var d := if s.unboundedRotation[n - 1] then Product(s.weight[n - 1], M_PI) else 0.0;
      ProductSquare(d);
      TurningReach(s, n - 1) + Product(d, d)
  }

  /** Some bounded degree of freedom counts in the distance. */
  predicate Stretches(s: Space, n: nat)
    requires s.Valid() && n <= |s.weight|
  {
    exists i | 0 <= i < n :: !s.unboundedRotation[i] && s.weight[i] != 0.0
  }

  /** A joint can turn by half a turn while the way is long enough for a sample in between. */
  predicate CanHalfTurn(pl: Planner)
    requires pl.space.Valid()
  {
    var s, n := pl.space, |pl.space.weight|;
    && !s.Bounded()
    && (Stretches(s, n) || TurningReach(s, n) >= Product(pl.interpolationDistance, pl.interpolationDistance))
  }

  /** The distance of no pair exceeds what turning can cover, where nothing else counts. */
  lemma {:induction false} ReachIsGreatest(s: Space, a: Configuration, b: Configuration, n: nat)
    requires s.Has(a) && s.Has(b) && n <= |a| && !Stretches(s, n)
    ensures DistanceSquare(s, a, b, n) <= TurningReach(s, n)
  {
    hide Product, Gap, Swing;
    if n > 0 {
      ReachIsGreatest(s, a, b, n - 1);
      var w := s.weight[n - 1];
      if s.unboundedRotation[n - 1] {
        SquareOfScaled(w, Gap(a[n - 1], b[n - 1]), M_PI);
      } else {
        ProductUnits(b[n - 1] - a[n - 1]);
        ProductUnits(0.0);
      }
    }
  }

  lemma SquareOfScaled(w: real, g: real, h: real)
    requires 0.0 <= g <= h
    ensures Product(Product(w, g), Product(w, g)) <= Product(Product(w, h), Product(w, h))
  {
    var w2 := w * w;
    assert w2 >= 0.0;
    assert g * g <= h * h;
    assert w2 * (g * g) <= w2 * (h * h);
    assert (w * g) * (w * g) == w2 * (g * g);
    assert (w * h) * (w * h) == w2 * (h * h);
  }

  /** Half a turn at every unbounded joint, and at every other one a distance of d if it counts. */
  function Far(s: Space, d: real): (b: Configuration)
    requires s.Valid()
    ensures s.Has(b)
  {
    seq(|s.weight|, i requires 0 <= i < |s.weight| =>
      if s.unboundedRotation[i] then M_PI else if s.weight[i] == 0.0 then 0.0 else d / s.weight[i])
  }

  function Zeros(s: Space): (a: Configuration)
    requires s.Valid()
    ensures s.Has(a)
  {
    seq(|s.weight|, i => 0.0)
  }

  lemma {:induction false} FarIsFar(s: Space, d: real, n: nat)
    requires s.Valid() && n <= |s.weight|
    ensures DistanceSquare(s, Zeros(s), Far(s, d), n) >= TurningReach(s, n)
    ensures Stretches(s, n) ==> DistanceSquare(s, Zeros(s), Far(s, d), n) >= Product(d, d)
  {
    hide Product, Gap, Swing;
    if n > 0 {
      FarIsFar(s, d, n - 1);
      var a, b, w := Zeros(s), Far(s, d), s.weight[n - 1];
      var step := Apart(s, n - 1, a, b);
      ProductSquare(step);
      if s.unboundedRotation[n - 1] {
        SwingUnique(0.0, M_PI, M_PI, 0);
        assert step == Product(w, M_PI);
      } else {
        ProductUnits(0.0);
        if w != 0.0 {
          DivideBack(d, w);
          ProductComm(d / w, w);
          assert step == d;
        }
      }
    }
  }

  /** There is a sample in between exactly when the distance is at least the interpolation distance. */
  lemma StepsMoreIff(pl: Planner, a: Configuration, b: Configuration)
    requires pl.Valid() && pl.Has(a) && pl.Has(b)
    ensures Steps(pl, a, b) != 1
       <==> DistanceSquare(pl.space, a, b, |a|) >= Product(pl.interpolationDistance, pl.interpolationDistance)
  {
    hide DistanceSquare;
    var x, d := pl.Dist(a, b), pl.interpolationDistance;
    assert x >= 0.0 && Product(x, x) == DistanceSquare(pl.space, a, b, |a|);
    FloorBelowOne(x, d);
    SquareAtLeast(x, d);
  }

  lemma FloorBelowOne(x: real, d: real)
    requires x >= 0.0 && d > 0.0
    ensures (x / d).Floor == 0 <==> x < d
  {
    hide Product;
    var q := x / d;
    DivideBack(x, d);
    ProductComm(q, d);
    PositiveFactor(d, q);
    PositiveFactor(d, 1.0 - q);
    ProductSub(d, 1.0, q);
    ProductUnits(d);
  }

  lemma SquareAtLeast(x: real, d: real)
    requires x >= 0.0 && d > 0.0
    ensures Product(x, x) >= Product(d, d) <==> x >= d
  {
    hide Product;
    if x > d {
      SquareExceeds(x, d);
    } else if x < d {
      SquareExceeds(d, x);
    }
  }

  /** Every pair of configurations turns back exactly when the space cannot make a half turn. */
  lemma AllTurnBackIff(pl: Planner)
    requires pl.Valid()
    ensures (forall a, b | pl.Has(a) && pl.Has(b) :: TurnsBack(pl, a, b)) <==> !CanHalfTurn(pl)
  {
    hide Steps, DistanceSquare, TurningReach, Swing, Product;
    var s, n, d := pl.space, |pl.space.weight|, pl.interpolationDistance;
    if CanHalfTurn(pl) {
      var a, b := Zeros(s), Far(s, d);
      var k :| 0 <= k < n && s.unboundedRotation[k];
      FarIsFar(s, d, n);
      StepsMoreIff(pl, a, b);
      SwingUnique(0.0, M_PI, M_PI, 0);
      assert a[k] == 0.0 && b[k] == M_PI;
      assert !TurnsBack(pl, a, b);
    } else {
      forall a, b | pl.Has(a) && pl.Has(b) ensures TurnsBack(pl, a, b) {
        if !s.Bounded() {
          ReachIsGreatest(s, a, b, n);
          StepsMoreIff(pl, a, b);
        }
      }
    }
  }

  /** The claim to be reversible is honest whatever collides exactly when the space cannot make a half turn. */
  lemma HonestSpaceIff(pl: Planner)
    requires pl.Valid() && pl.reversible
    ensures (forall hits: Configuration -> bool | TurnBlind(pl.(collides := hits)) :: Honest(pl.(collides := hits)))
       <==> !CanHalfTurn(pl)
  {
    hide TurnBlind, Honest, TurnsBack, CanHalfTurn;
    HonestIff(pl);
    AllTurnBackIff(pl);
  }
}
