/** The sampled motion between two configurations: how densely it is sampled, and when the motion back
    passes through the same places. */
module Mobility {
  import opened LinearAlgebra
  import opened Roots
  import opened OmniWheel
  import opened PathCheck

  /** What a planner knows: the space, the greatest distance between samples, which configurations
      collide (or cannot be taken), the square root, and whether the way of moving claims that
      motions can be reversed. */
  datatype Planner = Planner(
    space: Space, interpolationDistance: real, collides: Configuration -> bool, sqrt: real -> real, reversible: bool) {

    ghost predicate Valid() { space.Valid() && interpolationDistance > 0.0 && IsSqrt(sqrt) }

    predicate Has(c: Configuration) { space.Has(c) }

    function Dist(a: Configuration, b: Configuration): real
      requires Has(a) && Has(b)
    {
      Distance(space, a, b, sqrt)
    }
  }

  /** The number of steps from a to b. */
  function Steps(pl: Planner, a: Configuration, b: Configuration): (n: int)
    requires pl.Has(a) && pl.Has(b) && pl.interpolationDistance > 0.0
  {
    (pl.Dist(a, b) / pl.interpolationDistance).Floor + 1
  }

  function Sample(pl: Planner, a: Configuration, b: Configuration, i: int, n: int): (c: Configuration)
    requires pl.Has(a) && pl.Has(b) && n != 0
    ensures pl.Has(c)
  {
    Interpolate(pl.space, a, b, (i as real) / (n as real))
  }

  /** The samples of the way from a to b, both ends included. */
  ghost function PathOf(pl: Planner, a: Configuration, b: Configuration): (p: seq<Configuration>)
    requires pl.Valid() && pl.Has(a) && pl.Has(b)
    ensures |p| >= 2 && p[0] == a && p[|p| - 1] == b && forall i | 0 <= i < |p| :: pl.Has(p[i])
  {
    StepsPositive(pl, a, b);
    var n := Steps(pl, a, b);
    [a] + seq(n - 1, i requires 0 <= i < n - 1 => Sample(pl, a, b, i + 1, n)) + [b]
  }

  ghost predicate Reachable(pl: Planner, a: Configuration, b: Configuration)
    requires pl.Valid() && pl.Has(a) && pl.Has(b)
  {
    var p := PathOf(pl, a, b);
    forall i | 0 <= i < |p| :: !pl.collides(p[i])
  }

  /** No smaller number of steps keeps them shorter than the interpolation distance. */
  lemma StepsLeast(pl: Planner, a: Configuration, b: Configuration, n: nat)
    requires pl.Valid() && pl.Has(a) && pl.Has(b) && n > 0
    ensures pl.Dist(a, b) / (n as real) < pl.interpolationDistance <==> Steps(pl, a, b) <= n
  {
    hide Product, Distance;
    var d, e, m := pl.Dist(a, b), pl.interpolationDistance, n as real;
    QuotientsCompare(d, e, m);
    assert (d / e).Floor + 1 <= n <==> d / e < m;
  }

  lemma QuotientsCompare(d: real, e: real, m: real)
    requires e > 0.0 && m > 0.0
    ensures d / m < e <==> d / e < m
  {
    hide Product;
    DivideBack(d, m);
    DivideBack(d, e);
    ProductSub(e, d / m, m);
    ProductComm(e, m);
    ProductSub(m, d / e, e);
    SignOf(e - d / m, m);
    SignOf(m - d / e, e);
  }

  lemma SignOf(a: real, k: real)
    requires k > 0.0
    ensures Product(a, k) > 0.0 <==> a > 0.0
  {}

  lemma StepsPositive(pl: Planner, a: Configuration, b: Configuration)
    requires pl.Valid() && pl.Has(a) && pl.Has(b)
    ensures var n := Steps(pl, a, b);
      n >= 1 && pl.Dist(a, b) / pl.interpolationDistance < n as real
  {
    hide Product;
    assert pl.Dist(a, b) >= 0.0;
    Quotient0(pl.Dist(a, b), pl.interpolationDistance);
  }

  lemma Quotient0(a: real, b: real)
    requires a >= 0.0 && b > 0.0
    ensures a / b >= 0.0
  {}

  method GetPath(pl: Planner, from: Configuration, to: Configuration) returns (ok: bool, path: seq<Configuration>)
    requires pl.Valid() && pl.Has(from) && pl.Has(to)
    ensures ok && path == PathOf(pl, from, to)
  {
    hide Steps, Interpolate;
    StepsPositive(pl, from, to);
    path := [from];
    var n := Steps(pl, from, to);
    var i := 1;
    while i < n
      invariant 1 <= i <= n && |path| == i && path[0] == from
      invariant forall k | 1 <= k < i :: path[k] == Sample(pl, from, to, k, n)
    {
      var pos := InterpolateConfiguration(pl.space, from, to, (i as real) / (n as real));
      path := path + [pos];
      i := i + 1;
    }
    path := path + [to];
    ok := true;
    assert path[0] == from && path[n] == to;
    assert path == PathOf(pl, from, to);
  }

  method IsReachable(pl: Planner, from: Configuration, to: Configuration, checkCollision: bool) returns (ok: bool)
    requires pl.Valid() && pl.Has(from) && pl.Has(to)
    ensures ok <==> (checkCollision ==> Reachable(pl, from, to))
  {
    var found, path := GetPath(pl, from, to);
    if !found {
      return false;
    }
    if checkCollision {
      var hit, _ := CheckCollision(path, pl.collides);
      ok := !hit;
    } else {
      ok := true;
    }
  }

  // ---- the samples are close ----

  /** Sample i of the path lies at ratio i / n, ends included. */
  lemma SampleOnWay(pl: Planner, a: Configuration, b: Configuration, i: nat)
    requires pl.Valid() && pl.Has(a) && pl.Has(b) && i < |PathOf(pl, a, b)|
    ensures Steps(pl, a, b) >= 1 && |PathOf(pl, a, b)| == Steps(pl, a, b) + 1
    ensures OnWay(pl.space, a, b, (i as real) / (Steps(pl, a, b) as real), PathOf(pl, a, b)[i])
  {
    hide Steps, Interpolate, OnWay;
    StepsPositive(pl, a, b);
    var n := Steps(pl, a, b);
    if i == 0 {
      StartOnWay(pl.space, a, b);
    } else if i == n {
      EndOnWay(pl.space, a, b);
      assert (i as real) / (n as real) == 1.0;
    } else {
      InterpolatedOnWay(pl.space, a, b, (i as real) / (n as real));
    }
  }

  /** Adjacent samples are closer than the interpolation distance. */
  lemma SamplesClose(pl: Planner, a: Configuration, b: Configuration, i: nat)
    requires pl.Valid() && pl.Has(a) && pl.Has(b) && i + 1 < |PathOf(pl, a, b)|
    ensures pl.Dist(PathOf(pl, a, b)[i], PathOf(pl, a, b)[i + 1]) < pl.interpolationDistance
  {
    hide Steps, Interpolate, OnWay, PathOf, Distance, Product;
    SampleOnWay(pl, a, b, i);
    SampleOnWay(pl, a, b, i + 1);
    StepsPositive(pl, a, b);
    var n := Steps(pl, a, b);
    var r, t := (i as real) / (n as real), ((i + 1) as real) / (n as real);
    Ratios(i, n);
    DistanceOnWay(pl.space, a, b, r, t, PathOf(pl, a, b)[i], PathOf(pl, a, b)[i + 1], pl.sqrt);
    FractionBelow(pl.Dist(a, b), pl.interpolationDistance, n as real);
  }

  lemma Ratios(i: int, n: int)
    requires 0 <= i < n
    ensures 0.0 <= (i as real) / (n as real) <= ((i + 1) as real) / (n as real) <= 1.0
    ensures ((i + 1) as real) / (n as real) - (i as real) / (n as real) == 1.0 / (n as real)
  {}

  lemma FractionBelow(d: real, e: real, n: real)
    requires e > 0.0 && n > 0.0 && d / e < n
    ensures Product(1.0 / n, d) < e
  {
    DivideBack(d, e);
    var q := d / e;
    assert Product(n - q, e) > 0.0 by { PositiveFactor(e, n - q); ProductComm(e, n - q); }
    ProductSub(n, q, e);
    DivideBack(1.0, n);
    PositiveFactor(1.0 / n, Product(n, e) - d);
    ProductSub(1.0 / n, Product(n, e), d);
    ProductAssoc(1.0 / n, n, e);
  }

  // ---- the way back ----

  /** Nothing turns, or nothing turns by exactly half a turn, or the two ends are the only samples. */
  predicate TurnsBack(pl: Planner, a: Configuration, b: Configuration)
    requires pl.Has(a) && pl.Has(b) && pl.interpolationDistance > 0.0
  {
    Steps(pl, a, b) == 1 || forall i | 0 <= i < |a| :: pl.space.unboundedRotation[i] ==> Swing(a[i], b[i]) != M_PI
  }

  /** The path back passes through the same places, in the opposite order. */
  ghost predicate Reverses(pl: Planner, a: Configuration, b: Configuration)
    requires pl.Valid() && pl.Has(a) && pl.Has(b)
  {
    var p, q := PathOf(pl, a, b), PathOf(pl, b, a);
    |p| == |q| && forall i | 0 <= i < |p| :: SamePlace(pl.space, p[i], q[|p| - 1 - i])
  }

  lemma StepsBack(pl: Planner, a: Configuration, b: Configuration)
    requires pl.Valid() && pl.Has(a) && pl.Has(b)
    ensures Steps(pl, a, b) == Steps(pl, b, a)
  {
    DistanceSymmetric(pl.space, a, b, |a|);
  }

  lemma TurnsBackIff(pl: Planner, a: Configuration, b: Configuration)
    requires pl.Valid() && pl.Has(a) && pl.Has(b)
    ensures Reverses(pl, a, b) <==> TurnsBack(pl, a, b)
  {
    hide Interpolate, Distance, Product, Swing;
    StepsPositive(pl, a, b);
    StepsBack(pl, a, b);
    var n, p, q := Steps(pl, a, b), PathOf(pl, a, b), PathOf(pl, b, a);
    if TurnsBack(pl, a, b) {
      forall i | 0 <= i < |p| ensures SamePlace(pl.space, p[i], q[|p| - 1 - i]) {
        if i == 0 {
          ItselfSame(pl.space, a);
        } else if i == n {
          ItselfSame(pl.space, b);
        } else {
          assert p[i] == Sample(pl, a, b, i, n) && q[n - i] == Sample(pl, b, a, n - i, n);
          SampleBack(pl, a, b, i, n);
        }
      }
    } else {
      var k :| 0 <= k < |a| && pl.space.unboundedRotation[k] && Swing(a[k], b[k]) == M_PI;
      assert p[1] == Sample(pl, a, b, 1, n) && q[n - 1] == Sample(pl, b, a, n - 1, n);
      HalfTurnMisses(a[k], b[k], n);
      assert !SamePlace(pl.space, p[1], q[|p| - 1 - 1]);
    }
  }

  lemma ItselfSame(s: Space, a: Configuration)
    requires s.Has(a)
    ensures SamePlace(s, a, a)
  {
    hide Swing;
    forall i | 0 <= i < |a| ensures Swing(a[i], a[i]) == 0.0 {
      SwingUnique(a[i], a[i], 0.0, 0);
    }
  }

  /** One degree of freedom at ratio r there and at ratio 1 - r back. */
  lemma BetweenBack(unbounded: bool, a: real, b: real, r: real)
    requires unbounded ==> Swing(a, b) != M_PI
    ensures var x, y := Between(unbounded, a, b, r), Between(unbounded, b, a, 1.0 - r);
            if unbounded then Swing(x, y) == 0.0 else x == y
  {
    hide Swing, Product;
    if unbounded {
      SwingBack(a, b);
      var s := Swing(a, b);
      ProductSub(1.0, r, -s);
      ProductNeg(r, s);
      ProductUnits(-s);
      SwingUnique(a + Product(r, s), b + Product(1.0 - r, -s), 0.0, Turns(a, b));
    }
  }

  lemma RestOfRatio(i: int, n: int)
    requires n > 0
    ensures ((n - i) as real) / (n as real) == 1.0 - (i as real) / (n as real)
  {
    hide Product;
    var x, m := i as real, n as real;
    DivideBack(m - x, m);
    DivideBack(x, m);
    ProductSub(1.0, x / m, m);
    ProductUnits(m);
    CancelRight((m - x) / m, 1.0 - x / m, m);
  }

  lemma SampleBack(pl: Planner, a: Configuration, b: Configuration, i: int, n: int)
    requires pl.Valid() && pl.Has(a) && pl.Has(b) && 0 < i < n
    requires forall k | 0 <= k < |a| :: pl.space.unboundedRotation[k] ==> Swing(a[k], b[k]) != M_PI
    ensures SamePlace(pl.space, Sample(pl, a, b, i, n), Sample(pl, b, a, n - i, n))
  {
    hide Swing, Between;
    var r := (i as real) / (n as real);
    RestOfRatio(i, n);
    forall k | 0 <= k < |a|
      ensures var x, y := Sample(pl, a, b, i, n)[k], Sample(pl, b, a, n - i, n)[k];
              if pl.space.unboundedRotation[k] then Swing(x, y) == 0.0 else x == y
    {
      BetweenBack(pl.space.unboundedRotation[k], a[k], b[k], r);
    }
  }

  /** A joint exactly half a turn away goes there and back through different angles. */
  lemma HalfTurnMisses(a: real, b: real, n: int)
    requires Swing(a, b) == M_PI && n >= 2
    ensures Swing(Between(true, a, b, (1 as real) / (n as real)),
                  Between(true, b, a, ((n - 1) as real) / (n as real))) != 0.0
  {
    hide Swing, Product;
    SwingBack(a, b);
    var r, k := (1 as real) / (n as real), Turns(a, b);
    RestOfRatio(1, n);
    assert 0.0 < r <= 0.5;
    ProductSub(1.0, r, M_PI);
    ProductUnits(M_PI);
    var d := Product(r, M_PI);
    assert 0.0 < d <= M_PI / 2.0 by { ShareOfHalfTurn(1, n); }
    SwingUnique(a + d, b + Product(1.0 - r, M_PI), if d == M_PI / 2.0 then M_PI else -2.0 * d,
                if d == M_PI / 2.0 then k else k + 1);
  }

  lemma HalfOf(a: real)
    ensures Product(a, 0.5) == a / 2.0
  {}

  // ---- reachability both ways ----

  /** Collisions do not tell configurations apart that differ by full turns only. */
  ghost predicate TurnBlind(pl: Planner) {
    forall a, b | pl.Has(a) && pl.Has(b) && SamePlace(pl.space, a, b) :: pl.collides(a) == pl.collides(b)
  }

  /** A motion that turns back can be made both ways or not at all. */
  lemma ReachableBothWays(pl: Planner, a: Configuration, b: Configuration)
    requires pl.Valid() && pl.Has(a) && pl.Has(b) && TurnBlind(pl) && TurnsBack(pl, a, b)
    ensures Reachable(pl, a, b) <==> Reachable(pl, b, a)
  {
    hide Steps, PathOf, SamePlace, TurnsBack;
    TurnsBackIff(pl, a, b);
    var p, q := PathOf(pl, a, b), PathOf(pl, b, a);
    if Reachable(pl, a, b) {
      forall i | 0 <= i < |q| ensures !pl.collides(q[i]) {
        assert SamePlace(pl.space, p[|p| - 1 - i], q[|p| - 1 - (|p| - 1 - i)]);
      }
    } else {
      var i :| 0 <= i < |p| && pl.collides(p[i]);
      assert SamePlace(pl.space, p[i], q[|p| - 1 - i]);
    }
  }

  // ---- exactly when ----

  /** Whatever collides, as long as full turns do not matter, a can be reached from b just when b can from a. */
  ghost predicate BothWays(pl: Planner, a: Configuration, b: Configuration)
    requires pl.Valid() && pl.Has(a) && pl.Has(b)
  {
    forall hits: Configuration -> bool | TurnBlind(pl.(collides := hits)) ::
      Reachable(pl.(collides := hits), a, b) <==> Reachable(pl.(collides := hits), b, a)
  }

  /** Reachability both ways holds of exactly those pairs between which nothing turns by half a turn, or
      that are the only samples of the way between them. */
  lemma BothWaysIff(pl: Planner, a: Configuration, b: Configuration)
    requires pl.Valid() && pl.Has(a) && pl.Has(b)
    ensures BothWays(pl, a, b) <==> TurnsBack(pl, a, b)
  {
    hide Steps, PathOf, SamePlace, TurnBlind, Reachable;
    if TurnsBack(pl, a, b) {
      forall hits: Configuration -> bool | TurnBlind(pl.(collides := hits))
        ensures Reachable(pl.(collides := hits), a, b) <==> Reachable(pl.(collides := hits), b, a)
      {
        StepsAlike(pl, hits, a, b);
        ReachableBothWays(pl.(collides := hits), a, b);
      }
    } else {
      var hits := AroundFirstStep(pl, b, a);
      OneWayOnly(pl, a, b);
      assert TurnBlind(pl.(collides := hits));
    }
  }

  lemma StepsAlike(pl: Planner, hits: Configuration -> bool, a: Configuration, b: Configuration)
    requires pl.Valid() && pl.Has(a) && pl.Has(b)
    ensures Steps(pl.(collides := hits), a, b) == Steps(pl, a, b)
    ensures PathOf(pl.(collides := hits), a, b) == PathOf(pl, a, b)
  {
    hide Interpolate, Distance;
    StepsPositive(pl, a, b);
    StepsPositive(pl.(collides := hits), a, b);
    var p, q := PathOf(pl.(collides := hits), a, b), PathOf(pl, a, b);
    forall i | 0 <= i < |q| ensures p[i] == q[i] {}
  }

  /** An obstacle just where the first step from a to b leads. */
  ghost function AroundFirstStep(pl: Planner, a: Configuration, b: Configuration): Configuration -> bool
    requires pl.Valid() && pl.Has(a) && pl.Has(b)
  {
    c => pl.Has(c) && SamePlace(pl.space, c, PathOf(pl, a, b)[1])
  }

  lemma OneWayOnly(pl: Planner, a: Configuration, b: Configuration)
    requires pl.Valid() && pl.Has(a) && pl.Has(b) && !TurnsBack(pl, a, b)
    ensures var p := pl.(collides := AroundFirstStep(pl, b, a));
      p.Valid() && TurnBlind(p) && Reachable(p, a, b) && !Reachable(p, b, a)
  {
    hide Steps, PathOf, SamePlace;
    var p, c := pl.(collides := AroundFirstStep(pl, b, a)), PathOf(pl, b, a)[1];
    StepsAlike(pl, p.collides, a, b);
    StepsAlike(pl, p.collides, b, a);
    ItselfSame(pl.space, c);
    forall x, y | pl.Has(x) && pl.Has(y) && SamePlace(pl.space, x, y) ensures p.collides(x) == p.collides(y) {
      SamePlaceOfSame(pl.space, x, y, c);
    }
    forall i | 0 <= i < |PathOf(pl, a, b)| ensures !p.collides(PathOf(pl, a, b)[i]) {
      FirstStepBackMissed(pl, a, b, i);
    }
  }

  lemma SamePlaceOfSame(s: Space, x: Configuration, y: Configuration, c: Configuration)
    requires s.Has(x) && s.Has(y) && s.Has(c) && SamePlace(s, x, y)
    ensures SamePlace(s, x, c) <==> SamePlace(s, y, c)
  {
    hide Swing;
    forall i | 0 <= i < |x| && s.unboundedRotation[i] ensures Swing(x[i], c[i]) == Swing(y[i], c[i]) {
      SwingUnique(x[i], c[i], Swing(y[i], c[i]), Turns(x[i], y[i]) + Turns(y[i], c[i]));
    }
  }

  /** The way there never comes to the place of the first sample of a way back that is half a turn long. */
  lemma FirstStepBackMissed(pl: Planner, a: Configuration, b: Configuration, i: nat)
    requires pl.Valid() && pl.Has(a) && pl.Has(b) && !TurnsBack(pl, a, b) && i < |PathOf(pl, a, b)|
    ensures !SamePlace(pl.space, PathOf(pl, a, b)[i], PathOf(pl, b, a)[1])
  {
    hide Interpolate, Distance, Product, Swing, Between;
    StepsPositive(pl, a, b);
    StepsBack(pl, a, b);
    var n, p, q := Steps(pl, a, b), PathOf(pl, a, b), PathOf(pl, b, a);
    var k :| 0 <= k < |a| && pl.space.unboundedRotation[k] && Swing(a[k], b[k]) == M_PI;
    var x := if i == 0 then 0.0 else if i == n then M_PI else Product((i as real) / (n as real), M_PI);
    var turns := if i == n then Turns(a[k], b[k]) else 0;
    assert p[i][k] == a[k] + x + TURN * (turns as real) by { SampleTurned(pl, a, b, i, n, k); }
    SwingBack(a[k], b[k]);
    assert q[1] == Sample(pl, b, a, 1, n);
    FirstStepOff(a[k], b[k], p[i][k], x, i, n, turns);
  }

  lemma SampleTurned(pl: Planner, a: Configuration, b: Configuration, i: nat, n: int, k: nat)
    requires pl.Valid() && pl.Has(a) && pl.Has(b) && n == Steps(pl, a, b) >= 2 && i <= n && k < |a|
    requires pl.space.unboundedRotation[k] && Swing(a[k], b[k]) == M_PI
    ensures |PathOf(pl, a, b)| == n + 1
    ensures var x := if i == 0 then 0.0 else if i == n then M_PI else Product((i as real) / (n as real), M_PI);
      PathOf(pl, a, b)[i][k] == a[k] + x + TURN * ((if i == n then Turns(a[k], b[k]) else 0) as real)
  {
    hide Interpolate, Distance, Product, Swing;
    var p := PathOf(pl, a, b);
    if 0 < i < n {
      assert p[i] == Sample(pl, a, b, i, n);
    }
  }

  lemma FirstStepOff(a: real, b: real, there: real, x: real, i: nat, n: int, turns: int)
    requires n >= 2 && i <= n && Swing(a, b) == M_PI && there == a + x + TURN * (turns as real)
    requires x == if i == 0 then 0.0 else if i == n then M_PI else Product((i as real) / (n as real), M_PI)
    ensures Swing(there, Between(true, b, a, (1 as real) / (n as real))) != 0.0
  {
    hide Swing, Product;
    SwingBack(a, b);
    var r := (1 as real) / (n as real);
    var y := Between(true, b, a, r);
    ShareOfHalfTurn(i, n);
    var d := M_PI + Product(r, M_PI) - x;
    assert 0.0 < d < TURN;
    if d <= M_PI {
      SwingUnique(there, y, d, Turns(a, b) - turns);
    } else {
      SwingUnique(there, y, d - TURN, Turns(a, b) - turns + 1);
    }
  }

  lemma ShareOfHalfTurn(i: nat, n: int)
    requires n >= 2 && i <= n
    ensures 0.0 <= Product((i as real) / (n as real), M_PI) <= M_PI
    ensures 0.0 < Product((1 as real) / (n as real), M_PI) <= M_PI / 2.0
  {
    hide Product;
    var r, t := (1 as real) / (n as real), (i as real) / (n as real);
    assert 0.0 < r <= 0.5 && 0.0 <= t <= 1.0;
    PositiveFactor(M_PI, r);
    PositiveFactor(M_PI, t);
    PositiveFactor(M_PI, 0.5 - r);
    PositiveFactor(M_PI, 1.0 - t);
    ProductSub(M_PI, 0.5, r);
    ProductSub(M_PI, 1.0, t);
    ProductComm(M_PI, r);
    ProductComm(M_PI, t);
    ProductUnits(M_PI);
    HalfOf(M_PI);
  }

  /** What a roadmap relies on when it adds the way back unchecked. */
  ghost predicate Honest(pl: Planner) {
    pl.Valid() && (pl.reversible ==>
      forall a, b | pl.Has(a) && pl.Has(b) :: Reachable(pl, a, b) ==> Reachable(pl, b, a))
  }

  /** What a roadmap takes for a motion from a to b: one that was checked, or one back that was checked
      where motions are claimed to be reversible. */
  ghost predicate Claimed(pl: Planner, a: Configuration, b: Configuration)
    requires pl.Valid() && pl.Has(a) && pl.Has(b)
  {
    Reachable(pl, a, b) || (pl.reversible && Reachable(pl, b, a))
  }

  /** With bounded degrees of freedom only, the claim to be reversible is honest. */
  lemma BoundedIsHonest(pl: Planner)
    requires pl.Valid() && pl.space.Bounded()
    ensures Honest(pl)
  {
    hide Steps, PathOf, Reachable;
    forall a, b | pl.Has(a) && pl.Has(b) && SamePlace(pl.space, a, b) ensures a == b {}
    forall a, b | pl.Has(a) && pl.Has(b) ensures Reachable(pl, a, b) ==> Reachable(pl, b, a) {
      ReachableBothWays(pl, a, b);
    }
  }

  /** The claim is honest whatever collides exactly when every pair of configurations turns back. */
  lemma HonestIff(pl: Planner)
    requires pl.Valid() && pl.reversible
    ensures (forall hits: Configuration -> bool | TurnBlind(pl.(collides := hits)) :: Honest(pl.(collides := hits)))
       <==> forall a, b | pl.Has(a) && pl.Has(b) :: TurnsBack(pl, a, b)
  {
    hide Steps, PathOf, SamePlace, TurnBlind, Reachable, TurnsBack;
    if forall a, b | pl.Has(a) && pl.Has(b) :: TurnsBack(pl, a, b) {
      forall hits: Configuration -> bool | TurnBlind(pl.(collides := hits)) ensures Honest(pl.(collides := hits)) {
        forall a, b | pl.Has(a) && pl.Has(b)
          ensures Reachable(pl.(collides := hits), a, b) ==> Reachable(pl.(collides := hits), b, a)
        {
          BothWaysIff(pl, a, b);
        }
      }
    } else {
      var a, b :| pl.Has(a) && pl.Has(b) && !TurnsBack(pl, a, b);
      OneWayOnly(pl, a, b);
      var hits := AroundFirstStep(pl, b, a);
      assert !Honest(pl.(collides := hits));
    }
  }

  /** Half a circle with an obstacle on its far side. */
  function HalfCircle(sqrt: real -> real): Planner {
    Planner(Space([true], [1.0]), 2.0, c => |c| == 1 && Swing(c[0], 1.5 * M_PI) == 0.0, sqrt, true)
  }

  /** With a joint that turns without bound the claim can be false, even where full turns do not
      matter: half a turn there misses the obstacle that half a turn back meets. */
  lemma UnboundedMayBeDishonest(sqrt: real -> real)
    requires IsSqrt(sqrt)
    ensures HalfCircle(sqrt).Valid() && !Honest(HalfCircle(sqrt))
    ensures Reachable(HalfCircle(sqrt), [0.0], [M_PI]) && !Reachable(HalfCircle(sqrt), [M_PI], [0.0])
  {
    hide Product, Swing, IsSqrt;
    var pl, a, b := HalfCircle(sqrt), [0.0], [M_PI];
    assert pl.Valid() && pl.Has(a) && pl.Has(b);
    SwingUnique(0.0, M_PI, M_PI, 0);
    SwingBack(0.0, M_PI);
    HalfCircleSteps(sqrt);
    StepsBack(pl, a, b);
    var p, q := PathOf(pl, a, b), PathOf(pl, b, a);
    HalfOf(M_PI);
    ProductComm(0.5, M_PI);
    assert (1 as real) / (2 as real) == 0.5;
    assert p == [a, Sample(pl, a, b, 1, 2), b] && q == [b, Sample(pl, b, a, 1, 2), a];
    assert p[1][0] == 0.5 * M_PI && q[1][0] == 1.5 * M_PI;
    SwingUnique(0.0, 1.5 * M_PI, -0.5 * M_PI, 1);
    SwingUnique(0.5 * M_PI, 1.5 * M_PI, M_PI, 0);
    SwingUnique(M_PI, 1.5 * M_PI, 0.5 * M_PI, 0);
    SwingUnique(1.5 * M_PI, 1.5 * M_PI, 0.0, 0);
    assert pl.collides(q[1]);
  }

  lemma HalfCircleSteps(sqrt: real -> real)
    requires IsSqrt(sqrt)
    ensures Steps(HalfCircle(sqrt), [0.0], [M_PI]) == 2
  {
    hide Product;
    var pl, a, b := HalfCircle(sqrt), [0.0], [M_PI];
    SwingUnique(0.0, M_PI, M_PI, 0);
    ProductUnits(M_PI);
    assert DistanceSquare(pl.space, a, b, 0) == 0.0;
    assert DistanceSquare(pl.space, a, b, 1) == Product(M_PI, M_PI);
    ProductSquare(M_PI);
    RootUnique(sqrt(Product(M_PI, M_PI)), M_PI);
    assert pl.Dist(a, b) == M_PI;
    assert (M_PI / 2.0).Floor == 1;
  }
}
