/** Waypoints with a motion between each and the next: shortening them, and spelling out the motions. */
module Waypoints {
  import opened LinearAlgebra
  import opened Roots
  import opened OmniWheel
  import opened Mobility
  import opened Shortcuts

  /** Each waypoint but the last leads to the next. */
  ghost predicate Linked(pl: Planner, path: seq<Configuration>)
    requires pl.Valid()
  {
    && (forall i | 0 <= i < |path| :: pl.Has(path[i]))
    && (forall i | 0 <= i < |path| - 1 :: Reachable(pl, path[i], path[i + 1]))
  }

  /** Each waypoint but the last is claimed to lead to the next. */
  ghost predicate InClaims(pl: Planner, path: seq<Configuration>)
    requires pl.Valid()
  {
    && (forall i | 0 <= i < |path| :: pl.Has(path[i]))
    && (forall i | 0 <= i < |path| - 1 :: Claimed(pl, path[i], path[i + 1]))
  }

  /** Linked waypoints are in claims, and honest claims are kept. */
  lemma HonestLinks(pl: Planner, path: seq<Configuration>)
    requires pl.Valid()
    ensures Linked(pl, path) ==> InClaims(pl, path)
    ensures Honest(pl) && InClaims(pl, path) ==> Linked(pl, path)
  {
    hide Reachable;
  }

  /** There is a motion from one waypoint to another. */
  ghost function Leads(pl: Planner): (Configuration, Configuration) -> bool
    requires pl.Valid()
  {
    (a: Configuration, b: Configuration) => pl.Has(a) && pl.Has(b) && Reachable(pl, a, b)
  }

  /** Passing waypoint k by keeps waypoints linked, and in claims. */
  lemma PassedBy(pl: Planner, w: seq<Configuration>, k: nat)
    requires pl.Valid() && 1 <= k < |w| - 1 && forall i | 0 <= i < |w| :: pl.Has(w[i])
    requires Reachable(pl, w[k - 1], w[k + 1])
    ensures var e := w[..k] + w[k + 1..];
      (Linked(pl, w) ==> Linked(pl, e)) && (InClaims(pl, w) ==> InClaims(pl, e))
  {
    hide Reachable;
    var e := w[..k] + w[k + 1..];
    assert forall i | 0 <= i < |e| :: e[i] == if i < k then w[i] else w[i + 1];
  }

  /** From each waypoint on, those are erased that can be passed by. What is left still leads from the first to the
      last. */
  method Optimize(pl: Planner, path: seq<Configuration>) returns (optimized: seq<Configuration>)
    requires pl.Valid() && forall i | 0 <= i < |path| :: pl.Has(path[i])
    ensures forall i | 0 <= i < |optimized| :: pl.Has(optimized[i])
    ensures optimized == Shortened(Leads(pl), path) && Subsequence(optimized, path)
    ensures Linked(pl, path) ==> Linked(pl, optimized)
    ensures InClaims(pl, path) ==> InClaims(pl, optimized)
    ensures |path| < 3 ==> optimized == path
    ensures |path| >= 2 ==>
      |optimized| >= 2 && optimized[0] == path[0] && optimized[|optimized| - 1] == path[|path| - 1]
  {
    hide Reachable, Subsequence, Shortened, ShortenedFrom, Linked, InClaims;
    optimized := path;
    ShortenedStarts(Leads(pl), path);
    SubsequenceOfItself(path);
    if |path| < 3 {
      return;
    }
    var index := 1;
    while index != |optimized| - 1
      invariant 1 <= index <= |optimized| - 1
      invariant forall i | 0 <= i < |optimized| :: pl.Has(optimized[i])
      invariant Subsequence(optimized, path)
      invariant optimized[..index] + ShortenedFrom(Leads(pl), optimized[index - 1], optimized[index..])
             == Shortened(Leads(pl), path)
      invariant Linked(pl, path) ==> Linked(pl, optimized)
      invariant InClaims(pl, path) ==> InClaims(pl, optimized)
      invariant optimized[0] == path[0] && optimized[|optimized| - 1] == path[|path| - 1]
      decreases |optimized| - index
    {
      var ok := IsReachable(pl, optimized[index - 1], optimized[index + 1], true);
      ShortenedStep(Leads(pl), optimized, index);
      if ok {
        SubsequenceErase(optimized, path, index);
        PassedBy(pl, optimized, index);
        optimized := optimized[..index] + optimized[index + 1..];
      } else {
        index := index + 1;
      }
    }
    ShortenedEnds(Leads(pl), optimized, index);
  }

  /** One bounded degree of freedom, and an obstacle at 2. */
  function Line(sqrt: real -> real): Planner {
    Planner(Space([false], [1.0]), 3.0, c => c == [2.0], sqrt, true)
  }

  lemma OnLine(sqrt: real -> real, x: real, y: real)
    requires IsSqrt(sqrt) && x <= y < x + 6.0
    ensures PathOf(Line(sqrt), [x], [y]) == if y < x + 3.0 then [[x], [y]] else [[x], [x + 0.5 * (y - x)], [y]]
  {
    hide Product;
    var pl, a, b, d := Line(sqrt), [x], [y], y - x;
    assert DistanceSquare(pl.space, a, b, 0) == 0.0;
    ProductUnits(d);
    assert DistanceSquare(pl.space, a, b, 1) == Product(d, d);
    ProductSquare(d);
    RootUnique(sqrt(Product(d, d)), d);
    assert pl.Dist(a, b) == d;
    assert (d / 3.0).Floor == if d < 3.0 then 0 else 1;
    assert (1 as real) / (2 as real) == 0.5;
    HalfWay(x, y);
    if d >= 3.0 {
      assert Sample(pl, a, b, 1, 2) == [x + 0.5 * d];
    }
  }

  lemma HalfWay(x: real, y: real)
    ensures Product(1.0 - 0.5, x) + Product(0.5, y) == x + 0.5 * (y - x)
  {}

  /** Linked waypoints of which shortening leaves one that could be passed by: from 0 to 1, 4 and 5 the second stays
      because the obstacle is on the way from 0 to 4, although it is not on the way from 0 to 5. */
  lemma SpareWaypointLeft(sqrt: real -> real)
    requires IsSqrt(sqrt)
    ensures var pl, path := Line(sqrt), [[0.0], [1.0], [4.0], [5.0]];
      && pl.Valid() && Linked(pl, path) && Shortened(Leads(pl), path) == [[0.0], [1.0], [5.0]]
      && !Tight(Leads(pl), Shortened(Leads(pl), path))
  {
    hide PathOf, IsSqrt;
    var pl, path, left := Line(sqrt), [[0.0], [1.0], [4.0], [5.0]], [[0.0], [1.0], [5.0]];
    OnLine(sqrt, 0.0, 1.0);
    OnLine(sqrt, 1.0, 4.0);
    OnLine(sqrt, 4.0, 5.0);
    OnLine(sqrt, 0.0, 4.0);
    OnLine(sqrt, 1.0, 5.0);
    OnLine(sqrt, 0.0, 5.0);
    assert PathOf(pl, [0.0], [4.0])[1] == [2.0];
    ShortenFour(Leads(pl), [0.0], [1.0], [4.0], [5.0]);
    assert Spare(Leads(pl), left, 1);
  }

  /** Nothing on the way collides, and each sample is close to the next. */
  ghost predicate Drivable(pl: Planner, path: seq<Configuration>)
    requires pl.Valid()
  {
    && (forall i | 0 <= i < |path| :: pl.Has(path[i]) && !pl.collides(path[i]))
    && (forall i | 0 <= i < |path| - 1 :: pl.Dist(path[i], path[i + 1]) < pl.interpolationDistance)
  }

  /** Going on from a drivable path along a motion that starts where the path ends. */
  lemma DriveOn(pl: Planner, done: seq<Configuration>, a: Configuration, b: Configuration)
    requires pl.Valid() && pl.Has(a) && pl.Has(b) && Reachable(pl, a, b) && Drivable(pl, done + [a])
    ensures Drivable(pl, done + PathOf(pl, a, b))
  {
    hide Steps, Distance;
    assert forall i | 0 <= i < |PathOf(pl, a, b)| :: !pl.collides(PathOf(pl, a, b)[i]);
    hide PathOf;
    var p := PathOf(pl, a, b);
    var all, old_ := done + p, done + [a];
    forall i | 0 <= i < |all| ensures pl.Has(all[i]) && !pl.collides(all[i]) {
      if i < |done| {
        assert all[i] == old_[i];
      } else {
        assert all[i] == p[i - |done|];
      }
    }
    forall i | 0 <= i < |all| - 1 ensures pl.Dist(all[i], all[i + 1]) < pl.interpolationDistance {
      if i < |done| {
        assert all[i] == old_[i] && all[i + 1] == old_[i + 1];
      } else {
        assert all[i] == p[i - |done|] && all[i + 1] == p[i - |done| + 1];
        SamplesClose(pl, a, b, i - |done|);
      }
    }
  }

  /** The motions between the waypoints in one. */
  method GetFinalPath(pl: Planner, path: seq<Configuration>) returns (finalPath: seq<Configuration>)
    requires pl.Valid() && forall i | 0 <= i < |path| :: pl.Has(path[i])
    ensures path == [] ==> finalPath == []
    ensures path != [] ==>
      |finalPath| >= |path| && finalPath[0] == path[0] && finalPath[|finalPath| - 1] == path[|path| - 1]
    ensures |path| >= 2 && Linked(pl, path) ==> Drivable(pl, finalPath)
  {
    hide Reachable, PathOf;
    finalPath := [];
    if |path| == 0 {
      return;
    }
    var i := 0;
    while i < |path| - 1
      invariant 0 <= i <= |path| - 1
      invariant i == 0 ==> finalPath == []
      invariant |finalPath| >= i && (finalPath + [path[i]])[0] == path[0]
      invariant i > 0 && Linked(pl, path) ==> Drivable(pl, finalPath + [path[i]])
    {
      ghost var done := finalPath;
      var _, localPath := GetPath(pl, path[i], path[i + 1]);
      finalPath := finalPath + localPath[..|localPath| - 1];
      assert finalPath + [path[i + 1]] == done + localPath;
      if Linked(pl, path) {
        if i == 0 {
          StartDrivable(pl, path[0], path[1]);
        }
        DriveOn(pl, done, path[i], path[i + 1]);
      }
      i := i + 1;
    }
    finalPath := finalPath + [path[|path| - 1]];
  }

  lemma StartDrivable(pl: Planner, a: Configuration, b: Configuration)
    requires pl.Valid() && pl.Has(a) && pl.Has(b) && Reachable(pl, a, b)
    ensures Drivable(pl, [] + [a])
  {
    hide Steps;
    assert PathOf(pl, a, b)[0] == a;
  }
}
