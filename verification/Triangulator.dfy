/** Ear clipping: cutting a polygon into triangles, corner by corner. */
module Triangulators {
  import opened LinearAlgebra

  datatype Convexity = FLAT | CONVEX | CONCAVE

  // ---- oriented boundaries ----

  /** A quantity of directed edges that turns sign with them. */
  ghost predicate Antisymmetric(g: (int, int) -> real) {
    forall i, j :: g(i, j) == -g(j, i)
  }

  /** The sum over the edges of an open polygon. */
  ghost function Open(g: (int, int) -> real, p: seq<int>): real {
    if |p| < 2 then 0.0 else Open(g, p[..|p| - 1]) + g(p[|p| - 2], p[|p| - 1])
  }

  /** The sum over the edges of a closed polygon. */
  ghost function Boundary(g: (int, int) -> real, p: seq<int>): real {
    if p == [] then 0.0 else Open(g, p) + g(p[|p| - 1], p[0])
  }

  /** The sum over the edges of triangles, given by their corners in turn. */
  ghost function TriangleEdges(g: (int, int) -> real, t: seq<int>): real
    requires |t| % 3 == 0
  {
    if t == [] then 0.0
    else
      var n := |t|;
      TriangleEdges(g, t[..n - 3]) + g(t[n - 3], t[n - 2]) + g(t[n - 2], t[n - 1]) + g(t[n - 1], t[n - 3])
  }

  lemma {:induction false} OpenAppend(g: (int, int) -> real, a: seq<int>, b: seq<int>)
    requires a != [] && b != []
    ensures Open(g, a + b) == Open(g, a) + g(a[|a| - 1], b[0]) + Open(g, b)
  {
    var s := a + b;
    if |b| == 1 {
      assert s[..|s| - 1] == a;
    } else {
      OpenAppend(g, a, b[..|b| - 1]);
      assert s[..|s| - 1] == a + b[..|b| - 1];
    }
  }

  function Without(p: seq<int>, k: nat): (r: seq<int>)
    requires k < |p|
    ensures |r| == |p| - 1
  {
    p[..k] + p[k + 1..]
  }

  function Prev(n: nat, k: nat): (r: nat)
    requires k < n
    ensures r == if k == 0 then n - 1 else k - 1
  {
    if k > 0 then
      Wraps(k - 1, n);
      (k + n - 1) % n
    else
      (k + n - 1) % n
  }

  lemma Wraps(a: nat, n: nat)
    requires a < n
    ensures (a + n) % n == a
  {
    var q, r := (a + n) / n, (a + n) % n;
    assert a + n == q * n + r;
    assert q <= 0 ==> q * n <= 0;
    assert q >= 2 ==> q * n >= 2 * n;
  }

  function Next(n: nat, k: nat): (r: nat)
    requires k < n
    ensures r == if k == n - 1 then 0 else k + 1
  {
    (k + 1) % n
  }

  function Before(p: seq<int>, k: nat): int
    requires k < |p|
  {
    p[Prev(|p|, k)]
  }

  function After(p: seq<int>, k: nat): int
    requires k < |p|
  {
    p[Next(|p|, k)]
  }

  lemma OpenOne(g: (int, int) -> real, x: int)
    ensures Open(g, [x]) == 0.0
  {}

  /** Cutting off corner k takes the edges of its triangle out of the boundary. */
  lemma CutCorner(g: (int, int) -> real, p: seq<int>, k: nat)
    requires Antisymmetric(g) && k < |p| && |p| >= 3
    ensures Boundary(g, p) == Boundary(g, Without(p, k)) + g(Before(p, k), p[k]) + g(p[k], After(p, k))
        + g(After(p, k), Before(p, k))
  {
    hide Antisymmetric, Prev, Next, Open, Boundary;
    var x, a, b, n := p[k], p[..k], p[k + 1..], |p|;
    assert p == a + [x] + b && Without(p, k) == a + b;
    Turned(g, After(p, k), Before(p, k));
    if k == 0 {
      assert p == [x] + b && a + b == b;
      assert Before(p, k) == b[|b| - 1] && After(p, k) == b[0];
      CutFirst(g, x, b);
    } else if k == n - 1 {
      assert p == a + [x] && a + b == a;
      assert Before(p, k) == a[|a| - 1] && After(p, k) == a[0];
      CutLast(g, a, x);
    } else {
      assert Before(p, k) == a[|a| - 1] && After(p, k) == b[0];
      CutMiddle(g, a, x, b);
    }
  }

  lemma CutFirst(g: (int, int) -> real, x: int, b: seq<int>)
    requires b != []
    ensures Boundary(g, [x] + b) == Boundary(g, b) + g(x, b[0]) + g(b[|b| - 1], x) - g(b[|b| - 1], b[0])
  {
    hide Open;
    OpenOne(g, x);
    OpenAppend(g, [x], b);
  }

  lemma CutLast(g: (int, int) -> real, a: seq<int>, x: int)
    requires a != []
    ensures Boundary(g, a + [x]) == Boundary(g, a) + g(a[|a| - 1], x) + g(x, a[0]) - g(a[|a| - 1], a[0])
  {
    hide Open;
    OpenOne(g, x);
    OpenAppend(g, a, [x]);
  }

  lemma CutMiddle(g: (int, int) -> real, a: seq<int>, x: int, b: seq<int>)
    requires a != [] && b != []
    ensures Boundary(g, a + [x] + b)
         == Boundary(g, a + b) + g(a[|a| - 1], x) + g(x, b[0]) - g(a[|a| - 1], b[0])
  {
    hide Open;
    OpenOne(g, x);
    assert a + [x] + b == a + ([x] + b);
    OpenAppend(g, a, [x] + b);
    OpenAppend(g, [x], b);
    OpenAppend(g, a, b);
  }

  lemma Turned(g: (int, int) -> real, i: int, j: int)
    requires Antisymmetric(g)
    ensures g(i, j) == -g(j, i)
  {}

  // ---- corners ----

  /** The middle corners of triangles: the ears they were cut at. */
  ghost function Ears(t: seq<int>): multiset<int>
    requires |t| % 3 == 0
  {
    if t == [] then multiset{} else Ears(t[..|t| - 3]) + multiset{t[|t| - 2]}
  }

  lemma MoreTriangles(t: seq<int>, a: int, b: int, c: int)
    requires |t| % 3 == 0
    ensures |t + [a, b, c]| % 3 == 0 && Ears(t + [a, b, c]) == Ears(t) + multiset{b}
    ensures forall g: (int, int) -> real ::
              TriangleEdges(g, t + [a, b, c]) == TriangleEdges(g, t) + g(a, b) + g(b, c) + g(c, a)
  {
    var s := t + [a, b, c];
    assert s[..|s| - 3] == t;
  }

  lemma WithoutElements(p: seq<int>, k: nat)
    requires k < |p|
    ensures multiset(p) == multiset(Without(p, k)) + multiset{p[k]}
  {
    assert p == p[..k] + [p[k]] + p[k + 1..];
  }

  function Upto(n: nat): (r: seq<int>)
    ensures |r| == n && forall i | 0 <= i < n :: r[i] == i
  {
    seq(n, i => i)
  }

  /** What has been cut off so far, and the rest, have the boundary of the whole polygon, and each of
      its corners either is left or was cut once. */
  ghost predicate ConservedIn(triangles: seq<int>, flatEars: seq<int>, left: seq<int>, n: nat) {
    && |triangles| % 3 == 0 && |flatEars| % 3 == 0
    && (forall g: (int, int) -> real | Antisymmetric(g) ::
          TriangleEdges(g, triangles) + TriangleEdges(g, flatEars) + Boundary(g, left) == Boundary(g, Upto(n)))
    && Ears(triangles) + Ears(flatEars) + multiset(left) == multiset(Upto(n))
    && |triangles| / 3 + |flatEars| / 3 + |left| == n
    && AllBelow(triangles, n) && AllBelow(flatEars, n) && AllBelow(left, n)
  }

  ghost predicate AllBelow(s: seq<int>, n: nat) {
    forall i | 0 <= i < |s| :: 0 <= s[i] < n
  }

  // ---- a polygon cut up, told by its corners ----

  /** Whether p is inside the ear a, b, c, seen against v. */
  predicate InEar(p: Vec3, a: Vec3, b: Vec3, c: Vec3, v: Vec3) {
    && Dot(Cross(Sub(a, p), Sub(b, p)), v) > 0.0
    && Dot(Cross(Sub(b, p), Sub(c, p)), v) > 0.0
    && Dot(Cross(Sub(c, p), Sub(a, p)), v) > 0.0
  }

  /** Triangle k turns the way of v. */
  ghost predicate TurnsAt(corners: seq<Vec3>, v: Vec3, t: seq<int>, k: nat)
    requires 3 * k + 2 < |t|
  {
    TurnsThrough(corners, v, t[3 * k], t[3 * k + 1], t[3 * k + 2])
  }

  /** The corners of ear k are flat. */
  ghost predicate IsFlatAt(corners: seq<Vec3>, t: seq<int>, k: nat, flat: (Vec3, Vec3, Vec3) -> bool)
    requires 3 * k + 2 < |t| && AllBelow(t, |corners|)
  {
    flat(corners[t[3 * k]], corners[t[3 * k + 1]], corners[t[3 * k + 2]])
  }

  /** Corner i of what is left is not flat, and turns against v or has a corner that is left in its triangle. */
  ghost predicate Resists(corners: seq<Vec3>, v: Vec3, left: seq<int>, i: nat, flat: (Vec3, Vec3, Vec3) -> bool)
    requires i < |left| && AllBelow(left, |corners|)
  {
    var a, b, c := corners[Before(left, i)], corners[left[i]], corners[After(left, i)];
    && !flat(a, b, c)
    && (Dot(v, Cross(Sub(b, a), Sub(c, a))) <= 0.0 || exists j | 0 <= j < |left| :: InEar(corners[left[j]], a, b, c, v))
  }

  /** The polygon is cut into the triangles as far as it can be: they and the flat ears make it up with what is left,
      every triangle turns as the polygon does, and two corners are left or none of them can be cut; of a convex polygon
      two are left. */
  ghost predicate CutUp(corners: seq<Vec3>, cut: seq<int>, flat: (Vec3, Vec3, Vec3) -> bool) {
    exists v, flatEars, left :: CutUpWith(corners, cut, flat, v, flatEars, left)
  }

  ghost predicate CutUpWith(corners: seq<Vec3>, cut: seq<int>, flat: (Vec3, Vec3, Vec3) -> bool, v: Vec3,
                            flatEars: seq<int>, left: seq<int>)
  {
    && ConservedIn(cut, flatEars, left, |corners|) && HasArea(corners, v, |corners|)
    && (forall k | 0 <= k < |cut| / 3 :: TurnsAt(corners, v, cut, k))
    && (forall k | 0 <= k < |flatEars| / 3 :: IsFlatAt(corners, flatEars, k, flat))
    && (ConvexCorners(corners, v) ==> |left| == 2)
    && (|left| == 2 || forall i | 0 <= i < |left| :: Resists(corners, v, left, i, flat))
  }

  class Triangulator {
    const vertices: seq<Vec3>
    var orgPolygon: seq<int>
    var triangles: seq<int>
    var workPolygon: seq<int>
    var ccs: Vec3
    var earMask: array<bool>
    ghost var flatEars: seq<int>

    constructor (v: seq<Vec3>)
      ensures vertices == v && fresh(earMask) && Unmasked()
    {
      vertices, orgPolygon, triangles, workPolygon, ccs := v, [], [], [], ZERO3;
      earMask := new bool[0];
      flatEars := [];
    }

    ghost predicate Unmasked()
      reads `earMask, earMask
    {
      forall i | 0 <= i < earMask.Length :: !earMask[i]
    }

    /** Polygon corners have vertices, and the corners still to be cut are corners of the polygon. */
    ghost predicate Fits()
      reads `orgPolygon, `workPolygon, `earMask
    {
      && (forall i | 0 <= i < |orgPolygon| :: 0 <= orgPolygon[i] < |vertices|)
      && (forall i | 0 <= i < |workPolygon| :: 0 <= workPolygon[i] < |orgPolygon|)
      && |workPolygon| <= |orgPolygon| <= earMask.Length
    }

    function Vertex(localIndex: int): Vec3
      requires 0 <= localIndex < |orgPolygon| && forall i | 0 <= i < |orgPolygon| :: 0 <= orgPolygon[i] < |vertices|
      reads `orgPolygon
    {
      vertices[orgPolygon[localIndex]]
    }

    function WorkVertex(i: int): Vec3
      requires Fits() && 0 <= i < |workPolygon|
      reads `orgPolygon, `workPolygon, `earMask
    {
      Vertex(workPolygon[i])
    }

    /** Whether p is inside the ear a, b, c, seen against the polygon's normal. */
    predicate Inside(p: Vec3, a: Vec3, b: Vec3, c: Vec3)
      reads `ccs
    {
      InEar(p, a, b, c, ccs)
    }

    /** A point of the plane of a corner that turns with the polygon is inside exactly when it is a mean of the three
        with positive weights. */
    lemma InsideIff(p: Vec3, a: Vec3, b: Vec3, c: Vec3, x: real, y: real, z: real)
      requires x + y + z == 1.0 && p == Add(Add(Scale(x, a), Scale(y, b)), Scale(z, c)) && Turning(a, b, c)
      ensures Inside(p, a, b, c) <==> x > 0.0 && y > 0.0 && z > 0.0
    {
      hide Cross, Dot, Scale, Product;
      var t := Dot(ccs, Cross(Sub(b, a), Sub(c, a)));
      MeanShare(a, b, c, p, x, y, z, ccs);
      MeanShare(b, c, a, p, y, z, x, ccs);
      MeanShare(c, a, b, p, z, x, y, ccs);
      SameFromAllCorners(a, b, c);
      PositiveShare(x, t);
      PositiveShare(y, t);
      PositiveShare(z, t);
    }

    ghost predicate ContainsOther(ear: nat)
      requires Fits() && ear < |workPolygon|
      reads `orgPolygon, `workPolygon, `earMask, `ccs
    {
      exists i | 0 <= i < |workPolygon| :: Other(ear, i)
    }

    /** Corner i lies inside the ear without being one of its corners. */
    predicate Other(ear: nat, i: nat)
      requires Fits() && ear < |workPolygon| && i < |workPolygon|
      reads `orgPolygon, `workPolygon, `earMask, `ccs
    {
      var n := |workPolygon|;
      var prev, next := Prev(n, ear), Next(n, ear);
      i != prev && i != ear && i != next && Inside(WorkVertex(i), WorkVertex(prev), WorkVertex(ear), WorkVertex(next))
    }

    method CheckIfEarContainsOtherVertices(ear: nat) returns (contains: bool)
      requires Fits() && Unmasked() && ear < |workPolygon|
      modifies earMask
      ensures contains <==> ContainsOther(ear)
      ensures Unmasked()
    {
      hide Inside, Cross, Dot, Sub, Prev, Next;
      contains := false;
      var n := |workPolygon|;
      if n > 3 {
        var prev, next := Prev(n, ear), Next(n, ear);
        var a, b, c := WorkVertex(prev), WorkVertex(ear), WorkVertex(next);
        earMask[prev], earMask[ear], earMask[next] := true, true, true;
        var i := 0;
        while i < n
          invariant 0 <= i <= n && !contains
          invariant forall k | 0 <= k < earMask.Length :: earMask[k] <==> k == prev || k == ear || k == next
          invariant forall k | 0 <= k < i :: !Other(ear, k)
        {
          if !earMask[i] {
            if Inside(WorkVertex(i), a, b, c) {
              contains := true;
              break;
            }
          }
          i := i + 1;
        }
        assert contains ==> Other(ear, i);
        assert contains || forall k | 0 <= k < i :: !Other(ear, k);
        assert contains <==> ContainsOther(ear);
        earMask[prev], earMask[ear], earMask[next] := false, false, false;
      } else {
        NoOther(ear);
      }
    }

    lemma NoOther(ear: nat)
      requires Fits() && ear < |workPolygon| <= 3
      ensures !ContainsOther(ear)
    {
      hide Inside;
      var n := |workPolygon|;
      assert n == 1 || n == 2 || n == 3;
      assert Prev(n, ear) == if ear == 0 then n - 1 else ear - 1;
      assert Next(n, ear) == if ear == n - 1 then 0 else ear + 1;
    }

    /** Whether the ear is flat, turns with the polygon, or against it. */
    function ConvexityOf(ear: nat, flat: (Vec3, Vec3, Vec3) -> bool): Convexity
      requires Fits() && ear < |workPolygon|
      reads `orgPolygon, `workPolygon, `earMask, `ccs
    {
      var n := |workPolygon|;
      var p0, p1, p2 := WorkVertex(Prev(n, ear)), WorkVertex(ear), WorkVertex(Next(n, ear));
      if flat(p0, p1, p2) then FLAT
      else if Dot(ccs, Cross(Sub(p1, p0), Sub(p2, p0))) > 0.0 then CONVEX else CONCAVE
    }

    /** The corner from a over b to c turns with the polygon. */
    predicate Turning(a: Vec3, b: Vec3, c: Vec3)
      reads `ccs
    {
      Dot(ccs, Cross(Sub(b, a), Sub(c, a))) > 0.0
    }

    /** The three corners around corner i of what is left are flat. */
    predicate FlatAt(i: nat, flat: (Vec3, Vec3, Vec3) -> bool)
      requires Fits() && i < |workPolygon|
      reads `orgPolygon, `workPolygon, `earMask
    {
      var n := |workPolygon|;
      flat(WorkVertex(Prev(n, i)), WorkVertex(i), WorkVertex(Next(n, i)))
    }

    predicate TurningAt(i: nat)
      requires Fits() && i < |workPolygon|
      reads `orgPolygon, `workPolygon, `earMask, `ccs
    {
      var n := |workPolygon|;
      Turning(WorkVertex(Prev(n, i)), WorkVertex(i), WorkVertex(Next(n, i)))
    }

    /** Corner i cannot be cut: it is not flat, and turns against the polygon or has another corner in its triangle. */
    ghost predicate Uncuttable(i: nat, flat: (Vec3, Vec3, Vec3) -> bool)
      requires Fits() && i < |workPolygon|
      reads `orgPolygon, `workPolygon, `earMask, `ccs
    {
      !FlatAt(i, flat) && (!TurningAt(i) || ContainsOther(i))
    }

    ghost predicate Conserved(n: nat)
      reads `triangles, `flatEars, `workPolygon
    {
      ConservedIn(triangles, flatEars, workPolygon, n)
    }

    /** Removing the target from the polygon, by moving up what comes after it. */
    method Erase(target0: nat)
      requires target0 < |workPolygon|
      modifies `workPolygon
      ensures workPolygon == Without(old(workPolygon), target0)
    {
      var target := target0;
      var n := |workPolygon|;
      var i := target + 1;
      while i < n
        invariant target + 1 == i <= n && |workPolygon| == n
        invariant workPolygon[..target] == Without(old(workPolygon), target0)[..target]
        invariant workPolygon[i..] == old(workPolygon)[i..]
      {
        workPolygon := workPolygon[target := workPolygon[i]];
        target := target + 1;
        i := i + 1;
      }
      workPolygon := workPolygon[..n - 1];
    }

    /** Looking for a corner to cut: the first that is flat, or an ear with nothing inside. */
    method FindEar(flat: (Vec3, Vec3, Vec3) -> bool, numTriangles0: nat) returns (target: int, numTriangles: nat)
      requires Fits() && Unmasked() && |workPolygon| >= 3
      modifies `triangles, earMask
      ensures Unmasked() && -1 <= target < |workPolygon|
      ensures forall i | 0 <= i < if target < 0 then |workPolygon| else target :: Uncuttable(i, flat)
      ensures target >= 0 && !FlatAt(target, flat) ==>
        && TurningAt(target) && !ContainsOther(target) && numTriangles == numTriangles0 + 1
        && triangles == old(triangles) + [Before(workPolygon, target), workPolygon[target], After(workPolygon, target)]
      ensures target < 0 || FlatAt(target, flat) ==>
        triangles == old(triangles) && numTriangles == numTriangles0
    {
      hide ContainsOther, Prev, Next, Dot, Cross, Sub;
      target, numTriangles := -1, numTriangles0;
      var n := |workPolygon|;
      var i := 0;
      while i < n
        invariant 0 <= i <= n && Unmasked() && target == -1 && triangles == old(triangles)
        invariant numTriangles == numTriangles0
        invariant forall k | 0 <= k < i :: Uncuttable(k, flat)
      {
        var convexity := ConvexityOf(i, flat);
        if convexity == FLAT {
          target := i;
          break;
        } else if convexity == CONVEX {
          var contains := CheckIfEarContainsOtherVertices(i);
          if !contains {
            triangles := triangles + [workPolygon[Prev(n, i)]];
            triangles := triangles + [workPolygon[i]];
            triangles := triangles + [workPolygon[Next(n, i)]];
            target := i;
            numTriangles := numTriangles + 1;
            break;
          }
        }
        i := i + 1;
      }
    }

    /** No corner that is left can be cut. */
    ghost predicate Stuck(flat: (Vec3, Vec3, Vec3) -> bool)
      requires Fits()
      reads `orgPolygon, `workPolygon, `earMask, `ccs
    {
      forall i | 0 <= i < |workPolygon| :: Uncuttable(i, flat)
    }

    /** Each triangle was cut at a corner that turns with the polygon, and no corner that is left is inside. */
    ghost predicate GoodEars(t: seq<int>, left: seq<int>)
      requires forall i | 0 <= i < |orgPolygon| :: 0 <= orgPolygon[i] < |vertices|
      reads `orgPolygon, `ccs
    {
      && |t| % 3 == 0 && AllBelow(t, |orgPolygon|) && AllBelow(left, |orgPolygon|)
      && forall k | 0 <= k < |t| / 3 :: GoodEar(t, k, left)
    }

    ghost predicate GoodEar(t: seq<int>, k: nat, left: seq<int>)
      requires forall i | 0 <= i < |orgPolygon| :: 0 <= orgPolygon[i] < |vertices|
      requires 3 * k + 2 < |t| && AllBelow(t, |orgPolygon|) && AllBelow(left, |orgPolygon|)
      reads `orgPolygon, `ccs
    {
      var a, b, c := Vertex(t[3 * k]), Vertex(t[3 * k + 1]), Vertex(t[3 * k + 2]);
      Turning(a, b, c) && forall i | 0 <= i < |left| :: !Inside(Vertex(left[i]), a, b, c)
    }

    /** Each flat ear is flat. */
    ghost predicate FlatEars(t: seq<int>, flat: (Vec3, Vec3, Vec3) -> bool)
      requires forall i | 0 <= i < |orgPolygon| :: 0 <= orgPolygon[i] < |vertices|
      reads `orgPolygon
    {
      && |t| % 3 == 0 && AllBelow(t, |orgPolygon|)
      && forall k | 0 <= k < |t| / 3 :: FlatEar(t, k, flat)
    }

    ghost predicate FlatEar(t: seq<int>, k: nat, flat: (Vec3, Vec3, Vec3) -> bool)
      requires forall i | 0 <= i < |orgPolygon| :: 0 <= orgPolygon[i] < |vertices|
      requires 3 * k + 2 < |t| && AllBelow(t, |orgPolygon|)
      reads `orgPolygon
    {
      flat(Vertex(t[3 * k]), Vertex(t[3 * k + 1]), Vertex(t[3 * k + 2]))
    }

    /** What was cut off is well cut, and what is left is in the order of the polygon. */
    ghost predicate CutWell(tri: seq<int>, flats: seq<int>, left: seq<int>, flat: (Vec3, Vec3, Vec3) -> bool)
      reads `orgPolygon, `ccs
    {
      && (forall i | 0 <= i < |orgPolygon| :: 0 <= orgPolygon[i] < |vertices|)
      && GoodEars(tri, left) && FlatEars(flats, flat) && Ascending(left)
    }

    /** Corner k of what is left may be cut: it is flat, or turns with the polygon and has no corner inside. */
    ghost predicate Cuttable(left: seq<int>, k: nat, asFlat: bool, flat: (Vec3, Vec3, Vec3) -> bool)
      reads `orgPolygon, `ccs
    {
      && (forall i | 0 <= i < |orgPolygon| :: 0 <= orgPolygon[i] < |vertices|)
      && k < |left| && AllBelow(left, |orgPolygon|)
      && var a, b, c := Vertex(Before(left, k)), Vertex(left[k]), Vertex(After(left, k));
      if asFlat then flat(a, b, c)
      else Turning(a, b, c) && forall i | 0 <= i < |left| :: !Inside(Vertex(left[i]), a, b, c)
    }

    /** Cutting off one corner, if one can be cut. */
    method CutOne(flat: (Vec3, Vec3, Vec3) -> bool, numTriangles0: nat, ghost n: nat)
      returns (stuck: bool, numTriangles: nat)
      requires Fits() && Unmasked() && |workPolygon| >= 3 && Conserved(n) && 3 * numTriangles0 == |triangles|
      requires CutWell(triangles, flatEars, workPolygon, flat)
      modifies `triangles, `flatEars, `workPolygon, earMask
      ensures Fits() && Unmasked() && Conserved(n) && 3 * numTriangles == |triangles|
      ensures CutWell(triangles, flatEars, workPolygon, flat)
      ensures if stuck then workPolygon == old(workPolygon) && Stuck(flat) else |workPolygon| == |old(workPolygon)| - 1
    {
      hide ContainsOther, TurningAt, FlatAt, Uncuttable, ConservedIn, CutWell, Cuttable;
      ghost var before, flats, work := triangles, flatEars, workPolygon;
      var target;
      target, numTriangles := FindEar(flat, numTriangles0);
      if target < 0 {
        return true, numTriangles;
      }
      FoundIsCuttable(target, flat);
      ghost var asFlat := FlatAt(target, flat);
      if FlatAt(target, flat) {
        flatEars := flatEars + [Before(work, target), work[target], After(work, target)];
      }
      Erase(target);
      CutConserved(before, flats, work, n, target);
      CutStaysWell(before, flats, work, target, asFlat, flat);
      stuck := false;
    }

    lemma FoundIsCuttable(k: nat, flat: (Vec3, Vec3, Vec3) -> bool)
      requires Fits() && k < |workPolygon| && (FlatAt(k, flat) || (TurningAt(k) && !ContainsOther(k)))
      ensures Cuttable(workPolygon, k, FlatAt(k, flat), flat)
    {
      hide Inside, Turning, Prev, Next;
      var n := |workPolygon|;
      var a, b, c := WorkVertex(Prev(n, k)), WorkVertex(k), WorkVertex(Next(n, k));
      if !FlatAt(k, flat) {
        CornersNotInside(a, b, c);
        forall i | 0 <= i < n ensures !Inside(Vertex(workPolygon[i]), a, b, c) {
          assert !Other(k, i);
        }
      }
    }

    lemma CornersNotInside(a: Vec3, b: Vec3, c: Vec3)
      ensures !Inside(a, a, b, c) && !Inside(b, a, b, c) && !Inside(c, a, b, c)
    {
      hide Cross, Dot;
      CrossZero(Sub(b, a));
      CrossZero(Sub(a, b));
      CrossZero(Sub(b, c));
      DotZero(ccs);
      assert Sub(a, a) == ZERO3 && Sub(b, b) == ZERO3 && Sub(c, c) == ZERO3;
    }

    lemma CutStaysWell(tri: seq<int>, flats: seq<int>, work: seq<int>, k: nat, asFlat: bool,
                       flat: (Vec3, Vec3, Vec3) -> bool)
      requires CutWell(tri, flats, work, flat) && Cuttable(work, k, asFlat, flat)
      ensures var ear := [Before(work, k), work[k], After(work, k)];
        CutWell(if asFlat then tri else tri + ear, if asFlat then flats + ear else flats, Without(work, k), flat)
    {
      hide Inside, Turning, Prev, Next, Ascending, GoodEars, FlatEars;
      var left := Without(work, k);
      FewerLeft(tri, work, k);
      AscendingWithout(work, k);
      if asFlat {
        OneMoreFlat(flats, Before(work, k), work[k], After(work, k), flat);
      } else {
        OneMoreEar(tri, left, Before(work, k), work[k], After(work, k));
      }
    }

    lemma FewerLeft(t: seq<int>, work: seq<int>, k: nat)
      requires forall i | 0 <= i < |orgPolygon| :: 0 <= orgPolygon[i] < |vertices|
      requires k < |work| && GoodEars(t, work)
      ensures GoodEars(t, Without(work, k))
    {
      hide Inside, Turning;
      var left := Without(work, k);
      assert forall i | 0 <= i < |left| :: left[i] == work[if i < k then i else i + 1];
      forall m | 0 <= m < |t| / 3 ensures GoodEar(t, m, left) {
        assert GoodEar(t, m, work);
      }
    }

    lemma OneMoreEar(t: seq<int>, left: seq<int>, a: int, b: int, c: int)
      requires forall i | 0 <= i < |orgPolygon| :: 0 <= orgPolygon[i] < |vertices|
      requires 0 <= a < |orgPolygon| && 0 <= b < |orgPolygon| && 0 <= c < |orgPolygon|
      requires GoodEars(t, left) && Turning(Vertex(a), Vertex(b), Vertex(c))
      requires forall i | 0 <= i < |left| :: !Inside(Vertex(left[i]), Vertex(a), Vertex(b), Vertex(c))
      ensures GoodEars(t + [a, b, c], left)
    {
      hide Inside, Turning;
      var s := t + [a, b, c];
      forall m | 0 <= m < |s| / 3 ensures GoodEar(s, m, left) {
        if m < |t| / 3 {
          assert GoodEar(t, m, left);
        }
      }
    }

    lemma OneMoreFlat(t: seq<int>, a: int, b: int, c: int, flat: (Vec3, Vec3, Vec3) -> bool)
      requires forall i | 0 <= i < |orgPolygon| :: 0 <= orgPolygon[i] < |vertices|
      requires 0 <= a < |orgPolygon| && 0 <= b < |orgPolygon| && 0 <= c < |orgPolygon|
      requires FlatEars(t, flat) && flat(Vertex(a), Vertex(b), Vertex(c))
      ensures FlatEars(t + [a, b, c], flat)
    {
      var s := t + [a, b, c];
      forall m | 0 <= m < |s| / 3 ensures FlatEar(s, m, flat) {
        if m < |t| / 3 {
          assert FlatEar(t, m, flat);
        }
      }
    }

    /** Cutting the polygon into triangles. What is cut off and what is left always make up the polygon;
        either two corners are left, and then triangles and flat ears number two less than the corners,
        or no corner that is left can be cut. */
    method Apply(polygon: seq<int>, flat: (Vec3, Vec3, Vec3) -> bool) returns (numTriangles: nat)
      requires Unmasked() && forall i | 0 <= i < |polygon| :: 0 <= polygon[i] < |vertices|
      modifies this, earMask
      ensures Unmasked() && (earMask == old(earMask) || fresh(earMask))
      ensures |polygon| < 3 ==> triangles == [] && numTriangles == 0
      ensures |polygon| == 3 ==> triangles == [0, 1, 2] && numTriangles == 1
      ensures |polygon| > 3 ==>
        && orgPolygon == polygon && Fits() && Conserved(|polygon|) && 3 * numTriangles == |triangles|
        && HasArea(Corners(), ccs, |polygon|) && CutWell(triangles, flatEars, workPolygon, flat)
        && (ConvexCorners(Corners(), ccs) ==> |workPolygon| == 2)
        && ((|workPolygon| == 2 && numTriangles + |flatEars| / 3 == |polygon| - 2) || Stuck(flat))
        && CutUp(Corners(), triangles, flat)
    {
      hide Stuck, ConservedIn, HasArea, CutWell, ConvexCorners, CutUp;
      triangles := [];
      flatEars := [];
      var n := |polygon|;
      if n > earMask.Length {
        earMask := new bool[n](i => false);
      }
      if n < 3 {
        return 0;
      } else if n == 3 {
        triangles := triangles + [0];
        triangles := triangles + [1];
        triangles := triangles + [2];
        return 1;
      }
      orgPolygon := polygon;
      workPolygon := Upto(n);
      numTriangles := 0;
      ConservedAtFirst(n);
      SumCorners();
      WellAtFirst(flat, n);
      var stuck := false;
      while |workPolygon| >= 3 && !stuck
        invariant Fits() && Unmasked() && |workPolygon| >= 2 && orgPolygon == polygon
        invariant earMask == old(earMask) || fresh(earMask)
        invariant Conserved(n) && 3 * numTriangles == |triangles|
        invariant HasArea(Corners(), ccs, n) && CutWell(triangles, flatEars, workPolygon, flat)
        invariant stuck ==> Stuck(flat)
        decreases |workPolygon|, !stuck
      {
        stuck, numTriangles := CutOne(flat, numTriangles, n);
      }
      CountLeft(n);
      if |workPolygon| >= 3 && ConvexCorners(Corners(), ccs) {
        ConvexNotStuck(flat);
      }
      AppliedCutsUp(flat);
    }

    lemma AppliedCutsUp(flat: (Vec3, Vec3, Vec3) -> bool)
      requires Fits() && Conserved(|orgPolygon|) && HasArea(Corners(), ccs, |orgPolygon|)
      requires CutWell(triangles, flatEars, workPolygon, flat) && (|workPolygon| == 2 || Stuck(flat))
      requires ConvexCorners(Corners(), ccs) ==> |workPolygon| == 2
      ensures CutUp(Corners(), triangles, flat)
    {
      hide HasArea, ConvexCorners, Inside, InEar, Cross, Dot, Sub, Stuck, Resists;
      var corners, t, f := Corners(), triangles, flatEars;
      forall k | 0 <= k < |t| / 3 ensures TurnsAt(corners, ccs, t, k) {
        assert GoodEar(t, k, workPolygon);
      }
      forall k | 0 <= k < |f| / 3 ensures IsFlatAt(corners, f, k, flat) {
        assert FlatEar(f, k, flat);
      }
      if |workPolygon| != 2 {
        forall i | 0 <= i < |workPolygon| ensures Resists(corners, ccs, workPolygon, i, flat) {
          StuckResists(i, flat);
        }
      }
      assert CutUpWith(corners, t, flat, ccs, f, workPolygon);
    }

    lemma StuckResists(i: nat, flat: (Vec3, Vec3, Vec3) -> bool)
      requires Fits() && Stuck(flat) && i < |workPolygon|
      ensures Resists(Corners(), ccs, workPolygon, i, flat)
    {
      hide InEar, Cross, Dot, Sub, Prev, Next;
      assert Uncuttable(i, flat);
      if TurningAt(i) {
        var j :| 0 <= j < |workPolygon| && Other(i, j);
        var n := |workPolygon|;
        assert Inside(WorkVertex(j), WorkVertex(Prev(n, i)), WorkVertex(i), WorkVertex(Next(n, i)));
        assert Corners()[workPolygon[j]] == WorkVertex(j);
      }
    }

    lemma WellAtFirst(flat: (Vec3, Vec3, Vec3) -> bool, n: nat)
      requires n == |orgPolygon| && forall i | 0 <= i < |orgPolygon| :: 0 <= orgPolygon[i] < |vertices|
      ensures CutWell([], [], Upto(n), flat)
    {}

    /** A convex polygon is never left: its second corner can be cut. */
    lemma ConvexNotStuck(flat: (Vec3, Vec3, Vec3) -> bool)
      requires Fits() && |workPolygon| >= 3 && CutWell(triangles, flatEars, workPolygon, flat)
      requires ConvexCorners(Corners(), ccs)
      ensures !Stuck(flat)
    {
      hide Cross, Dot, Sub, GoodEars, FlatEars;
      var n, w := |workPolygon|, workPolygon;
      assert Prev(n, 1) == 0 && Next(n, 1) == 2;
      var a, b, c := Vertex(w[0]), Vertex(w[1]), Vertex(w[2]);
      assert TurnsThrough(Corners(), ccs, w[0], w[1], w[2]);
      if i :| 0 <= i < n && Other(1, i) {
        var p := Vertex(w[i]);
        assert TurnsThrough(Corners(), ccs, w[0], w[2], w[i]);
        SeenFromOutside(a, c, p);
        DotNeg(ccs, Cross(Sub(c, a), Sub(p, a)));
        DotComm(ccs, Cross(Sub(c, p), Sub(a, p)));
        assert false;
      }
      assert !Uncuttable(1, flat);
    }

    lemma ConservedAtFirst(n: nat)
      requires triangles == [] && flatEars == [] && workPolygon == Upto(n)
      ensures Conserved(n)
    {}

    /** Cutting off one corner, as an ear or as a flat one. */
    lemma CutConserved(tri: seq<int>, flats: seq<int>, work: seq<int>, n: nat, k: nat)
      requires |work| >= 3 && k < |work| && workPolygon == Without(work, k)
      requires ConservedIn(tri, flats, work, n)
      requires var ear := [Before(work, k), work[k], After(work, k)];
        (triangles == tri + ear && flatEars == flats) || (triangles == tri && flatEars == flats + ear)
      ensures Conserved(n)
    {
      hide Antisymmetric, Prev, Next, Without, AllBelow, Ears, TriangleEdges, Boundary;
      CutBelow(tri, flats, work, n, k);
      var a, b, c := Before(work, k), work[k], After(work, k);
      hide Before, After;
      MoreTriangles(tri, a, b, c);
      MoreTriangles(flats, a, b, c);
      WithoutElements(work, k);
      forall g: (int, int) -> real | Antisymmetric(g)
        ensures TriangleEdges(g, triangles) + TriangleEdges(g, flatEars) + Boundary(g, workPolygon)
            == Boundary(g, Upto(n))
      {
        CutCorner(g, work, k);
        assert TriangleEdges(g, tri) + TriangleEdges(g, flats) + Boundary(g, work) == Boundary(g, Upto(n));
      }
    }

    lemma CutBelow(tri: seq<int>, flats: seq<int>, work: seq<int>, n: nat, k: nat)
      requires k < |work| && AllBelow(tri, n) && AllBelow(flats, n) && AllBelow(work, n)
      ensures var ear := [Before(work, k), work[k], After(work, k)];
        AllBelow(tri + ear, n) && AllBelow(flats + ear, n) && AllBelow(Without(work, k), n)
    {
      hide Prev, Next;
    }

    lemma CountLeft(n: nat)
      requires Conserved(n)
      ensures |triangles| / 3 + |flatEars| / 3 + |workPolygon| == n
    {}

    ghost function Corners(): (r: seq<Vec3>)
      requires forall i | 0 <= i < |orgPolygon| :: 0 <= orgPolygon[i] < |vertices|
      reads `orgPolygon
    {
      CornersOf(vertices, orgPolygon)
    }

    /** The cross products of successive corners, seen from the first, add up to the polygon's area vector. */
    method SumCorners()
      requires Fits() && |orgPolygon| >= 3
      modifies `ccs
      ensures HasArea(Corners(), ccs, |orgPolygon|)
    {
      hide Cross, Sub, Add, HasArea;
      ghost var corners := Corners();
      var n := |orgPolygon|;
      ccs := ZERO3;
      var o := Vertex(0);
      AreaStarts(corners);
      var i := 1;
      while i < n - 1
        invariant 1 <= i <= n - 1
        invariant HasArea(corners, ccs, i + 1)
      {
        Unwrapped(i + 1, n);
        AreaGrows(corners, i, ccs);
        ccs := Add(ccs, Cross(Sub(Vertex(i), o), Sub(Vertex((i + 1) % n), o)));
        i := i + 1;
      }
    }
  }

  ghost predicate Ascending(s: seq<int>) {
    forall i, j | 0 <= i < j < |s| :: s[i] < s[j]
  }

  lemma AscendingWithout(s: seq<int>, k: nat)
    requires k < |s| && Ascending(s)
    ensures Ascending(Without(s, k))
  {
    var t := Without(s, k);
    assert forall i | 0 <= i < |t| :: t[i] == s[if i < k then i else i + 1];
  }

  lemma SameFromAllCorners(a: Vec3, b: Vec3, c: Vec3)
    ensures Cross(Sub(c, b), Sub(a, b)) == Cross(Sub(b, a), Sub(c, a)) == Cross(Sub(a, c), Sub(b, c))
  {
    hide Cross;
    CornerCross(c, a, b);
    CornerCross(b, c, a);
    CornerCross(a, b, c);
  }

  lemma PositiveShare(k: real, t: real)
    requires t > 0.0
    ensures Product(k, t) > 0.0 <==> k > 0.0
  {}

  /** Seen from a mean of three corners, the first two span the share of the third. */
  lemma MeanShare(a: Vec3, b: Vec3, c: Vec3, p: Vec3, x: real, y: real, z: real, u: Vec3)
    requires x + y + z == 1.0 && p == Add(Add(Scale(x, a), Scale(y, b)), Scale(z, c))
    ensures Dot(Cross(Sub(a, p), Sub(b, p)), u) == Product(z, Dot(u, Cross(Sub(b, a), Sub(c, a))))
  {
    hide Cross, Dot, Scale, Product;
    var e, f := Sub(b, a), Sub(c, a);
    var d := Add(Scale(y, e), Scale(z, f));
    MeanOffset(a, b, c, x, y, z);
    assert Sub(a, p) == Neg(d) && Sub(b, p) == Sub(e, d);
    CrossSub(Neg(d), e, d);
    CrossTurns(Neg(d), d);
    CrossNeg(d, d);
    SelfCross(d);
    CrossTurns(Neg(d), e);
    CrossNeg(e, d);
    CrossAdd(e, Scale(y, e), Scale(z, f));
    CrossScale(e, y, e);
    CrossScale(e, z, f);
    SelfCross(e);
    ScaleZero(y);
    DotComm(Cross(Sub(a, p), Sub(b, p)), u);
    DotScale(u, z, Cross(e, f));
  }

  lemma MeanOffset(a: Vec3, b: Vec3, c: Vec3, x: real, y: real, z: real)
    requires x + y + z == 1.0
    ensures Sub(Add(Add(Scale(x, a), Scale(y, b)), Scale(z, c)), a)
         == Add(Scale(y, Sub(b, a)), Scale(z, Sub(c, a)))
  {
    hide Product;
    MeanComponent(a.x, b.x, c.x, x, y, z);
    MeanComponent(a.y, b.y, c.y, x, y, z);
    MeanComponent(a.z, b.z, c.z, x, y, z);
  }

  lemma MeanComponent(a: real, b: real, c: real, x: real, y: real, z: real)
    requires x + y + z == 1.0
    ensures Product(x, a) + Product(y, b) + Product(z, c) - a == Product(y, b - a) + Product(z, c - a)
  {
    hide Product;
    ProductSub(y, b, a);
    ProductSub(z, c, a);
    ProductAdd(x, y, a);
    ProductAdd(x + y, z, a);
    ProductAdd(x, y, a);
    assert Product(x + y + z, a) == Product(x, a) + Product(y, a) + Product(z, a);
    ProductUnits(a);
  }

  /** Corners i, j and k turn the way that u says. */
  ghost predicate TurnsThrough(corners: seq<Vec3>, u: Vec3, i: int, j: int, k: int) {
    0 <= i < |corners| && 0 <= j < |corners| && 0 <= k < |corners|
      && Dot(u, Cross(Sub(corners[j], corners[i]), Sub(corners[k], corners[i]))) > 0.0
  }

  /** Every three corners, in their order, turn the way that u says. */
  ghost predicate ConvexCorners(corners: seq<Vec3>, u: Vec3) {
    forall i, j, k | 0 <= i < j < k < |corners| :: TurnsThrough(corners, u, i, j, k)
  }

  /** What turns one way seen from a turns the other way seen from p. */
  lemma SeenFromOutside(a: Vec3, c: Vec3, p: Vec3)
    ensures Cross(Sub(c, p), Sub(a, p)) == Neg(Cross(Sub(c, a), Sub(p, a)))
  {
    hide Cross;
    CornerCross(c, a, p);
    CornerCross(c, p, a);
    CrossTurns(c, a);
    CrossTurns(a, p);
    CrossTurns(p, c);
  }

  lemma Unwrapped(i: nat, n: nat)
    requires i < n
    ensures i % n == i
  {}

  ghost function CornersOf(vertices: seq<Vec3>, polygon: seq<int>): (r: seq<Vec3>)
    requires forall i | 0 <= i < |polygon| :: 0 <= polygon[i] < |vertices|
    ensures |r| == |polygon| && forall i | 0 <= i < |r| :: r[i] == vertices[polygon[i]]
  {
    seq(|polygon|, i requires 0 <= i < |polygon| => vertices[polygon[i]])
  }

  // ---- areas ----

  /** The oriented area that an edge sweeps over, seen along u. */
  ghost function Through(corners: seq<Vec3>, u: Vec3): (int, int) -> real {
    (i, j) => if 0 <= i < |corners| && 0 <= j < |corners| then Dot(u, Cross(corners[i], corners[j])) else 0.0
  }

  /** The area between two corners and o, by their cross products alone. */
  lemma CornerCross(a: Vec3, b: Vec3, o: Vec3)
    ensures Cross(Sub(a, o), Sub(b, o)) == Add(Cross(a, b), Add(Cross(b, o), Cross(o, a)))
  {
    hide Cross;
    var p, q := Sub(a, o), Sub(b, o);
    CrossSub(p, b, o);
    CrossTurns(p, b);
    CrossTurns(p, o);
    CrossSub(b, a, o);
    CrossSub(o, a, o);
    CrossTurns(a, b);
    CrossTurns(o, o);
  }

  lemma ThroughAntisymmetric(corners: seq<Vec3>, u: Vec3)
    ensures Antisymmetric(Through(corners, u))
  {
    hide Cross, Neg, Dot;
    var g := Through(corners, u);
    forall i, j ensures g(i, j) == -g(j, i) {
      if 0 <= i < |corners| && 0 <= j < |corners| {
        CrossTurns(corners[i], corners[j]);
        DotNeg(u, Cross(corners[j], corners[i]));
      }
    }
  }

  /** The vector v is the area vector of the polygon of the first m corners. */
  ghost predicate HasArea(corners: seq<Vec3>, v: Vec3, m: nat) {
    forall u: Vec3 :: Dot(u, v) == Boundary(Through(corners, u), Upto(m))
  }

  lemma AreaStarts(corners: seq<Vec3>)
    requires |corners| >= 3
    ensures HasArea(corners, ZERO3, 2)
  {
    hide Dot, Cross;
    forall u: Vec3 ensures Dot(u, ZERO3) == Boundary(Through(corners, u), Upto(2)) {
      DotZero(u);
      ThroughAntisymmetric(corners, u);
      var g := Through(corners, u);
      Turned(g, 0, 1);
      assert Upto(2)[..1] == [0];
      assert Open(g, Upto(2)) == Open(g, [0]) + g(0, 1);
    }
  }

  lemma AreaGrows(corners: seq<Vec3>, i: nat, before: Vec3)
    requires 1 <= i && i + 1 < |corners| && HasArea(corners, before, i + 1)
    ensures HasArea(corners, Add(before, Cross(Sub(corners[i], corners[0]), Sub(corners[i + 1], corners[0]))), i + 2)
  {
    hide Dot, Cross, Add, Sub;
    forall u: Vec3
      ensures Dot(u, Add(before, Cross(Sub(corners[i], corners[0]), Sub(corners[i + 1], corners[0]))))
           == Boundary(Through(corners, u), Upto(i + 2))
    {
      AreaGrowsAlong(corners, u, i, before);
    }
  }

  lemma AreaGrowsAlong(corners: seq<Vec3>, u: Vec3, i: nat, before: Vec3)
    requires 1 <= i && i + 1 < |corners| && Dot(u, before) == Boundary(Through(corners, u), Upto(i + 1))
    ensures Dot(u, Add(before, Cross(Sub(corners[i], corners[0]), Sub(corners[i + 1], corners[0]))))
         == Boundary(Through(corners, u), Upto(i + 2))
  {
    hide Dot, Cross, Add, Sub;
    var g, o, a, b := Through(corners, u), corners[0], corners[i], corners[i + 1];
    CornerCross(a, b, o);
    DotAdd(u, before, Add(Cross(a, b), Add(Cross(b, o), Cross(o, a))));
    DotAdd(u, Cross(a, b), Add(Cross(b, o), Cross(o, a)));
    DotAdd(u, Cross(b, o), Cross(o, a));
    ThroughAntisymmetric(corners, u);
    Turned(g, i, 0);
    var p, q := Upto(i + 1), Upto(i + 2);
    assert q[..i + 1] == p;
    assert Open(g, q) == Open(g, p) + g(i, i + 1);
    assert Boundary(g, p) == Open(g, p) + g(i, 0) && Boundary(g, q) == Open(g, q) + g(i + 1, 0);
  }

  /** The area vectors of triangles, added up. */
  ghost function Area(corners: seq<Vec3>, t: seq<int>): Vec3
    requires |t| % 3 == 0
  {
    if t == [] then ZERO3
    else
      var n := |t|;
      var a, b, c := t[n - 3], t[n - 2], t[n - 1];
      if 0 <= a < |corners| && 0 <= b < |corners| && 0 <= c < |corners| then
        Add(Area(corners, t[..n - 3]), Cross(Sub(corners[b], corners[a]), Sub(corners[c], corners[a])))
      else
        Area(corners, t[..n - 3])
  }

  lemma {:induction false} AreaThrough(corners: seq<Vec3>, t: seq<int>, u: Vec3)
    requires |t| % 3 == 0 && forall i | 0 <= i < |t| :: 0 <= t[i] < |corners|
    ensures Dot(u, Area(corners, t)) == TriangleEdges(Through(corners, u), t)
  {
    hide Dot, Cross, Add, Sub;
    if t == [] {
      DotZero(u);
    } else {
      var n := |t|;
      AreaThrough(corners, t[..n - 3], u);
      var a, b, c := corners[t[n - 3]], corners[t[n - 2]], corners[t[n - 1]];
      CornerCross(b, c, a);
      DotAdd(u, Area(corners, t[..n - 3]), Add(Cross(b, c), Add(Cross(c, a), Cross(a, b))));
      DotAdd(u, Cross(b, c), Add(Cross(c, a), Cross(a, b)));
      DotAdd(u, Cross(c, a), Cross(a, b));
    }
  }

  lemma UnitDots(v: Vec3)
    ensures Dot(Vec3(1.0, 0.0, 0.0), v) == v.x && Dot(Vec3(0.0, 1.0, 0.0), v) == v.y
    ensures Dot(Vec3(0.0, 0.0, 1.0), v) == v.z
  {
    hide Product;
    ProductUnits(v.x);
    ProductUnits(v.y);
    ProductUnits(v.z);
  }

  /** A polygon cut up completely: the area vectors of its pieces add up to its own. */
  lemma AreasAddUp(corners: seq<Vec3>, ccs: Vec3, triangles: seq<int>, flatEars: seq<int>, left: seq<int>)
    requires ConservedIn(triangles, flatEars, left, |corners|) && HasArea(corners, ccs, |corners|) && |left| == 2
    ensures Add(Area(corners, triangles), Area(corners, flatEars)) == ccs
  {
    hide Dot, HasArea, Area, Through, Antisymmetric;
    var sum := Add(Area(corners, triangles), Area(corners, flatEars));
    forall u: Vec3 ensures Dot(u, sum) == Dot(u, ccs) {
      AreasAddUpAlong(corners, ccs, triangles, flatEars, left, u);
    }
    UnitDots(sum);
    UnitDots(ccs);
  }

  lemma AreasAddUpAlong(corners: seq<Vec3>, ccs: Vec3, triangles: seq<int>, flatEars: seq<int>, left: seq<int>, u: Vec3)
    requires ConservedIn(triangles, flatEars, left, |corners|) && HasArea(corners, ccs, |corners|) && |left| == 2
    ensures Dot(u, Add(Area(corners, triangles), Area(corners, flatEars))) == Dot(u, ccs)
  {
    hide Dot, Area, Through, Antisymmetric, Add;
    var g := Through(corners, u);
    ThroughAntisymmetric(corners, u);
    AreaThrough(corners, triangles, u);
    AreaThrough(corners, flatEars, u);
    DotAdd(u, Area(corners, triangles), Area(corners, flatEars));
    Turned(g, left[0], left[1]);
    assert Open(g, left[..1]) == 0.0;
  }
}
