/** The two directions in which a contact resists sliding: across its normal and across each other. */
module FrictionVectors {
  import opened LinearAlgebra
  import opened Roots
  import opened Rotation

  function Magnitude(a: real): real { if a < 0.0 then -a else a }

  function Component(a: Vec3, i: int): real { if i == 0 then a.x else if i == 1 then a.y else a.z }

  function Unit(i: int): Vec3 {
    if i == 0 then Vec3(1.0, 0.0, 0.0) else if i == 1 then Vec3(0.0, 1.0, 0.0) else Vec3(0.0, 0.0, 1.0)
  }

  /** The first of the axes along which a vector is shortest. */
  predicate IsMinAxis(n: Vec3, i: int) {
    && 0 <= i < 3
    && (forall k | 0 <= k < 3 :: Magnitude(Component(n, i)) <= Magnitude(Component(n, k)))
    && (forall k | 0 <= k < i :: Magnitude(Component(n, i)) < Magnitude(Component(n, k)))
  }

  method MinAxis(n: Vec3) returns (minAxis: int)
    ensures IsMinAxis(n, minAxis)
  {
    minAxis := 0;
    for i := 1 to 3
      invariant 0 <= minAxis < i
      invariant forall k | 0 <= k < i :: Magnitude(Component(n, minAxis)) <= Magnitude(Component(n, k))
      invariant forall k | 0 <= k < minAxis :: Magnitude(Component(n, minAxis)) < Magnitude(Component(n, k))
    {
      if Magnitude(Component(n, i)) < Magnitude(Component(n, minAxis)) {
        minAxis := i;
      }
    }
  }

  /** A vector scaled to length one, if it has a length. */
  function Normalized(a: Vec3, sqrt: real -> real): Vec3 {
    var len := sqrt(Dot(a, a));
    if len == 0.0 then a else Scale(1.0 / len, a)
  }

  /** Of length one, across the normal and across each other. */
  ghost predicate Frame(n: Vec3, t1: Vec3, t2: Vec3) {
    && Dot(t1, t1) == 1.0 && Dot(t2, t2) == 1.0
    && Dot(n, t1) == 0.0 && Dot(n, t2) == 0.0 && Dot(t1, t2) == 0.0
  }

  lemma SquareOfLength(a: Vec3)
    ensures Dot(a, a) >= 0.0 && (Dot(a, a) == 0.0 <==> a == ZERO3)
  {
    hide Product;
    SquarePositive(a.x);
    SquarePositive(a.y);
    SquarePositive(a.z);
    ProductUnits(0.0);
  }

  lemma NormalizedIsUnit(a: Vec3, n: Vec3, sqrt: real -> real)
    requires IsSqrt(sqrt) && a != ZERO3
    ensures Dot(Normalized(a, sqrt), Normalized(a, sqrt)) == 1.0
    ensures Dot(n, a) == 0.0 ==> Dot(n, Normalized(a, sqrt)) == 0.0
  {
    hide Product, Dot, Scale;
    SquareOfLength(a);
    var s := Dot(a, a);
    var len := sqrt(s);
    assert Product(len, len) == s && len >= 0.0;
    ProductUnits(len);
    var k := 1.0 / len;
    DivideBack(1.0, len);
    DotScale(n, k, a);
    ProductUnits(k);
    var u := Scale(k, a);
    DotScale(u, k, a);
    DotComm(u, a);
    DotScale(a, k, a);
    ProductAssoc(k, len, len);
    ProductUnits(len);
  }

  /** Across the axis along which it is shortest a vector never vanishes. */
  lemma AcrossMinAxis(n: Vec3, i: int)
    requires n != ZERO3 && IsMinAxis(n, i)
    ensures Cross(n, Unit(i)) != ZERO3
  {
    hide Product;
    assert Magnitude(Component(n, i)) <= Magnitude(Component(n, 0));
    assert Magnitude(Component(n, i)) <= Magnitude(Component(n, 1));
    assert Magnitude(Component(n, i)) <= Magnitude(Component(n, 2));
    ProductUnits(n.x);
    ProductUnits(n.y);
    ProductUnits(n.z);
  }

  /** The cross product of vectors across each other vanishes only with one of them. */
  lemma CrossNeverVanishes(n: Vec3, t: Vec3)
    requires n != ZERO3 && Dot(t, t) == 1.0 && Dot(n, t) == 0.0
    ensures Cross(n, t) != ZERO3
  {
    hide Product, Cross, Dot;
    DotComm(n, t);
    CrossTwice(t, n);
    CrossTurns(n, t);
    CrossZero(t);
  }

  lemma FrictionPairFrames(normal: Vec3, sqrt: real -> real)
    requires IsSqrt(sqrt) && normal != ZERO3
    ensures var t := FrictionPair(normal, sqrt); Frame(normal, t.0, t.1)
  {
    hide Dot, Cross, Normalized, Frame;
    PairIsFrame(normal, MinAxisOf(normal), sqrt);
  }

  /** The friction vectors of a contact, as its first link sees them, from its normal there. */
  method SetFrictionVectors(normal: Vec3, sqrt: real -> real) returns (t1: Vec3, t2: Vec3)
    ensures IsSqrt(sqrt) && normal != ZERO3 ==> Frame(normal, t1, t2)
    ensures (t1, t2) == FrictionPair(normal, sqrt)
  {
    hide Dot, Cross, Normalized;
    var minAxis := MinAxis(normal);
    MinAxisUnique(normal, minAxis);
    var u := Unit(minAxis);
    t1 := Normalized(Cross(normal, u), sqrt);
    t2 := Normalized(Cross(normal, t1), sqrt);
    if IsSqrt(sqrt) && normal != ZERO3 {
      PairIsFrame(normal, minAxis, sqrt);
    }
  }

  function MinAxisOf(n: Vec3): (i: int)
    ensures IsMinAxis(n, i)
  {
    var x, y, z := Magnitude(n.x), Magnitude(n.y), Magnitude(n.z);
    if x <= y && x <= z then 0 else if y < x && y <= z then 1 else 2
  }

  lemma MinAxisUnique(n: Vec3, i: int)
    requires IsMinAxis(n, i)
    ensures i == MinAxisOf(n)
  {
    var j := MinAxisOf(n);
    assert i < j ==> Magnitude(Component(n, j)) < Magnitude(Component(n, i));
    assert j < i ==> Magnitude(Component(n, i)) < Magnitude(Component(n, j));
  }

  function FrictionPair(normal: Vec3, sqrt: real -> real): (Vec3, Vec3) {
    var t1 := Normalized(Cross(normal, Unit(MinAxisOf(normal))), sqrt);
    (t1, Normalized(Cross(normal, t1), sqrt))
  }

  lemma PairIsFrame(normal: Vec3, i: int, sqrt: real -> real)
    requires IsSqrt(sqrt) && normal != ZERO3 && IsMinAxis(normal, i)
    ensures var t1 := Normalized(Cross(normal, Unit(i)), sqrt);
      Frame(normal, t1, Normalized(Cross(normal, t1), sqrt))
  {
    hide Dot, Cross, Normalized;
    AcrossMinAxis(normal, i);
    var a := Cross(normal, Unit(i));
    DotCross(normal, Unit(i));
    NormalizedIsUnit(a, normal, sqrt);
    var t1 := Normalized(a, sqrt);
    CrossNeverVanishes(normal, t1);
    var b := Cross(normal, t1);
    DotCross(normal, t1);
    DotCross(t1, normal);
    CrossTurns(normal, t1);
    DotNeg(t1, Cross(t1, normal));
    NormalizedIsUnit(b, normal, sqrt);
    NormalizedIsUnit(b, t1, sqrt);
  }
}
