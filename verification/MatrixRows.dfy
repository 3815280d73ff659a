/** The rows of the acceleration matrix: one for each direction of each constraint point, in the order in
    which the solver measures them, and that they fill the matrix. */
module MatrixRows {
  import opened LinearAlgebra
  import opened Links
  import opened Counting
  import opened ConstraintMatrix
  import opened AccelerationMatrix
  import opened ContactIndices

  /** The normal of a constraint point, then its friction vectors. */
  function DirectionsAt(e0: End, e1: End, c: ConstraintPoint, n: nat): seq<Direction> {
    [Direction(Row(e0, e1, c.point, c.normal), c.globalIndex)]
    + seq(c.numFrictionVectors, l requires 0 <= l =>
        Direction(Row(e0, e1, c.point, c.FrictionVector(l)), n + c.globalFrictionIndex + l))
  }

  function PairDirections(e0: End, e1: End, points: seq<ConstraintPoint>, n: nat)
    : seq<Direction>
  {
    if points == [] then []
    else
      var k := |points| - 1;
      PairDirections(e0, e1, points[..k], n) + DirectionsAt(e0, e1, points[k], n)
  }

  /** All the directions, pair by pair and point by point, for n normal and connection rows. */
  function Directions(pairs: seq<LinkPair>, n: nat): seq<Direction>
    reads pairs`constraintPoints
  {
    if pairs == [] then []
    else
      var k := |pairs| - 1;
      Directions(pairs[..k], n)
      + PairDirections(pairs[k].end0, pairs[k].end1, pairs[k].constraintPoints, n)
  }

  // ---- their places ----

  function IndexList(dirs: seq<Direction>): (r: seq<int>)
    ensures |r| == |dirs|
  {
    seq(|dirs|, i requires 0 <= i < |dirs| => dirs[i].index)
  }

  function IndicesAt(c: ConstraintPoint, n: nat): seq<int> {
    [c.globalIndex] + seq(c.numFrictionVectors, l => n + c.globalFrictionIndex + l)
  }

  function PointIndices(points: seq<ConstraintPoint>, n: nat): seq<int> {
    if points == [] then [] else PointIndices(points[..|points| - 1], n) + IndicesAt(points[|points| - 1], n)
  }

  lemma {:induction false} PointIndicesAppend(a: seq<ConstraintPoint>, b: seq<ConstraintPoint>, n: nat)
    ensures PointIndices(a + b, n) == PointIndices(a, n) + PointIndices(b, n)
  {
    hide IndicesAt;
    if b == [] {
      assert a + b == a;
    } else {
      var front, last := b[..|b| - 1], b[|b| - 1];
      PointIndicesAppend(a, front, n);
      assert (a + b)[..|a + b| - 1] == a + front && (a + b)[|a + b| - 1] == last;
      AppendTwice(PointIndices(a, n), PointIndices(front, n), IndicesAt(last, n));
    }
  }

  lemma AppendTwice(a: seq<int>, b: seq<int>, c: seq<int>)
    ensures (a + b) + c == a + (b + c)
  {}

  lemma {:induction false} PairIndices(e0: End, e1: End, points: seq<ConstraintPoint>, n: nat)
    ensures IndexList(PairDirections(e0, e1, points, n)) == PointIndices(points, n)
  {
    if points != [] {
      var k := |points| - 1;
      PairIndices(e0, e1, points[..k], n);
      assert IndexList(DirectionsAt(e0, e1, points[k], n)) == IndicesAt(points[k], n);
    }
  }

  lemma {:induction false} AllIndices(pairs: seq<LinkPair>, n: nat)
    ensures IndexList(Directions(pairs, n)) == PointIndices(AllPoints(pairs), n)
  {
    if pairs != [] {
      var k := |pairs| - 1;
      AllIndices(pairs[..k], n);
      PairIndices(pairs[k].end0, pairs[k].end1, pairs[k].constraintPoints, n);
      PointIndicesAppend(AllPoints(pairs[..k]), pairs[k].constraintPoints, n);
    }
  }

  lemma DistinctTogether(a: seq<int>, b: seq<int>)
    requires Distinct(a) && Distinct(b) && forall j | 0 <= j < |b| :: b[j] !in a
    ensures Distinct(a + b)
  {}

  /** The first k points take the first k rows, and the first k contacts two friction rows each. */
  lemma {:induction false} PrefixPlaces(points: seq<ConstraintPoint>, contacts: nat, k: nat)
    requires k <= |points| && contacts <= |points|
    requires ContactRows(points[..contacts], 0, 0) && ConnectionRows(points[contacts..], contacts)
    ensures var idx, m := PointIndices(points[..k], |points|), if k < contacts then k else contacts;
      && |idx| == k + 2 * m && Distinct(idx)
      && forall x :: x in idx <==> 0 <= x < k || |points| <= x < |points| + 2 * m
  {
    if k > 0 {
      var n := |points|;
      PrefixPlaces(points, contacts, k - 1);
      var c := points[k - 1];
      assert points[..k][..k - 1] == points[..k - 1];
      if k - 1 < contacts {
        assert c == points[..contacts][k - 1];
        assert IndicesAt(c, n) == [k - 1, n + 2 * (k - 1), n + 2 * (k - 1) + 1];
      } else {
        assert c == points[contacts..][k - 1 - contacts];
        assert IndicesAt(c, n) == [k - 1];
      }
      DistinctTogether(PointIndices(points[..k - 1], n), IndicesAt(c, n));
    }
  }

  /** The rows that a frame's contacts and connections are given fill the matrix, one each. */
  lemma IndexedPlaces(solver: ContactSolver, contacts: nat)
    requires solver.Indexed(contacts)
    ensures Places(Directions(solver.constrainedLinkPairs, solver.globalNumConstraintVectors),
                   solver.globalNumConstraintVectors + solver.globalNumFrictionVectors)
  {
    var points, n := AllPoints(solver.constrainedLinkPairs), solver.globalNumConstraintVectors;
    var dirs := Directions(solver.constrainedLinkPairs, n);
    AllIndices(solver.constrainedLinkPairs, n);
    PrefixPlaces(points, contacts, n);
    assert points[..n] == points;
    IndicesArePlaces(dirs, PointIndices(points, n), n + 2 * contacts);
  }

  lemma IndicesArePlaces(dirs: seq<Direction>, idx: seq<int>, n: nat)
    requires IndexList(dirs) == idx && |idx| == n && Distinct(idx) && forall x :: x in idx <==> 0 <= x < n
    ensures Places(dirs, n)
  {
    forall i | 0 <= i < n ensures dirs[i].index == idx[i] && 0 <= dirs[i].index < n {
      assert dirs[i].index == IndexList(dirs)[i];
      assert idx[i] in idx;
    }
    forall k | 0 <= k < n ensures Filled(dirs, k) {
      assert k in idx;
      var i :| 0 <= i < n && idx[i] == k;
      assert dirs[i].index == k;
    }
  }
}
