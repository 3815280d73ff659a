/** Which links the outbound pass of the constraint solver may skip: each link's number is the least
    constraint index in its subtree, although the loop that sets the numbers stops early. */
module SkipNumbers {
  import opened Links
  import opened TestForce
  import opened ConstraintForces

  /** A constraint that acts on a link of a body. */
  datatype Mark = Mark(body: BodyData, link: int, index: int)

  /** The constrained pair of links, with the global index of its first constraint point. */
  datatype LinkPair = LinkPair(body0: BodyData, link0: int, body1: BodyData, link1: int, constraintIndex: int)

  ghost predicate Inside(m: Mark, i: int)
  {
    && m.body.tree.Valid() && m.body.tree.IsLink(m.link) && OnPath(m.body.tree, m.link, i)
  }

  /** The least index among the marks on links of the subtree of link i of body b. */
  ghost function Least(marks: seq<Mark>, b: BodyData, i: int): int {
    if marks == [] then INT_MAX
    else
      var m, rest := marks[|marks| - 1], Least(marks[..|marks| - 1], b, i);
      if m.body == b && Inside(m, i) && m.index < rest then m.index else rest
  }

  /** Least is the minimum: no mark in the subtree is below it, and it is one of them, if any. */
  lemma {:induction false} LeastIsMinimum(marks: seq<Mark>, b: BodyData, i: int)
    ensures forall k | 0 <= k < |marks| && marks[k].body == b && Inside(marks[k], i) ::
              Least(marks, b, i) <= marks[k].index
    ensures Least(marks, b, i) == INT_MAX
         || exists k | 0 <= k < |marks| ::
              marks[k].body == b && Inside(marks[k], i) && marks[k].index == Least(marks, b, i)
  {
    if marks != [] {
      LeastIsMinimum(marks[..|marks| - 1], b, i);
    }
  }

  /** A parent's subtree holds its child's, so its number is no greater. */
  lemma {:induction false} LeastOfParent(marks: seq<Mark>, b: BodyData, i: int)
    requires b.tree.Valid() && 0 < i < |b.tree.parent|
    ensures Least(marks, b, b.tree.parent[i]) <= Least(marks, b, i)
  {
    if marks != [] {
      var m := marks[|marks| - 1];
      LeastOfParent(marks[..|marks| - 1], b, i);
      if m.body == b && Inside(m, i) {
        ParentOnPath(b.tree, m.link, i);
      }
    }
  }

  ghost function Numbers(linksData: seq<LinkData>): (n: seq<int>)
    reads linksData`numberToCheckAccelCalcSkip
    ensures |n| == |linksData| && forall j | 0 <= j < |linksData| :: n[j] == linksData[j].numberToCheckAccelCalcSkip
  {
    if linksData == [] then []
    else Numbers(linksData[..|linksData| - 1]) + [linksData[|linksData| - 1].numberToCheckAccelCalcSkip]
  }

  ghost predicate Monotone(t: Shape, n: seq<int>)
    requires t.Valid() && |n| == |t.parent|
  {
    forall i | 0 < i < |n| :: n[t.parent[i]] <= n[i]
  }

  lemma {:induction false} MonotoneOnPath(t: Shape, n: seq<int>, i: int, j: int)
    requires t.Valid() && |n| == |t.parent| && Monotone(t, n) && t.IsLink(i) && OnPath(t, i, j)
    ensures 0 <= j < |n| && n[j] <= n[i]
    decreases i
  {
    PathDescends(t, i, j);
    if i != j {
      MonotoneOnPath(t, n, t.parent[i], j);
    }
  }

  function Lower(old_: int, c: int): int { if c < old_ then c else old_ }

  /** The numbers after the first part of the way from link l to the root has been lowered. */
  ghost predicate LoweredAbove(linksData: seq<LinkData>, n0: seq<int>, t: Shape, l: int, c: int, i: int)
    requires t.Valid() && t.IsLink(l) && |linksData| == |n0| == |t.parent|
    reads linksData`numberToCheckAccelCalcSkip
  {
    forall j | 0 <= j < |n0| ::
      linksData[j].numberToCheckAccelCalcSkip == if j > i && OnPath(t, l, j) then Lower(n0[j], c) else n0[j]
  }

  /** The loop of setAccelCalcSkipInformation for one end of a pair. It stops at the first link that
      is already lower, and still lowers every link up to the root. */
  method MarkToRoot(body: BodyData, l: int, constraintIndex: int)
    requires body.Valid() && 0 <= l < |body.linksData|
    requires Monotone(body.tree, Numbers(body.linksData))
    modifies body.linksData`numberToCheckAccelCalcSkip
    ensures LoweredAbove(body.linksData, old(Numbers(body.linksData)), body.tree, l, constraintIndex, -1)
  {
    hide Represents, BodyData.Aligned, OnPath;
    ValidParts(body);
    ghost var t, n0 := body.tree, Numbers(body.linksData);
    var linkIndex := l;
    PathStarts(t, l);
    while linkIndex >= 0
      invariant -1 <= linkIndex < |n0|
      invariant linkIndex >= 0 ==> OnPath(t, l, linkIndex)
      invariant forall j | linkIndex >= 0 && 0 <= j <= linkIndex :: OnPath(t, l, j) <==> OnPath(t, linkIndex, j)
      invariant LoweredAbove(body.linksData, n0, t, l, constraintIndex, linkIndex)
    {
      body.DataOf(linkIndex);
      PointersOf(body.traverse, t, linkIndex);
      var linkData := body.linksData[linkIndex];
      if linkData.numberToCheckAccelCalcSkip < constraintIndex {
        forall j | 0 <= j <= linkIndex && OnPath(t, l, j)
          ensures Lower(n0[j], constraintIndex) == n0[j]
        {
          MonotoneOnPath(t, n0, linkIndex, j);
        }
        break;
      }
      PathStepUp(t, linkIndex);
      linkData.numberToCheckAccelCalcSkip := constraintIndex;
      linkIndex := linkData.parentIndex;
    }
  }

  // ---- all bodies and all pairs ----

  ghost function DataOfAll(bodies: seq<BodyData>): (r: set<LinkData>)
    ensures forall b, d | b in bodies && d in b.linksData :: d in r
  {
    set b, d | b in bodies && d in b.linksData :: d
  }

  /** No two of the bodies share link data. */
  ghost predicate Separate(bodies: seq<BodyData>) {
    forall i, j, k | 0 <= i < |bodies| && 0 <= j < |bodies| && bodies[i] != bodies[j]
        && 0 <= k < |bodies[i].linksData| ::
      bodies[i].linksData[k] !in bodies[j].linksData
  }

  /** The numbers of a body are the least indices of the marks so far. */
  ghost predicate Numbered(b: BodyData, marks: seq<Mark>)
    reads b.linksData`numberToCheckAccelCalcSkip
  {
    forall i | 0 <= i < |b.linksData| :: b.linksData[i].numberToCheckAccelCalcSkip == Least(marks, b, i)
  }

  /** The marks of the pairs, two for each. */
  ghost function Marks(pairs: seq<LinkPair>): seq<Mark> {
    if pairs == [] then []
    else
      var p := pairs[|pairs| - 1];
      Marks(pairs[..|pairs| - 1]) + [Mark(p.body0, p.link0, p.constraintIndex)]
          + [Mark(p.body1, p.link1, p.constraintIndex)]
  }

  ghost predicate PairFits(bodies: seq<BodyData>, p: LinkPair)
    reads bodies`hasConstrainedLinks
  {
    && p.body0 in bodies && p.body0.hasConstrainedLinks && 0 <= p.link0 < |p.body0.linksData|
    && p.body1 in bodies && p.body1.hasConstrainedLinks && 0 <= p.link1 < |p.body1.linksData|
  }

  lemma NumberedMonotone(b: BodyData, marks: seq<Mark>)
    requires b.Valid() && Numbered(b, marks)
    ensures b.tree.Valid() && |b.linksData| == |b.tree.parent|
    ensures Monotone(b.tree, Numbers(b.linksData))
  {
    ValidParts(b);
    forall i | 0 < i < |b.linksData|
      ensures Least(marks, b, b.tree.parent[i]) <= Least(marks, b, i)
    {
      LeastOfParent(marks, b, i);
    }
  }

  /** Marking one end of a pair adds its mark, in its own body and in every other. */
  method MarkEnd(bodies: seq<BodyData>, ghost marks: seq<Mark>, body: BodyData, l: int, c: int)
    requires Separate(bodies) && body in bodies && body.Valid() && 0 <= l < |body.linksData|
    requires forall b | b in bodies && b.hasConstrainedLinks :: Numbered(b, marks)
    requires body.hasConstrainedLinks
    modifies body.linksData`numberToCheckAccelCalcSkip
    ensures forall b | b in bodies && b.hasConstrainedLinks :: Numbered(b, marks + [Mark(body, l, c)])
  {
    hide BodyData.Aligned, OnPath, Represents;
    ghost var n0 := Numbers(body.linksData);
    NumberedMonotone(body, marks);
    ValidParts(body);
    MarkToRoot(body, l, c);
    ghost var more := marks + [Mark(body, l, c)];
    assert more[..|more| - 1] == marks;
    forall b | b in bodies && b.hasConstrainedLinks
      ensures Numbered(b, more)
    {
      if b == body {
        MarkAdds(marks, body, l, c);
      } else {
        OthersUntouched(bodies, body, b);
        forall i | 0 <= i < |b.linksData|
          ensures b.linksData[i].numberToCheckAccelCalcSkip == Least(more, b, i)
        {
          assert b.linksData[i] !in body.linksData;
        }
      }
    }
  }

  lemma MarkAdds(marks: seq<Mark>, body: BodyData, l: int, c: int)
    requires body.tree.Valid() && body.tree.IsLink(l)
    ensures forall i :: Least(marks + [Mark(body, l, c)], body, i)
                     == if OnPath(body.tree, l, i) then Lower(Least(marks, body, i), c) else Least(marks, body, i)
  {
    assert (marks + [Mark(body, l, c)])[..|marks|] == marks;
  }

  lemma OthersUntouched(bodies: seq<BodyData>, body: BodyData, b: BodyData)
    requires Separate(bodies) && body in bodies && b in bodies && b != body
    ensures forall i | 0 <= i < |b.linksData| :: b.linksData[i] !in body.linksData
  {
    var i :| 0 <= i < |bodies| && bodies[i] == b;
    var j :| 0 <= j < |bodies| && bodies[j] == body;
  }

  /** The loop that clears the numbers of one body. */
  method ClearNumbers(body: BodyData)
    requires body.Valid()
    modifies body.linksData`numberToCheckAccelCalcSkip
    ensures Numbered(body, [])
  {
    hide Represents, BodyData.Aligned;
    ValidParts(body);
    var j := 0;
    while j < |body.linksData|
      invariant 0 <= j <= |body.linksData|
      invariant forall i | 0 <= i < j :: body.linksData[i].numberToCheckAccelCalcSkip == INT_MAX
    {
      body.DataOf(j);
      body.linksData[j].numberToCheckAccelCalcSkip := INT_MAX;
      j := j + 1;
    }
  }

  method SetAccelCalcSkipInformation(bodies: seq<BodyData>, pairs: seq<LinkPair>)
    requires Separate(bodies) && forall i | 0 <= i < |bodies| :: bodies[i].Valid()
    requires forall k | 0 <= k < |pairs| :: PairFits(bodies, pairs[k])
    modifies DataOfAll(bodies)`numberToCheckAccelCalcSkip
    ensures forall b | b in bodies && b.hasConstrainedLinks :: Numbered(b, Marks(pairs))
  {
    hide BodyData.Valid, Separate, Numbered;
    ClearAllNumbers(bodies);
    var k := 0;
    while k < |pairs|
      invariant 0 <= k <= |pairs|
      invariant forall b | b in bodies && b.hasConstrainedLinks :: Numbered(b, Marks(pairs[..k]))
    {
      var p := pairs[k];
      assert PairFits(bodies, p);
      MarkEnd(bodies, Marks(pairs[..k]), p.body0, p.link0, p.constraintIndex);
      MarkEnd(bodies, Marks(pairs[..k]) + [Mark(p.body0, p.link0, p.constraintIndex)], p.body1, p.link1,
              p.constraintIndex);
      assert pairs[..k + 1][..k] == pairs[..k];
      k := k + 1;
    }
    assert pairs[..k] == pairs;
  }

  /** No link of a body that takes part is marked. */
  method ClearAllNumbers(bodies: seq<BodyData>)
    requires Separate(bodies) && forall i | 0 <= i < |bodies| :: bodies[i].Valid()
    modifies DataOfAll(bodies)`numberToCheckAccelCalcSkip
    ensures forall b | b in bodies && b.hasConstrainedLinks :: Numbered(b, [])
  {
    hide BodyData.Valid, Separate, Least, OnPath;
    var i := 0;
    while i < |bodies|
      invariant 0 <= i <= |bodies|
      invariant forall k | 0 <= k < i && bodies[k].hasConstrainedLinks :: Numbered(bodies[k], [])
    {
      if bodies[i].hasConstrainedLinks {
        ClearNumbers(bodies[i]);
      }
      forall k | 0 <= k < i && bodies[k] != bodies[i]
        ensures forall n | 0 <= n < |bodies[k].linksData| :: bodies[k].linksData[n] !in bodies[i].linksData
      {
        OthersUntouched(bodies, bodies[i], bodies[k]);
      }
      i := i + 1;
    }
  }
}
