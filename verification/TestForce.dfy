/** Why a test force need not rerun the inbound pass: adding a force to one link changes the
    biases along its path to the root only, and the walk along that path finds every change. */
module TestForce {
  import opened LinearAlgebra
  import opened Links
  import opened ArticulatedBody
  import opened SplitPasses

  /** What a change d of a link's bias changes in the uu of its joint. */
  function JointChange(y: LinkState, d: Spatial): real { -Inner(y.axis, d) }

  /** What a change d of a link's bias changes in the bias of its parent. */
  function PassOn(y: LinkState, d: Spatial): Spatial {
    if y.joint == FIXED_JOINT then d else Plus(d, Times(Over(JointChange(y, d), y.dd), y.hh))
  }

  /** The change that arrives at link j when the bias of link i changes by d. */
  ghost function BiasChange(t: Shape, z: seq<LinkState>, i: int, d: Spatial, j: int): Spatial
    requires Fits(t, z) && t.IsLink(i)
    decreases i
  {
    if i == j then d
    else if i == 0 then ZERO6
    else BiasChange(t, z, t.parent[i], PassOn(z[i], d), j)
  }

  /** The links with a force added to the external force of link i. */
  function WithForce(z: seq<LinkState>, i: int, f: Spatial): (r: seq<LinkState>)
    requires 0 <= i < |z|
    ensures |r| == |z|
  {
    z[i := z[i].(ext := Plus(z[i].ext, f))]
  }

  lemma {:induction false} OffPathUnchanged(t: Shape, z: seq<LinkState>, i: int, d: Spatial, j: int)
    requires Fits(t, z) && t.IsLink(i) && !OnPath(t, i, j)
    ensures BiasChange(t, z, i, d, j) == ZERO6
    decreases i
  {
    if i > 0 {
      OffPathUnchanged(t, z, t.parent[i], PassOn(z[i], d), j);
    }
  }

  /** A link on the path other than its start has exactly one child on the path, from which the
      change arrives. */
  lemma {:induction false} PathChild(t: Shape, z: seq<LinkState>, i: int, d: Spatial, j: int) returns (c: int)
    requires Fits(t, z) && t.IsLink(i) && t.IsLink(j) && OnPath(t, i, j) && i != j
    ensures j < c < |z| && t.parent[c] == j && OnPath(t, i, c)
    ensures BiasChange(t, z, i, d, j) == PassOn(z[c], BiasChange(t, z, i, d, c))
    ensures forall b | 0 < b < |z| && t.parent[b] == j && b != c :: !OnPath(t, i, b)
    decreases i
  {
    var up := t.parent[i];
    if up == j {
      c := i;
      forall b | 0 < b < |z| && t.parent[b] == j && b != c
        ensures !OnPath(t, i, b)
      {
        if OnPath(t, up, b) {
          PathDescends(t, up, b);
        }
      }
    } else {
      c := PathChild(t, z, up, PassOn(z[i], d), j);
      PathDescends(t, up, c);
    }
  }

  lemma PassOnNothing(y: LinkState)
    ensures PassOn(y, ZERO6) == ZERO6
  {
    hide Inner, Scale;
    InnerZero(y.axis);
    ScaleUnits(y.hh.v);
    ScaleUnits(y.hh.w);
    TimesZero(y.hh);
  }

  lemma InnerZero(a: Spatial)
    ensures Inner(a, ZERO6) == 0.0
  {
    hide Product;
    ProductUnits(a.v.x);
    ProductUnits(a.v.y);
    ProductUnits(a.v.z);
    ProductUnits(a.w.x);
    ProductUnits(a.w.y);
    ProductUnits(a.w.z);
  }

  lemma TimesZero(a: Spatial)
    ensures Times(0.0, a) == ZERO6
  {
    hide Scale;
    ScaleUnits(a.v);
    ScaleUnits(a.w);
  }

  /** A child whose bias and uu change by d and the matching joint change passes PassOn(d) on. */
  lemma ChildChange(acc: Spatial, y: LinkState, d: Spatial)
    ensures AddChildForceBias(acc, y.(bias := Plus(y.bias, d), uu := y.uu + JointChange(y, d)))
         == Plus(AddChildForceBias(acc, y), PassOn(y, d))
  {
    hide Plus, Over, JointChange, Times;
    var k, e := Over(y.uu, y.dd), Over(JointChange(y, d), y.dd);
    OverSum(y.uu, JointChange(y, d), y.dd);
    TimesSum(k, e, y.hh);
    PlusShuffle(acc, y.bias, d, Times(k, y.hh), Times(e, y.hh));
  }

  lemma PlusShuffle(acc: Spatial, b: Spatial, d: Spatial, t: Spatial, s: Spatial)
    ensures Plus(acc, Plus(b, d)) == Plus(Plus(acc, b), d)
    ensures Plus(Plus(acc, Plus(b, d)), Plus(t, s)) == Plus(Plus(Plus(acc, b), t), Plus(d, s))
  {}

  lemma OverSum(a: real, b: real, d: real)
    ensures Over(a + b, d) == Over(a, d) + Over(b, d)
  {}

  /** What the walk claims about link j: its bias and the uu of its joint change as computed. */
  ghost predicate ChangedAt(t: Shape, z: seq<LinkState>, i: int, f: Spatial, j: int)
    requires Fits(t, z) && t.IsLink(i) && t.IsLink(j)
  {
    var d := BiasChange(t, z, i, Negated(f), j);
    var y, y' := SecondHalf(t, z, j), SecondHalf(t, WithForce(z, i, f), j);
    && y'.bias == Plus(y.bias, d)
    && (j > 0 && z[j].Moving() ==> y'.uu == y.uu + JointChange(y, d))
    && y'.(bias := y.bias, uu := y.uu, ext := y.ext) == y
  }

  lemma BiasChain(t: Shape, z: seq<LinkState>, i: int, f: Spatial, j: int)
    requires Fits(t, z) && t.IsLink(i) && t.IsLink(j)
    requires forall k | j < k < |z| :: ChangedAt(t, z, i, f, k)
    ensures ChangedAt(t, z, i, f, j)
  {
    hide Plus, Minus, Inner, Negated, PassOn, AddChildForceBias;
    var z', d := WithForce(z, i, f), Negated(f);
    var start := Minus(z[j].bias, z[j].ext);
    if i == j {
      StartChange(z[j].bias, z[j].ext, f);
      forall k | j < k < |z|
        ensures BiasChange(t, z, i, d, k) == ZERO6
      {
        if OnPath(t, i, k) { PathDescends(t, i, k); }
        OffPathUnchanged(t, z, i, d, k);
      }
      ChainChange(t, z, i, f, j, t.child[j], start, d, -1);
    } else if OnPath(t, i, j) {
      var c := PathChild(t, z, i, d, j);
      forall b | j < b < |z| && t.parent[b] == j && b != c
        ensures BiasChange(t, z, i, d, b) == ZERO6
      {
        OffPathUnchanged(t, z, i, d, b);
      }
      assert t.InChain(t.child[t.parent[c]], c);
      ChainChange(t, z, i, f, j, t.child[j], start, ZERO6, c);
    } else {
      OffPathUnchanged(t, z, i, d, j);
      forall k | j < k < |z| && t.parent[k] == j
        ensures BiasChange(t, z, i, d, k) == ZERO6
      {
        ParentOnPath(t, i, k);
        OffPathUnchanged(t, z, i, d, k);
      }
      ChainChange(t, z, i, f, j, t.child[j], start, ZERO6, -1);
    }
    PlusNothing(start);
    PlusNothing(BiasChange(t, z, i, d, j));
    JointFollows(z[j].axis, SecondHalf(t, z, j).bias, BiasChange(t, z, i, d, j));
  }

  lemma JointFollows(axis: Spatial, bias: Spatial, d: Spatial)
    ensures Inner(axis, Plus(bias, d)) == Inner(axis, bias) + Inner(axis, d)
  {
    InnerPlus(axis, bias, d);
  }

  lemma PlusNothing(a: Spatial)
    ensures Plus(a, ZERO6) == a == Plus(ZERO6, a)
  {}

  lemma StartChange(bias: Spatial, ext: Spatial, f: Spatial)
    ensures Minus(bias, Plus(ext, f)) == Plus(Minus(bias, ext), Negated(f))
  {}

  lemma {:induction false} ParentOnPath(t: Shape, i: int, k: int)
    requires t.Valid() && t.IsLink(i) && 0 < k < |t.parent|
    ensures OnPath(t, i, k) ==> OnPath(t, i, t.parent[k])
    decreases i
  {
    if i != k && i > 0 {
      ParentOnPath(t, t.parent[i], k);
    }
  }

  /** The loop over the children of j, from k on: the accumulator starts out changed by e, and c is
      the child on the path, or -1 when there is none. */
  lemma {:induction false} ChainChange(t: Shape, z: seq<LinkState>, i: int, f: Spatial, j: int, k: int, acc: Spatial,
                                       e: Spatial, c: int)
    requires Fits(t, z) && t.IsLink(i) && t.IsLink(j) && t.IsPointer(k)
    requires k != -1 ==> j < k && t.parent[k] == j
    requires forall b | j < b < |z| :: ChangedAt(t, z, i, f, b)
    requires forall b | j < b < |z| && t.parent[b] == j && b != c :: BiasChange(t, z, i, Negated(f), b) == ZERO6
    requires c == -1 || j < c < |z|
    ensures SecondHalfBiases(t, WithForce(z, i, f), k, Plus(acc, e))
         == Plus(SecondHalfBiases(t, z, k, acc),
                 if c != -1 && t.InChain(k, c) then Plus(e, PassOn(z[c], BiasChange(t, z, i, Negated(f), c))) else e)
    decreases if k == -1 then 0 else |z| - k
  {
    hide Plus, Minus, Inner, Negated, PassOn, AddChildForceBias;
    var z' := WithForce(z, i, f);
    if k != -1 {
      var y := SecondHalf(t, z, k);
      var d := BiasChange(t, z, i, Negated(f), k);
      var p := PassOn(y, d);
      assert ChangedAt(t, z, i, f, k);
      ChildChange(Plus(acc, e), y, d);
      SameChild(Plus(acc, e), y, SecondHalf(t, z', k), d);
      SamePassOn(y, z[k], d);
      AccumulatorChange(acc, e, y, p);
      ChainChange(t, z, i, f, j, t.sibling[k], AddChildForceBias(acc, y), Plus(e, p), c);
      if k == c {
        LaterSiblingsOnly(t, t.sibling[k], c);
      } else {
        PassOnNothing(y);
        PlusNothing(e);
      }
    }
  }

  /** Siblings that come later do not include the earlier one. */
  lemma {:induction false} LaterSiblingsOnly(t: Shape, k: int, c: int)
    requires t.Valid() && t.IsPointer(k) && (k != -1 ==> c < k)
    ensures !t.InChain(k, c)
    decreases if k == -1 then 0 else |t.parent| - k
  {
    if k != -1 {
      LaterSiblingsOnly(t, t.sibling[k], c);
    }
  }

  lemma SameChild(acc: Spatial, y: LinkState, y': LinkState, d: Spatial)
    requires y'.bias == Plus(y.bias, d) && (y.Moving() ==> y'.uu == y.uu + JointChange(y, d))
    requires y'.(bias := y.bias, uu := y.uu, ext := y.ext) == y
    ensures AddChildForceBias(acc, y')
        == AddChildForceBias(acc, y.(bias := Plus(y.bias, d), uu := y.uu + JointChange(y, d)))
  {
    hide Plus, Inner, Times;
  }

  lemma SamePassOn(y: LinkState, x: LinkState, d: Spatial)
    requires y.joint == x.joint && y.axis == x.axis && y.dd == x.dd && y.hh == x.hh
    ensures PassOn(y, d) == PassOn(x, d)
  {}

  lemma AccumulatorChange(acc: Spatial, e: Spatial, y: LinkState, p: Spatial)
    ensures Plus(AddChildForceBias(Plus(acc, e), y), p) == Plus(AddChildForceBias(acc, y), Plus(e, p))
  {
    hide Times;
  }

  /** The test-force theorem: rerunning the pass with force f added to link i changes every bias
      and every uu exactly by what the walk from i to the root computes. */
  lemma {:induction false} WalkMatchesRerun(t: Shape, z: seq<LinkState>, i: int, f: Spatial, j: int)
    requires Fits(t, z) && t.IsLink(i) && 0 <= j <= |z|
    ensures forall k | j <= k < |z| :: ChangedAt(t, z, i, f, k)
    decreases |z| - j
  {
    hide ChangedAt;
    if j < |z| {
      WalkMatchesRerun(t, z, i, f, j + 1);
      BiasChain(t, z, i, f, j);
    }
  }

  /** Adding a force to a link does not disturb what another force changes. */
  lemma {:induction false} ChangesIndependent(t: Shape, z: seq<LinkState>, i: int, f: Spatial, k: int, d: Spatial,
                                              j: int)
    requires Fits(t, z) && t.IsLink(i) && t.IsLink(k)
    ensures BiasChange(t, WithForce(z, i, f), k, d, j) == BiasChange(t, z, k, d, j)
    decreases k
  {
    if k > 0 && k != j {
      SamePassOn(z[k], WithForce(z, i, f)[k], d);
      ChangesIndependent(t, z, i, f, t.parent[k], PassOn(z[k], d), j);
    }
  }

  /** Two test forces on one body superpose. */
  lemma ForcesSuperpose(t: Shape, z: seq<LinkState>, i: int, f: Spatial, k: int, g: Spatial, j: int)
    requires Fits(t, z) && t.IsLink(i) && t.IsLink(k) && t.IsLink(j)
    ensures var y, y' := SecondHalf(t, z, j), SecondHalf(t, WithForce(WithForce(z, i, f), k, g), j);
      var d, e := BiasChange(t, z, i, Negated(f), j), BiasChange(t, z, k, Negated(g), j);
      && y'.bias == Plus(Plus(y.bias, d), e)
      && (j > 0 && z[j].Moving() ==> y'.uu == y.uu + JointChange(y, d) + JointChange(y, e))
  {
    hide Plus, Inner, Negated;
    WalkMatchesRerun(t, z, i, f, 0);
    WalkMatchesRerun(t, WithForce(z, i, f), k, g, 0);
    ChangesIndependent(t, z, i, f, k, Negated(g), j);
    assert ChangedAt(t, z, i, f, j);
    assert ChangedAt(t, WithForce(z, i, f), k, g, j);
  }

  lemma BelowUnchanged(t: Shape, z: seq<LinkState>, i: int, d: Spatial, j: int)
    requires Fits(t, z) && t.IsLink(i) && i < j
    ensures BiasChange(t, z, i, d, j) == ZERO6
  {
    if OnPath(t, i, j) {
      PathDescends(t, i, j);
    }
    OffPathUnchanged(t, z, i, d, j);
  }

  lemma NoChange(y: LinkState)
    ensures JointChange(y, ZERO6) == 0.0
  {
    InnerZero(y.axis);
  }
}
