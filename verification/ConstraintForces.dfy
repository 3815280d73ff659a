/** The test-force machinery of ConstraintForceSolver.cpp over link data objects: biases without
    external changes, the walk that applies a test force, the numbers that say which links may be
    skipped, and the outbound pass that skips them. */
module ConstraintForces {
  import opened LinearAlgebra
  import opened Links
  import opened ArticulatedBody
  import opened SplitPasses
  import opened TestForce
  import opened ForwardDynamicsABM

  /** numeric_limits<int>::max() */
  const INT_MAX := 0x7fff_ffff

  class LinkData {
    var dvo: Vec3
    var dw: Vec3
    var pf0: Vec3
    var ptau0: Vec3
    var uu: real
    var uu0: real
    var ddq: real
    var numberToCheckAccelCalcSkip: int
    const parentIndex: int
    const link: Link

    constructor (link: Link, parentIndex: int)
      ensures this.link == link && this.parentIndex == parentIndex
    {
      this.link, this.parentIndex := link, parentIndex;
      dvo, dw, pf0, ptau0 := ZERO3, ZERO3, ZERO3, ZERO3;
      uu, uu0, ddq, numberToCheckAccelCalcSkip := 0.0, 0.0, 0.0, INT_MAX;
    }
  }

  class BodyData {
    const traverse: seq<Link>
    const linksData: seq<LinkData>
    ghost const tree: Shape
    var dpf: Vec3
    var dptau: Vec3
    const isStatic: bool
    var hasConstrainedLinks: bool
    var isTestForceBeingApplied: bool

    constructor (traverse: seq<Link>, linksData: seq<LinkData>, isStatic: bool, ghost tree: Shape)
      ensures this.traverse == traverse && this.linksData == linksData && this.isStatic == isStatic && this.tree == tree
    {
      this.traverse, this.linksData, this.isStatic, this.tree := traverse, linksData, isStatic, tree;
      dpf, dptau, hasConstrainedLinks, isTestForceBeingApplied := ZERO3, ZERO3, false, false;
    }

    /** The link data belong to the links, one each. */
    ghost predicate Aligned() {
      && tree.Valid() && |linksData| == |traverse| == |tree.parent|
      && (forall i {:trigger linksData[i].link} | 0 <= i < |linksData| :: linksData[i].link == traverse[i])
      && (forall i {:trigger linksData[i].parentIndex} | 0 <= i < |linksData| ::
            linksData[i].parentIndex == tree.parent[i])
      && (forall i, j | 0 <= i < |linksData| && 0 <= j < |linksData| && i != j :: linksData[i] != linksData[j])
    }

    ghost predicate Valid()
      reads traverse`index, traverse`parent, traverse`child, traverse`sibling
    {
      Aligned() && Represents(traverse, tree)
    }

    /** No two links share their data. */
    lemma DataOf(i: int)
      requires Aligned() && 0 <= i < |traverse|
      ensures |linksData| == |traverse|
      ensures linksData[i].link == traverse[i] && linksData[i].parentIndex == tree.parent[i]
      ensures forall j | 0 <= j < |linksData| && j != i :: linksData[j] != linksData[i]
    {}

    ghost function Delta(): Spatial
      reads this`dpf, this`dptau
    {
      Spatial(dpf, dptau)
    }
  }

  ghost function Bias0(data: LinkData): Spatial
    reads data`pf0, data`ptau0
  {
    Spatial(data.pf0, data.ptau0)
  }

  // ---- the walk that applies a test force ----

  /** One step of the walk: the joint change of a moving link, and what it passes on. */
  method WalkStep(link: Link, data: LinkData, d: Spatial) returns (next: Spatial)
    requires link.jointType != FIXED_JOINT ==> link.dd != 0.0
    modifies data`uu
    ensures next == PassOn(State(link), d)
    ensures data.uu == old(data.uu) + if State(link).Moving() then JointChange(State(link), d) else 0.0
  {
    hide Product, Add, Scale, Dot;
    next := d;
    if link.jointType != FIXED_JOINT {
      var duu := -(Dot(link.sv, d.v) + Dot(link.sw, d.w));
      data.uu := data.uu + duu;
      var duudd := duu / link.dd;
      next := Spatial(Add(d.v, Scale(duudd, link.hhv)), Add(d.w, Scale(duudd, link.hhw)));
    }
  }

  /** What the walk owes each joint. */
  ghost function Owed(t: Shape, z: seq<LinkState>, start: int, f: Spatial, j: int): real
    requires Fits(t, z) && t.IsLink(start) && t.IsLink(j)
  {
    if z[j].Moving() then JointChange(z[j], BiasChange(t, z, start, Negated(f), j)) else 0.0
  }

  ghost function Uus(linksData: seq<LinkData>): (u: seq<real>)
    reads linksData
    ensures |u| == |linksData| && forall j | 0 <= j < |linksData| :: u[j] == linksData[j].uu
  {
    seq(|linksData|, j requires 0 <= j < |linksData| reads linksData => linksData[j].uu)
  }

  /** Every joint above link i has been paid what it is owed, and no other. */
  ghost predicate PaidAbove(linksData: seq<LinkData>, u0: seq<real>, t: Shape, z: seq<LinkState>, start: int,
                            f: Spatial, i: int)
    requires Fits(t, z) && t.IsLink(start) && |linksData| == |u0| == |z|
    reads linksData`uu
  {
    forall j | 0 <= j < |z| :: linksData[j].uu == u0[j] + if j > i then Owed(t, z, start, f, j) else 0.0
  }

  /** The links above the start of the walk are owed nothing. */
  lemma NothingOwedBetween(t: Shape, z: seq<LinkState>, start: int, f: Spatial, i: int, d: Spatial, j: int)
    requires Fits(t, z) && t.IsLink(start) && t.IsLink(i) && t.IsLink(j) && i < j
    requires BiasChange(t, z, start, Negated(f), j) == BiasChange(t, z, i, d, j)
    ensures Owed(t, z, start, f, j) == 0.0
  {
    BelowUnchanged(t, z, i, d, j);
    NoChange(z[j]);
  }

  /** The loop of the walk, up to the root. */
  method Walk(body: BodyData, linkToApplyForce: Link, f: Spatial, ghost z: seq<LinkState>, ghost start: int)
    returns (d: Spatial)
    requires body.Valid() && z == States(body.traverse) && Fits(body.tree, z)
    requires 0 <= start < |z| && linkToApplyForce == body.traverse[start]
    requires forall j | 0 < j < |z| && z[j].Moving() :: z[j].dd != 0.0
    modifies body.linksData`uu
    ensures PaidAbove(body.linksData, old(Uus(body.linksData)), body.tree, z, start, f, 0)
    ensures d == BiasChange(body.tree, z, start, Negated(f), 0)
  {
    hide Represents, BodyData.Aligned, Shape.Valid, PassOn, JointChange, BiasChange, Owed, Negated, State, States;
    ghost var t, d0, u0 := body.tree, Negated(f), Uus(body.linksData);
    body.DataOf(start);
    PointersOf(body.traverse, t, start);
    var link := linkToApplyForce;
    ghost var i := start;
    d := Negated(f);
    forall j | start < j < |z|
      ensures Owed(t, z, start, f, j) == 0.0
    {
      NothingOwedBetween(t, z, start, f, start, d, j);
    }
    while link.parent != null
      invariant 0 <= i < |z| && link == body.traverse[i] && link.index == i
      invariant forall j | 0 <= j <= i :: BiasChange(t, z, start, d0, j) == BiasChange(t, z, i, d, j)
      invariant PaidAbove(body.linksData, u0, t, z, start, f, i)
      decreases i
    {
      PointersOf(body.traverse, t, i);
      ghost var up := t.parent[i];
      PointersOf(body.traverse, t, up);
      PathStep(t, z, i, d);
      forall j | up < j < i
        ensures Owed(t, z, start, f, j) == 0.0
      {
        NothingOwedBetween(t, z, start, f, up, PassOn(z[i], d), j);
      }
      OwedHere(t, z, start, f, i, d);
      JointOf(link);
      body.DataOf(i);
      d := WalkStep(link, body.linksData[link.index], d);
      link := link.parent;
      i := up;
    }
    PointersOf(body.traverse, t, i);
    PathEnd(t, z, i, d);
  }

  lemma JointOf(link: Link)
    ensures State(link).joint == link.jointType && State(link).dd == link.dd
  {}

  lemma OwedHere(t: Shape, z: seq<LinkState>, start: int, f: Spatial, i: int, d: Spatial)
    requires Fits(t, z) && t.IsLink(start) && t.IsLink(i) && BiasChange(t, z, start, Negated(f), i) == d
    ensures Owed(t, z, start, f, i) == if z[i].Moving() then JointChange(z[i], d) else 0.0
  {}

  method CalcABMForceElementsWithTestForce(body: BodyData, linkToApplyForce: Link, f: Vec3, tau: Vec3,
                                           ghost z: seq<LinkState>, ghost start: int)
    requires body.Valid() && z == States(body.traverse) && Fits(body.tree, z)
    requires 0 <= start < |z| && linkToApplyForce == body.traverse[start]
    requires forall j | 0 < j < |z| && z[j].Moving() :: z[j].dd != 0.0
    modifies body`dpf, body`dptau, body.linksData`uu
    ensures PaidAbove(body.linksData, old(Uus(body.linksData)), body.tree, z, start, Spatial(f, tau), 0)
    ensures body.Delta() == Plus(old(body.Delta()), BiasChange(body.tree, z, start, Negated(Spatial(f, tau)), 0))
  {
    var d := Walk(body, linkToApplyForce, Spatial(f, tau), z, start);
    body.dpf := Add(body.dpf, d.v);
    body.dptau := Add(body.dptau, d.w);
  }

  lemma PathStep(t: Shape, z: seq<LinkState>, i: int, d: Spatial)
    requires Fits(t, z) && 0 < i < |z|
    ensures BiasChange(t, z, i, d, i) == d
    ensures forall j | 0 <= j < i :: BiasChange(t, z, i, d, j) == BiasChange(t, z, t.parent[i], PassOn(z[i], d), j)
  {}

  lemma PathEnd(t: Shape, z: seq<LinkState>, i: int, d: Spatial)
    requires Fits(t, z) && t.IsLink(i)
    ensures BiasChange(t, z, i, d, i) == d
  {}

  // ---- biases and joint terms without a test force ----

  /** The link data hold what the second half of the inbound pass computes for link i. */
  ghost predicate Initialized(data: LinkData, y: LinkState, i: int)
    reads data`pf0, data`ptau0, data`uu0, data`uu
  {
    && Bias0(data) == y.bias
    && (i > 0 && y.Moving() ==> data.uu0 == y.uu && data.uu == y.uu)
  }

  /** The loop over the children of link i. */
  method AccumulateBiases(body: BodyData, link: Link, data: LinkData, ghost z: seq<LinkState>, ghost i: int)
    requires body.Valid() && z == States(body.traverse) && Fits(body.tree, z) && 0 <= i < |z|
    requires link == body.traverse[i] && data == body.linksData[i]
    requires forall j | 0 < j < |z| && z[j].Moving() :: z[j].dd != 0.0
    requires forall j | i < j < |z| :: Initialized(body.linksData[j], SecondHalf(body.tree, z, j), j)
    modifies data`pf0, data`ptau0
    ensures Bias0(data) == SecondHalfBiases(body.tree, z, body.tree.child[i], old(Bias0(data)))
  {
    hide Represents, BodyData.Aligned, Inner, Shape.Valid;
    ghost var t := body.tree;
    ValidParts(body);
    body.DataOf(i);
    PointersOf(body.traverse, t, i);
    ghost var k := t.child[i];
    var child := link.child;
    while child != null
      invariant t.IsPointer(k) && (k != -1 ==> i < k) && child == Pointer(body.traverse, k)
      invariant SecondHalfBiases(t, z, k, Bias0(data)) == SecondHalfBiases(t, z, t.child[i], old(Bias0(data)))
      decreases if k == -1 then 0 else |z| - k
    {
      PointersOf(body.traverse, t, k);
      ghost var y := SecondHalf(t, z, k);
      assert State(child) == z[k] && child.jointType == y.joint && child.dd == y.dd
          && Spatial(child.hhv, child.hhw) == y.hh;
      AddChildBias0(data, child, body.linksData[child.index], y);
      child := child.sibling;
      k := t.sibling[k];
    }
  }

  lemma ValidParts(body: BodyData)
    requires body.Valid()
    ensures Represents(body.traverse, body.tree) && |body.linksData| == |body.traverse|
    ensures body.tree.Valid() && |body.tree.parent| == |body.traverse|
  {}

  method AddChildBias0(data: LinkData, child: Link, childData: LinkData, ghost y: LinkState)
    requires data != childData
    requires child.jointType == y.joint && child.dd == y.dd && Spatial(child.hhv, child.hhw) == y.hh
    requires child.jointType != FIXED_JOINT ==> child.dd != 0.0 && childData.uu0 == y.uu
    requires Bias0(childData) == y.bias
    modifies data`pf0, data`ptau0
    ensures Bias0(data) == AddChildForceBias(old(Bias0(data)), y)
  {
    hide Add, Scale;
    data.pf0 := Add(data.pf0, childData.pf0);
    data.ptau0 := Add(data.ptau0, childData.ptau0);
    if child.jointType != FIXED_JOINT {
      var uu_dd := childData.uu0 / child.dd;
      data.pf0 := Add(data.pf0, Scale(uu_dd, child.hhv));
      data.ptau0 := Add(data.ptau0, Scale(uu_dd, child.hhw));
    }
  }

  /** The body of the loop for link i. */
  method InitStep(body: BodyData, link: Link, data: LinkData, ghost z: seq<LinkState>, i: int)
    requires body.Valid() && z == States(body.traverse) && Fits(body.tree, z) && 0 <= i < |z|
    requires link == body.traverse[i] && data == body.linksData[i]
    requires forall j | 0 < j < |z| && z[j].Moving() :: z[j].dd != 0.0
    requires forall j | i < j < |z| :: Initialized(body.linksData[j], SecondHalf(body.tree, z, j), j)
    modifies data`pf0, data`ptau0, data`uu0, data`uu
    ensures Initialized(data, SecondHalf(body.tree, z, i), i)
  {
    hide Represents, BodyData.Aligned, Add, Sub, Product;
    body.DataOf(i);
    data.pf0 := Sub(link.pf, link.fext);
    data.ptau0 := Sub(link.ptau, link.tauext);
    AccumulateBiases(body, link, data, z, i);
    assert State(link) == z[i];
    if i > 0 {
      if link.jointType != FIXED_JOINT {
        data.uu0 := link.uu + link.u - (Dot(link.sv, data.pf0) + Dot(link.sw, data.ptau0));
        data.uu := data.uu0;
      }
    }
  }

  method InitABMForceElementsWithNoExtForce(body: BodyData, ghost z: seq<LinkState>)
    requires body.Valid() && z == States(body.traverse) && Fits(body.tree, z)
    requires forall j | 0 < j < |z| && z[j].Moving() :: z[j].dd != 0.0
    modifies body`dpf, body`dptau, body.linksData`pf0, body.linksData`ptau0, body.linksData`uu0, body.linksData`uu
    ensures body.Delta() == ZERO6
    ensures forall j | 0 <= j < |z| :: Initialized(body.linksData[j], SecondHalf(body.tree, z, j), j)
  {
    hide Represents, BodyData.Aligned, SecondHalf, Initialized, State, States, Shape.Valid;
    ValidParts(body);
    body.dpf := ZERO3;
    body.dptau := ZERO3;
    var i := |body.traverse| - 1;
    while i >= 0
      invariant -1 <= i < |z|
      invariant body.Delta() == ZERO6
      invariant forall j | i < j < |z| :: Initialized(body.linksData[j], SecondHalf(body.tree, z, j), j)
    {
      body.DataOf(i);
      InitStep(body, body.traverse[i], body.linksData[i], z, i);
      i := i - 1;
    }
  }
}
