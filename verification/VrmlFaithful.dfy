/** The scene graphs that come back from writing and reading as they were. */
module VrmlFaithful {
  import opened LinearAlgebra
  import opened Roots
  import opened VrmlNodes
  import opened VrmlParsers

  /** Where the writer leaves nothing out and the parser changes nothing: axes of length one, boxes that
      are printed or unset, nodes of printed kinds in the places meant for them. */
  ghost predicate Faithful(n: VrmlNode, c: Category, sqrt: real -> real) {
    && IsCategoryOf(KindOf(n), c)
    && match n
      case Group(_, g) => FaithfulGrouping(g, sqrt)
      case Transform(_, _, r, _, so, _, g) =>
        AxisLength(r.axis, sqrt) == 1.0 && AxisLength(so.axis, sqrt) == 1.0 && FaithfulGrouping(g, sqrt)
      case Shape(_, a, g) =>
        (a.Some? ==> Faithful(a.value, APPEARANCE_NODE, sqrt)) && (g.Some? ==> Faithful(g.value, GEOMETRY_NODE, sqrt))
      case Appearance(_, m, more) => !more && (m.Some? ==> Faithful(m.value, MATERIAL_NODE, sqrt))
      case IndexedFaceSet(_, c, _, _, _, _, _, more) => !more && (c.Some? ==> Faithful(c.value, COORDINATE_NODE, sqrt))
      case _ => true
  }

  ghost predicate FaithfulGrouping(g: Grouping, sqrt: real -> real) {
    && (g.bboxSize.x >= 0.0 || (g.bboxCenter == ZERO3 && g.bboxSize == Vec3(-1.0, -1.0, -1.0)))
    && forall i | 0 <= i < |g.children| :: Faithful(g.children[i], CHILD_NODE, sqrt)
  }

  // ---- what a node read back holds ----

  /** The value of a field of a node. */
  function Get(n: VrmlNode, name: string): Value {
    match n
    case Group(_, g) => GetGrouping(g, name)
    case Transform(_, center, r, scale, so, t, g) =>
      if name == "center" then Vec(center) else if name == "rotation" then Turn(r)
      else if name == "scale" then Vec(scale) else if name == "scaleOrientation" then Turn(so)
      else if name == "translation" then Vec(t) else GetGrouping(g, name)
    case Shape(_, a, g) =>
      if name == "appearance" then NodeOrNull(a) else if name == "geometry" then NodeOrNull(g) else Null
    case Appearance(_, m, more) => if name == "material" then NodeOrNull(m) else Flag(more)
    case Material(_, a, d, e, sh, sp, t) =>
      if name == "ambientIntensity" then Float(a) else if name == "diffuseColor" then Vec(d)
      else if name == "emissiveColor" then Vec(e) else if name == "shininess" then Float(sh)
      else if name == "specularColor" then Vec(sp) else Float(t)
    case IndexedFaceSet(_, c, ci, ccw, convex, crease, solid, more) =>
      if name == "coord" then NodeOrNull(c) else if name == "coordIndex" then Ints(ci)
      else if name == "ccw" then Flag(ccw) else if name == "convex" then Flag(convex)
      else if name == "creaseAngle" then Float(crease) else if name == "solid" then Flag(solid) else Flag(more)
    case Coordinate(_, p) => Vecs(p)
    case OtherNode(_) => Null
  }

  function GetGrouping(g: Grouping, name: string): Value {
    if name == "bboxCenter" then Vec(g.bboxCenter)
    else if name == "bboxSize" then Vec(g.bboxSize) else Nodes(g.children)
  }

  function NodeOrNull(n: Option<VrmlNode>): Value { if n.Some? then Node(n.value, true) else Null }

  /** A name of a field, or of what the writer never prints. */
  predicate IsMember(k: Kind, name: string) {
    TypeOf(k, name).Some? || ((k == APPEARANCE || k == INDEXED_FACE_SET) && name == "more")
  }

  /** Setting a field to a value that was read sets that field and no other. */
  lemma SetGets(n: VrmlNode, f: Field, name: string)
    requires KnownField(KindOf(n), f) && IsMember(KindOf(n), name) && (f.value.Node? ==> f.value.direct)
    ensures Get(Set(n, f), name) == if name == f.name then f.value else Get(n, name)
  {
    match KindOf(n)
    case GROUP => SetGetsGroup(n, f, name);
    case TRANSFORM => SetGetsTransform(n, f, name);
    case SHAPE => SetGetsShape(n, f, name);
    case APPEARANCE => SetGetsAppearance(n, f, name);
    case MATERIAL => SetGetsMaterial(n, f, name);
    case INDEXED_FACE_SET => SetGetsFaceSet(n, f, name);
    case COORDINATE => SetGetsCoordinate(n, f, name);
    case OTHER =>
  }

  lemma SetGetsGroup(n: VrmlNode, f: Field, name: string)
    requires KindOf(n) == GROUP && KnownField(GROUP, f)
    requires IsMember(GROUP, name) && (f.value.Node? ==> f.value.direct)
    ensures Get(Set(n, f), name) == if name == f.name then f.value else Get(n, name)
  {}

  lemma SetGetsTransform(n: VrmlNode, f: Field, name: string)
    requires KindOf(n) == TRANSFORM && KnownField(TRANSFORM, f)
    requires IsMember(TRANSFORM, name) && (f.value.Node? ==> f.value.direct)
    ensures Get(Set(n, f), name) == if name == f.name then f.value else Get(n, name)
  {}

  lemma SetGetsShape(n: VrmlNode, f: Field, name: string)
    requires KindOf(n) == SHAPE && KnownField(SHAPE, f)
    requires IsMember(SHAPE, name) && (f.value.Node? ==> f.value.direct)
    ensures Get(Set(n, f), name) == if name == f.name then f.value else Get(n, name)
  {}

  lemma SetGetsAppearance(n: VrmlNode, f: Field, name: string)
    requires KindOf(n) == APPEARANCE && KnownField(APPEARANCE, f)
    requires IsMember(APPEARANCE, name) && (f.value.Node? ==> f.value.direct)
    ensures Get(Set(n, f), name) == if name == f.name then f.value else Get(n, name)
  {}

  lemma SetGetsMaterial(n: VrmlNode, f: Field, name: string)
    requires KindOf(n) == MATERIAL && KnownField(MATERIAL, f)
    requires IsMember(MATERIAL, name) && (f.value.Node? ==> f.value.direct)
    ensures Get(Set(n, f), name) == if name == f.name then f.value else Get(n, name)
  {}

  lemma SetGetsFaceSet(n: VrmlNode, f: Field, name: string)
    requires KindOf(n) == INDEXED_FACE_SET && KnownField(INDEXED_FACE_SET, f)
    requires IsMember(INDEXED_FACE_SET, name) && (f.value.Node? ==> f.value.direct)
    ensures Get(Set(n, f), name) == if name == f.name then f.value else Get(n, name)
  {}

  lemma SetGetsCoordinate(n: VrmlNode, f: Field, name: string)
    requires KindOf(n) == COORDINATE && KnownField(COORDINATE, f)
    requires IsMember(COORDINATE, name) && (f.value.Node? ==> f.value.direct)
    ensures Get(Set(n, f), name) == if name == f.name then f.value else Get(n, name)
  {}

  lemma ReadDirectly(v: Value, sqrt: real -> real)
    ensures ReadBack(v, sqrt).Node? ==> ReadBack(v, sqrt).direct
  {
    hide Reread, RereadAll;
  }

  /** A field that is not among those read keeps its value. */
  lemma {:induction false} NotRead(base: VrmlNode, fs: seq<Field>, name: string, sqrt: real -> real)
    requires KnownFields(KindOf(base), fs) && IsMember(KindOf(base), name)
    requires forall i | 0 <= i < |fs| :: fs[i].name != name
    ensures Get(SetAll(base, fs, sqrt), name) == Get(base, name)
    decreases |fs|
  {
    hide Get, Set, ReadBack;
    if fs != [] {
      var f := fs[|fs| - 1];
      NotRead(base, fs[..|fs| - 1], name, sqrt);
      ReadDirectly(f.value, sqrt);
      SetGets(SetAll(base, fs[..|fs| - 1], sqrt), Field(f.name, ReadBack(f.value, sqrt)), name);
    }
  }

  /** A field that is read once holds what was read, and that was accepted. */
  lemma {:induction false} ReadOnce(base: VrmlNode, fs: seq<Field>, i: nat, sqrt: real -> real)
    requires KnownFields(KindOf(base), fs) && i < |fs| && forall j | i < j < |fs| :: fs[j].name != fs[i].name
    ensures Get(SetAll(base, fs, sqrt), fs[i].name) == ReadBack(fs[i].value, sqrt)
    ensures AllAccepted(KindOf(base), fs, sqrt) ==> Accepted(fs[i].value, TypeOf(KindOf(base), fs[i].name).value, sqrt)
    decreases |fs|
  {
    hide Get, Set, ReadBack, Accepted;
    var front, f := fs[..|fs| - 1], fs[|fs| - 1];
    if i < |fs| - 1 {
      assert front[i] == fs[i];
      ReadOnce(base, front, i, sqrt);
    }
    ReadDirectly(f.value, sqrt);
    SetGets(SetAll(base, front, sqrt), Field(f.name, ReadBack(f.value, sqrt)), fs[i].name);
  }

  // ---- nothing else comes back as it was ----

  /** The node is read back as it was. */
  ghost predicate Same(n: VrmlNode, c: Category, sqrt: real -> real) { Placed(n, c, sqrt) && Reread(n, sqrt) == n }

  lemma NameAside(n: VrmlNode, name: string, member: string)
    ensures Get(Named(n, name), member) == Get(n, member)
  {}

  /** The fields that are printed are read back as they are, and accepted. */
  lemma PrintedSame(n: VrmlNode, c: Category, i: nat, sqrt: real -> real)
    requires Same(n, c, sqrt) && i < |FieldsOf(n)|
    requires forall j | i < j < |FieldsOf(n)| :: FieldsOf(n)[j].name != FieldsOf(n)[i].name
    ensures var f := FieldsOf(n)[i];
      && KnownField(KindOf(n), f) && Get(n, f.name) == ReadBack(f.value, sqrt)
      && Accepted(f.value, TypeOf(KindOf(n), f.name).value, sqrt)
  {
    hide Get, ReadBack, Accepted, FieldsOf, SetAll, AllAccepted, TypeOf, Placed, Reread;
    NodeMeans(n, c, sqrt);
    ReadOnce(Default(KindOf(n)), FieldsOf(n), i, sqrt);
    NameAside(SetAll(Default(KindOf(n)), FieldsOf(n), sqrt), n.defName, FieldsOf(n)[i].name);
  }

  /** What is not printed is as its reader starts it. */
  lemma UnprintedSame(n: VrmlNode, c: Category, name: string, sqrt: real -> real)
    requires Same(n, c, sqrt) && IsMember(KindOf(n), name)
    requires forall j | 0 <= j < |FieldsOf(n)| :: FieldsOf(n)[j].name != name
    ensures Get(n, name) == Get(Default(KindOf(n)), name)
  {
    hide Get, FieldsOf, SetAll, AllAccepted, TypeOf, Placed, Reread;
    NodeMeans(n, c, sqrt);
    NotRead(Default(KindOf(n)), FieldsOf(n), name, sqrt);
    NameAside(SetAll(Default(KindOf(n)), FieldsOf(n), sqrt), n.defName, name);
  }

  lemma AxisStays(r: Rotation, sqrt: real -> real)
    requires IsSqrt(sqrt) && AxisLength(r.axis, sqrt) >= AXIS_LIMIT && Normalized(r, sqrt) == r
    ensures AxisLength(r.axis, sqrt) == 1.0
  {
    hide Product, IsSqrt;
    var len, a := AxisLength(r.axis, sqrt), r.axis;
    if a.x != 0.0 {
      UnitQuotient(a.x, len);
    } else if a.y != 0.0 {
      UnitQuotient(a.y, len);
    } else if a.z != 0.0 {
      UnitQuotient(a.z, len);
    } else {
      NoAxis(sqrt);
      assert false;
    }
  }

  lemma UnitQuotient(x: real, len: real)
    requires x != 0.0 && len > 0.0 && x / len == x
    ensures len == 1.0
  {
    hide Product;
    DivideBack(x, len);
    ProductUnits(x);
    ProductComm(x, len);
    CancelRight(len, 1.0, x);
  }

  lemma NoAxis(sqrt: real -> real)
    requires IsSqrt(sqrt)
    ensures AxisLength(ZERO3, sqrt) == 0.0
  {
    hide Product, Dot;
    DotZero(ZERO3);
    assert Product(sqrt(0.0), sqrt(0.0)) == 0.0;
    SquareZero(sqrt(0.0));
  }

  lemma {:induction false} SameIsFaithful(n: VrmlNode, c: Category, sqrt: real -> real)
    requires IsSqrt(sqrt) && Same(n, c, sqrt)
    ensures Faithful(n, c, sqrt)
    decreases Size(n), 2, 0
  {
    NodeMeans(n, c, sqrt);
    match KindOf(n)
    case GROUP => SameGrouping(n, c, n.own, sqrt);
    case TRANSFORM => SameTransform(n, c, sqrt);
    case SHAPE => SameShape(n, c, sqrt);
    case APPEARANCE => SameAppearance(n, c, sqrt);
    case INDEXED_FACE_SET => SameFaceSet(n, c, sqrt);
    case _ =>
  }

  /** The grouping fields of a node. */
  lemma {:induction false} SameGrouping(n: VrmlNode, c: Category, g: Grouping, sqrt: real -> real)
    requires IsSqrt(sqrt) && Same(n, c, sqrt) && Sizes(g.children) < Size(n)
    requires (n.Group? && g == n.own) || (n.Transform? && g == n.base)
    ensures FaithfulGrouping(g, sqrt)
    decreases Size(n), 0, 0
  {
    hide Same, SetAll, AllAccepted, Reread, Placed, Faithful, IsSqrt, RereadAll, AllPlaced;
    if g.bboxSize.x < 0.0 {
      BoxUnset(n, c, g, sqrt);
    }
    if g.children != [] {
      ChildrenRead(n, c, g, sqrt);
      SameChildren(g.children, sqrt);
    }
  }

  lemma BoxUnset(n: VrmlNode, c: Category, g: Grouping, sqrt: real -> real)
    requires Same(n, c, sqrt) && ((n.Group? && g == n.own) || (n.Transform? && g == n.base)) && g.bboxSize.x < 0.0
    ensures g.bboxCenter == ZERO3 && g.bboxSize == Vec3(-1.0, -1.0, -1.0)
  {
    hide Same;
    UnprintedSame(n, c, "bboxCenter", sqrt);
    UnprintedSame(n, c, "bboxSize", sqrt);
  }

  lemma ChildrenRead(n: VrmlNode, c: Category, g: Grouping, sqrt: real -> real)
    requires Same(n, c, sqrt) && ((n.Group? && g == n.own) || (n.Transform? && g == n.base)) && g.children != []
    ensures RereadAll(g.children, sqrt) == g.children && AllPlaced(g.children, sqrt)
  {
    hide Same, RereadAll, AllPlaced;
    var fs := FieldsOf(n);
    assert fs[|fs| - 1] == Field("children", Nodes(g.children));
    PrintedSame(n, c, |fs| - 1, sqrt);
  }

  lemma {:induction false} SameChildren(s: seq<VrmlNode>, sqrt: real -> real)
    requires IsSqrt(sqrt) && RereadAll(s, sqrt) == s && AllPlaced(s, sqrt)
    ensures forall i | 0 <= i < |s| :: Faithful(s[i], CHILD_NODE, sqrt)
    decreases Sizes(s), 3, |s|
  {
    if s != [] {
      var front, last := s[..|s| - 1], s[|s| - 1];
      NoMoreRead(front, sqrt);
      assert Writable(last);
      SameChildren(front, sqrt);
      SameIsFaithful(last, CHILD_NODE, sqrt);
    }
  }

  lemma {:induction false} NoMoreRead(s: seq<VrmlNode>, sqrt: real -> real)
    ensures |RereadAll(s, sqrt)| <= |s|
  {
    if s != [] {
      NoMoreRead(s[..|s| - 1], sqrt);
    }
  }

  lemma {:induction false} SameTransform(n: VrmlNode, c: Category, sqrt: real -> real)
    requires IsSqrt(sqrt) && n.Transform? && Same(n, c, sqrt)
    ensures Faithful(n, c, sqrt)
    decreases Size(n), 1, 0
  {
    NodeMeans(n, c, sqrt);
    TurnRead(n, c, 1, n.rotation, sqrt);
    TurnRead(n, c, 3, n.scaleOrientation, sqrt);
    hide SetAll, AllAccepted, Reread, Placed, IsSqrt, FieldsOf;
    SameGrouping(n, c, n.base, sqrt);
  }

  lemma TurnRead(n: VrmlNode, c: Category, i: nat, r: Rotation, sqrt: real -> real)
    requires IsSqrt(sqrt) && n.Transform? && Same(n, c, sqrt)
    requires (i == 1 && r == n.rotation) || (i == 3 && r == n.scaleOrientation)
    ensures AxisLength(r.axis, sqrt) == 1.0
  {
    hide Same, IsSqrt, Normalized, AxisLength;
    assert FieldsOf(n)[i] == Field(if i == 1 then "rotation" else "scaleOrientation", Turn(r));
    PrintedSame(n, c, i, sqrt);
    AxisStays(r, sqrt);
  }

  lemma {:induction false} SameShape(n: VrmlNode, c: Category, sqrt: real -> real)
    requires IsSqrt(sqrt) && n.Shape? && Same(n, c, sqrt)
    ensures Faithful(n, c, sqrt)
    decreases Size(n), 1, 0
  {
    hide SetAll, AllAccepted, Reread, Placed, IsSqrt;
    var fs := FieldsOf(n);
    NodeMeans(n, c, sqrt);
    if n.appearance.Some? {
      assert fs[0] == Field("appearance", Node(n.appearance.value, true));
      PrintedSame(n, c, 0, sqrt);
      assert Same(n.appearance.value, APPEARANCE_NODE, sqrt);
      SameIsFaithful(n.appearance.value, APPEARANCE_NODE, sqrt);
    }
    if n.geometry.Some? {
      assert fs[|fs| - 1] == Field("geometry", Node(n.geometry.value, false));
      PrintedSame(n, c, |fs| - 1, sqrt);
      assert Writable(n.geometry.value) && Same(n.geometry.value, GEOMETRY_NODE, sqrt);
      SameIsFaithful(n.geometry.value, GEOMETRY_NODE, sqrt);
    }
  }

  lemma {:induction false} SameAppearance(n: VrmlNode, c: Category, sqrt: real -> real)
    requires IsSqrt(sqrt) && n.Appearance? && Same(n, c, sqrt)
    ensures Faithful(n, c, sqrt)
    decreases Size(n), 1, 0
  {
    NodeMeans(n, c, sqrt);
    UnprintedSame(n, c, "more", sqrt);
    if n.material.Some? {
      PrintedSame(n, c, 0, sqrt);
      SameIsFaithful(n.material.value, MATERIAL_NODE, sqrt);
    }
  }

  lemma {:induction false} SameFaceSet(n: VrmlNode, c: Category, sqrt: real -> real)
    requires IsSqrt(sqrt) && n.IndexedFaceSet? && Same(n, c, sqrt)
    ensures Faithful(n, c, sqrt)
    decreases Size(n), 1, 0
  {
    NodeMeans(n, c, sqrt);
    UnprintedSame(n, c, "more", sqrt);
    if n.coord.Some? {
      PrintedSame(n, c, 0, sqrt);
      SameIsFaithful(n.coord.value, COORDINATE_NODE, sqrt);
    }
  }
}
