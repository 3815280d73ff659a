/** Writing a scene graph and reading it again. */
module VrmlRoundTrip {
  import opened LinearAlgebra
  import opened Roots
  import opened VrmlNodes
  import opened VrmlWriters
  import opened VrmlParsers
  import opened VrmlFaithful

  lemma SetAllStep(base: VrmlNode, fs: seq<Field>, f: Field, sqrt: real -> real)
    requires KnownFields(KindOf(base), fs) && KnownField(KindOf(base), f)
    ensures KnownFields(KindOf(base), fs + [f]) && KnownField(KindOf(base), Field(f.name, ReadBack(f.value, sqrt)))
    ensures SetAll(base, fs + [f], sqrt) == Set(SetAll(base, fs, sqrt), Field(f.name, ReadBack(f.value, sqrt)))
    ensures AllAccepted(KindOf(base), fs + [f], sqrt)
      <==> AllAccepted(KindOf(base), fs, sqrt) && Accepted(f.value, TypeOf(KindOf(base), f.name).value, sqrt)
  {
    hide Set, Accepted;
    assert (fs + [f])[..|fs + [f]| - 1] == fs;
  }

  lemma UnitAxisStays(r: Rotation, sqrt: real -> real)
    requires AxisLength(r.axis, sqrt) == 1.0
    ensures Normalized(r, sqrt) == r
  {}

  /** A field whose value is read back as v and accepted. */
  lemma SetPlain(base: VrmlNode, fs: seq<Field>, f: Field, r: VrmlNode, sqrt: real -> real)
    requires KnownFields(KindOf(base), fs) && KnownField(KindOf(base), f)
    requires f.value.Float? || f.value.Vec? || f.value.Flag? || f.value.Ints? || f.value.Vecs?
    requires AllAccepted(KindOf(base), fs, sqrt) && SetAll(base, fs, sqrt) == r
    ensures KnownFields(KindOf(base), fs + [f]) && AllAccepted(KindOf(base), fs + [f], sqrt)
    ensures SetAll(base, fs + [f], sqrt) == Set(r, f)
  {
    hide Set, SetAll, AllAccepted;
    SetAllStep(base, fs, f, sqrt);
  }

  lemma SetTurn(base: VrmlNode, fs: seq<Field>, f: Field, r: VrmlNode, sqrt: real -> real)
    requires KnownFields(KindOf(base), fs) && KnownField(KindOf(base), f)
    requires f.value.Turn? && AxisLength(f.value.r.axis, sqrt) == 1.0
    requires AllAccepted(KindOf(base), fs, sqrt) && SetAll(base, fs, sqrt) == r
    ensures KnownFields(KindOf(base), fs + [f]) && AllAccepted(KindOf(base), fs + [f], sqrt)
    ensures SetAll(base, fs + [f], sqrt) == Set(r, f)
  {
    hide Set, SetAll, AllAccepted;
    SetAllStep(base, fs, f, sqrt);
    UnitAxisStays(f.value.r, sqrt);
  }

  lemma SetNode(base: VrmlNode, fs: seq<Field>, f: Field, r: VrmlNode, sqrt: real -> real)
    requires KnownFields(KindOf(base), fs) && KnownField(KindOf(base), f)
    requires f.value.Node? && (f.value.direct || Writable(f.value.node)) && TypeOf(KindOf(base), f.name).value.NODE?
    requires Placed(f.value.node, TypeOf(KindOf(base), f.name).value.category, sqrt)
    requires Reread(f.value.node, sqrt) == f.value.node
    requires AllAccepted(KindOf(base), fs, sqrt) && SetAll(base, fs, sqrt) == r
    ensures KnownFields(KindOf(base), fs + [f]) && AllAccepted(KindOf(base), fs + [f], sqrt)
    ensures SetAll(base, fs + [f], sqrt) == Set(r, f)
  {
    hide SetAll, AllAccepted, Reread, Placed, Set, TypeOf;
    SetAllStep(base, fs, f, sqrt);
    SetNodeEitherWay(r, f);
    NodeReadBack(f.value, TypeOf(KindOf(base), f.name).value, sqrt);
  }

  lemma NodeReadBack(v: Value, t: FieldType, sqrt: real -> real)
    requires v.Node? && (v.direct || Writable(v.node)) && t.NODE? && Placed(v.node, t.category, sqrt)
    ensures Accepted(v, t, sqrt) && ReadBack(v, sqrt) == Node(Reread(v.node, sqrt), true)
  {
    hide Placed, Reread;
  }

  /** Whether a node was printed by its owner or by the table does not matter once it is read. */
  lemma SetNodeEitherWay(r: VrmlNode, f: Field)
    requires KnownField(KindOf(r), f) && f.value.Node?
    ensures KnownField(KindOf(r), Field(f.name, Node(f.value.node, true)))
    ensures Set(r, Field(f.name, Node(f.value.node, true))) == Set(r, f)
  {}

  lemma ThreeSame(b: VrmlNode, done: seq<Field>, f1: Field, f2: Field, f3: Field, r: VrmlNode, sqrt: real -> real)
    requires KnownFields(KindOf(b), done) && AllAccepted(KindOf(b), done, sqrt) && SetAll(b, done, sqrt) == r
    requires KnownField(KindOf(b), f1) && KnownField(KindOf(b), f2) && KnownField(KindOf(b), f3)
    requires (f1.value.Float? || f1.value.Vec?) && (f2.value.Float? || f2.value.Vec?)
    requires f3.value.Float? || f3.value.Vec?
    ensures var fs := done + [f1] + [f2] + [f3];
      && KnownFields(KindOf(b), fs) && AllAccepted(KindOf(b), fs, sqrt)
      && SetAll(b, fs, sqrt) == Set(Set(Set(r, f1), f2), f3)
  {
    hide SetAll, AllAccepted, Set, KnownField, KnownFields;
    SetPlain(b, done, f1, r, sqrt);
    SetPlain(b, done + [f1], f2, Set(r, f1), sqrt);
    SetPlain(b, done + [f1] + [f2], f3, Set(Set(r, f1), f2), sqrt);
  }

  lemma MaterialSame(n: VrmlNode, sqrt: real -> real)
    requires n.Material?
    ensures Placed(n, MATERIAL_NODE, sqrt) && Reread(n, sqrt) == n
  {
    hide SetAll, AllAccepted, Placed, Reread;
    var b, fs := Default(MATERIAL), FieldsOf(n);
    NodeMeans(n, MATERIAL_NODE, sqrt);
    NothingYet(MATERIAL, fs, sqrt);
    ThreeSame(b, [], fs[0], fs[1], fs[2], b, sqrt);
    var r, done := Set(Set(Set(b, fs[0]), fs[1]), fs[2]), [] + [fs[0]] + [fs[1]] + [fs[2]];
    assert r == b.(ambientIntensity := n.ambientIntensity, diffuseColor := n.diffuseColor,
                   emissiveColor := n.emissiveColor);
    ThreeSame(b, done, fs[3], fs[4], fs[5], r, sqrt);
    assert done + [fs[3]] + [fs[4]] + [fs[5]] == fs;
  }

  lemma CoordinateSame(n: VrmlNode, sqrt: real -> real)
    requires n.Coordinate?
    ensures Placed(n, COORDINATE_NODE, sqrt) && Reread(n, sqrt) == n
  {
    hide SetAll, AllAccepted;
    var b, fs := Default(COORDINATE), FieldsOf(n);
    NodeMeans(n, COORDINATE_NODE, sqrt);
    NothingYet(COORDINATE, fs, sqrt);
    if n.point != [] {
      SetPlain(b, [], fs[0], b, sqrt);
      assert [] + [fs[0]] == fs;
    }
  }

  lemma AppearanceSame(n: VrmlNode, sqrt: real -> real)
    requires n.Appearance? && Faithful(n, APPEARANCE_NODE, sqrt)
    ensures Placed(n, APPEARANCE_NODE, sqrt) && Reread(n, sqrt) == n
  {
    hide SetAll, AllAccepted, Reread, Placed;
    var b, fs := Default(APPEARANCE), FieldsOf(n);
    NodeMeans(n, APPEARANCE_NODE, sqrt);
    NothingYet(APPEARANCE, fs, sqrt);
    if n.material.Some? {
      MaterialSame(n.material.value, sqrt);
      SetNode(b, [], fs[0], b, sqrt);
      assert [] + [fs[0]] == fs;
    }
  }

  lemma FaceSetSame(n: VrmlNode, sqrt: real -> real)
    requires n.IndexedFaceSet? && Faithful(n, GEOMETRY_NODE, sqrt)
    ensures Placed(n, GEOMETRY_NODE, sqrt) && Reread(n, sqrt) == n
  {
    hide SetAll, AllAccepted, Reread, Placed;
    var b, fs := Default(INDEXED_FACE_SET), FieldsOf(n);
    NodeMeans(n, GEOMETRY_NODE, sqrt);
    NothingYet(INDEXED_FACE_SET, fs, sqrt);
    var done: seq<Field>, r := [], b;
    if n.coord.Some? {
      CoordinateSame(n.coord.value, sqrt);
      var f := Field("coord", Node(n.coord.value, true));
      SetNode(b, done, f, r, sqrt);
      done, r := done + [f], Set(r, f);
    }
    assert r == b.(coord := n.coord);
    if n.coordIndex != [] {
      var f := Field("coordIndex", Ints(n.coordIndex));
      SetPlain(b, done, f, r, sqrt);
      done, r := done + [f], Set(r, f);
    }
    FaceSetFlags(done, r, n, sqrt);
    assert done + FlagFields(n) == fs;
  }

  lemma FaceSetFlags(done0: seq<Field>, r0: VrmlNode, n: VrmlNode, sqrt: real -> real)
    requires n.IndexedFaceSet? && KnownFields(INDEXED_FACE_SET, done0) && AllAccepted(INDEXED_FACE_SET, done0, sqrt)
    requires SetAll(Default(INDEXED_FACE_SET), done0, sqrt) == r0
    ensures KnownFields(INDEXED_FACE_SET, done0 + FlagFields(n))
    ensures AllAccepted(INDEXED_FACE_SET, done0 + FlagFields(n), sqrt)
    ensures SetAll(Default(INDEXED_FACE_SET), done0 + FlagFields(n), sqrt)
         == r0.(ccw := n.ccw, convex := n.convex, creaseAngle := n.creaseAngle, solid := n.solid)
  {
    hide SetAll, AllAccepted;
    var b, done, r := Default(INDEXED_FACE_SET), done0, r0;
    var f1, f2, f3, f4 := Field("ccw", Flag(n.ccw)), Field("convex", Flag(n.convex)),
        Field("creaseAngle", Float(n.creaseAngle)), Field("solid", Flag(n.solid));
    SetPlain(b, done, f1, r, sqrt);
    done, r := done + [f1], Set(r, f1);
    SetPlain(b, done, f2, r, sqrt);
    done, r := done + [f2], Set(r, f2);
    SetPlain(b, done, f3, r, sqrt);
    done, r := done + [f3], Set(r, f3);
    SetPlain(b, done, f4, r, sqrt);
    done, r := done + [f4], Set(r, f4);
    assert done == done0 + FlagFields(n);
  }

  lemma ShapeSame(n: VrmlNode, c: Category, sqrt: real -> real)
    requires n.Shape? && Faithful(n, c, sqrt)
    ensures Placed(n, c, sqrt) && Reread(n, sqrt) == n
  {
    hide SetAll, AllAccepted, Reread, Placed;
    var b, fs := Default(SHAPE), FieldsOf(n);
    NodeMeans(n, c, sqrt);
    NothingYet(SHAPE, fs, sqrt);
    var done: seq<Field>, r := [], b;
    if n.appearance.Some? {
      AppearanceSame(n.appearance.value, sqrt);
      var f := Field("appearance", Node(n.appearance.value, true));
      SetNode(b, done, f, r, sqrt);
      done, r := done + [f], Set(r, f);
    }
    assert r == b.(appearance := n.appearance);
    if n.geometry.Some? {
      FaceSetSame(n.geometry.value, sqrt);
      var f := Field("geometry", Node(n.geometry.value, false));
      SetNode(b, done, f, r, sqrt);
      done, r := done + [f], Set(r, f);
    }
    assert done == fs;
  }

  /** Children that read back as they are, in their order. */
  lemma {:induction false} ChildrenSame(s: seq<VrmlNode>, sqrt: real -> real)
    requires forall i | 0 <= i < |s| :: Faithful(s[i], CHILD_NODE, sqrt)
    ensures AllPlaced(s, sqrt) && RereadAll(s, sqrt) == s
    decreases Sizes(s), 2, |s|
  {
    hide Faithful, Placed, Reread, Writable;
    if s != [] {
      var front, last := s[..|s| - 1], s[|s| - 1];
      ChildrenSame(front, sqrt);
      FaithfulIsSame(last, CHILD_NODE, sqrt);
      FaithfulChild(last, sqrt);
      assert s == front + [last];
    }
  }

  lemma FaithfulChild(n: VrmlNode, sqrt: real -> real)
    requires Faithful(n, CHILD_NODE, sqrt)
    ensures Writable(n)
  {}

  ghost function GroupingOf(n: VrmlNode): Grouping
    requires n.Group? || n.Transform?
  {
    if n.Group? then n.own else n.base
  }

  ghost function WithGrouping(n: VrmlNode, g: Grouping): VrmlNode
    requires n.Group? || n.Transform?
  {
    if n.Group? then Group(n.defName, g)
    else Transform(n.defName, n.center, n.rotation, n.scale, n.scaleOrientation, n.translation, g)
  }

  /** Setting a field of a grouping. */
  lemma SetInGrouping(n: VrmlNode, f: Field)
    requires (n.Group? || n.Transform?) && KnownField(GROUP, f)
    ensures KnownField(KindOf(n), f) && Set(n, f) == WithGrouping(n, SetGrouping(GroupingOf(n), f))
  {}

  lemma BoxSame(b: VrmlNode, done: seq<Field>, r: VrmlNode, g: Grouping, sqrt: real -> real)
    requires (b.Group? || b.Transform?) && KnownFields(KindOf(b), done) && AllAccepted(KindOf(b), done, sqrt)
    requires SetAll(b, done, sqrt) == r
    requires GroupingOf(r) == Grouping(ZERO3, Vec3(-1.0, -1.0, -1.0), [])
    ensures var fs := done + [Field("bboxCenter", Vec(g.bboxCenter))] + [Field("bboxSize", Vec(g.bboxSize))];
      && KnownFields(KindOf(b), fs) && AllAccepted(KindOf(b), fs, sqrt)
      && SetAll(b, fs, sqrt) == WithGrouping(r, Grouping(g.bboxCenter, g.bboxSize, []))
  {
    hide SetAll, AllAccepted, Set;
    var f1, f2 := Field("bboxCenter", Vec(g.bboxCenter)), Field("bboxSize", Vec(g.bboxSize));
    SetInGrouping(r, f1);
    SetPlain(b, done, f1, r, sqrt);
    SetInGrouping(Set(r, f1), f2);
    SetPlain(b, done + [f1], f2, Set(r, f1), sqrt);
  }

  /** The fields of a grouping after others. */
  lemma {:induction false} GroupingSame(b: VrmlNode, done0: seq<Field>, r0: VrmlNode, g: Grouping, sqrt: real -> real)
    requires b.Group? || b.Transform?
    requires FaithfulGrouping(g, sqrt) && KnownFields(KindOf(b), done0) && AllAccepted(KindOf(b), done0, sqrt)
    requires SetAll(b, done0, sqrt) == r0 && GroupingOf(r0) == Grouping(ZERO3, Vec3(-1.0, -1.0, -1.0), [])
    ensures KnownFields(KindOf(b), done0 + GroupFields(g)) && AllAccepted(KindOf(b), done0 + GroupFields(g), sqrt)
    ensures SetAll(b, done0 + GroupFields(g), sqrt) == WithGrouping(r0, g)
    decreases Sizes(g.children), 3, 0
  {
    hide SetAll, AllAccepted, Set;
    var done, r := done0, r0;
    if g.bboxSize.x >= 0.0 {
      BoxSame(b, done, r, g, sqrt);
      done := done + [Field("bboxCenter", Vec(g.bboxCenter))] + [Field("bboxSize", Vec(g.bboxSize))];
      r := WithGrouping(r0, Grouping(g.bboxCenter, g.bboxSize, []));
    }
    assert r == WithGrouping(r0, Grouping(g.bboxCenter, g.bboxSize, []));
    if g.children != [] {
      var f := Field("children", Nodes(g.children));
      ChildrenSame(g.children, sqrt);
      SetInGrouping(r, f);
      SetAllStep(b, done, f, sqrt);
      done := done + [f];
    }
    assert done == done0 + GroupFields(g);
  }

  /** The parser gives back exactly what was written. */
  lemma {:induction false} FaithfulIsSame(n: VrmlNode, c: Category, sqrt: real -> real)
    requires Faithful(n, c, sqrt)
    ensures Placed(n, c, sqrt) && Reread(n, sqrt) == n
    decreases Size(n), 1, 0
  {
    NodeMeans(n, c, sqrt);
    match KindOf(n)
    case GROUP =>
      NothingYet(GROUP, FieldsOf(n), sqrt);
      GroupingSame(Default(GROUP), [], Default(GROUP), n.own, sqrt);
      assert [] + GroupFields(n.own) == FieldsOf(n);
    case TRANSFORM => TransformSame(n, c, sqrt);
    case SHAPE => ShapeSame(n, c, sqrt);
    case APPEARANCE => AppearanceSame(n, sqrt);
    case MATERIAL => MaterialSame(n, sqrt);
    case INDEXED_FACE_SET => FaceSetSame(n, sqrt);
    case COORDINATE => CoordinateSame(n, sqrt);
    case OTHER =>
  }

  lemma {:induction false} TransformSame(n: VrmlNode, c: Category, sqrt: real -> real)
    requires n.Transform? && Faithful(n, c, sqrt)
    ensures Placed(n, c, sqrt) && Reread(n, sqrt) == n
    decreases Size(n), 0, 0
  {
    NodeMeans(n, c, sqrt);
    hide SetAll, AllAccepted, Reread, Placed, GroupFields, Set, TypeOf, KnownField;
    var b, own := Default(TRANSFORM), OwnFields(n);
    OwnSame(n, sqrt);
    GroupingSame(b, own, SetAll(b, own, sqrt), n.base, sqrt);
    assert own + GroupFields(n.base) == FieldsOf(n);
  }

  /** The fields of a transform before those of its grouping. */
  ghost function OwnFields(n: VrmlNode): seq<Field>
    requires n.Transform?
  {
    [Field("center", Vec(n.center)), Field("rotation", Turn(n.rotation)), Field("scale", Vec(n.scale)),
     Field("scaleOrientation", Turn(n.scaleOrientation)), Field("translation", Vec(n.translation))]
  }

  lemma OwnSame(n: VrmlNode, sqrt: real -> real)
    requires n.Transform? && AxisLength(n.rotation.axis, sqrt) == 1.0
    requires AxisLength(n.scaleOrientation.axis, sqrt) == 1.0
    ensures KnownFields(TRANSFORM, OwnFields(n)) && AllAccepted(TRANSFORM, OwnFields(n), sqrt)
    ensures SetAll(Default(TRANSFORM), OwnFields(n), sqrt)
         == Transform("", n.center, n.rotation, n.scale, n.scaleOrientation, n.translation, Default(TRANSFORM).base)
  {
    hide SetAll, AllAccepted;
    var b, fs := Default(TRANSFORM), OwnFields(n);
    NothingYet(TRANSFORM, [], sqrt);
    var done: seq<Field>, r := [], b;
    SetPlain(b, done, fs[0], r, sqrt);
    done, r := done + [fs[0]], Set(r, fs[0]);
    SetTurn(b, done, fs[1], r, sqrt);
    done, r := done + [fs[1]], Set(r, fs[1]);
    SetPlain(b, done, fs[2], r, sqrt);
    done, r := done + [fs[2]], Set(r, fs[2]);
    SetTurn(b, done, fs[3], r, sqrt);
    done, r := done + [fs[3]], Set(r, fs[3]);
    SetPlain(b, done, fs[4], r, sqrt);
    done, r := done + [fs[4]], Set(r, fs[4]);
    assert done == fs;
  }

  lemma {:induction false} OneMisplaced(s: seq<VrmlNode>, i: nat, sqrt: real -> real)
    requires i < |s| && s[i].IndexedFaceSet?
    ensures !AllPlaced(s, sqrt)
  {
    if i < |s| - 1 {
      OneMisplaced(s[..|s| - 1], i, sqrt);
    }
  }

  /** The writer prints a face set that is a child of a group, and the parser then refuses the group. */
  lemma FaceSetAsChildIsRefused(n: VrmlNode, i: nat, sqrt: real -> real)
    requires n.Group? && i < |n.own.children| && n.own.children[i].IndexedFaceSet?
    ensures !Placed(n, TOP_NODE, sqrt)
  {
    var fs := FieldsOf(n);
    var last := |fs| - 1;
    NodeMeans(n, TOP_NODE, sqrt);
    OneMisplaced(n.own.children, i, sqrt);
    assert fs[last] == Field("children", Nodes(n.own.children));
    assert !Accepted(fs[last].value, NODES, sqrt);
  }

  /** Writing a node and reading it at the top of a file. The parser accepts it exactly when every node
      that is printed stands where its kind may stand and no rotation axis vanishes; then it makes of it
      the node that Reread says, and the node itself exactly if the writer left nothing out. */
  method WriteThenRead(n: VrmlNode, sqrt: real -> real) returns (r: Result<Option<VrmlNode>>)
    requires IsSqrt(sqrt) && WellTyped(n)
    ensures !Writable(n) ==> r == Ok(None)
    ensures Writable(n) ==> (r.Ok? <==> Placed(n, TOP_NODE, sqrt))
    ensures Writable(n) && r.Ok? ==> r.value == Some(Reread(n, sqrt))
    ensures r == Ok(Some(n)) <==> Faithful(n, TOP_NODE, sqrt)
  {
    hide Print, Placed, Reread, Faithful;
    var writer := new VrmlWriter();
    writer.WriteNode(n);
    var parser := new VrmlParserImpl(writer.out, sqrt);
    assert parser.Rest() == writer.out;
    assert Writable(n) ==> parser.Rest() == Print(n) + [];
    r := parser.ReadNode(TOP_NODE, n, []);
    FaithfulWritable(n, sqrt);
  }

  lemma FaithfulWritable(n: VrmlNode, sqrt: real -> real)
    requires IsSqrt(sqrt)
    ensures Faithful(n, TOP_NODE, sqrt) <==> Writable(n) && Same(n, TOP_NODE, sqrt)
  {
    if Faithful(n, TOP_NODE, sqrt) {
      FaithfulIsSame(n, TOP_NODE, sqrt);
    }
    if Same(n, TOP_NODE, sqrt) {
      SameIsFaithful(n, TOP_NODE, sqrt);
    }
  }
}
