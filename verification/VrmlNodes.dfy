/** The scene graph nodes that the VRML writer knows, what it prints for them, and what the printed
    text means to the parser. The tokens are those of VRML97, ISO/IEC 14772-1:1997. */
module VrmlNodes {
  import opened LinearAlgebra
  import opened Roots

  datatype Option<T> = None | Some(value: T)

  datatype Rotation = Rotation(axis: Vec3, angle: real)

  /** more stands for the fields that the writer never prints: colours, normals, textures. */
  datatype VrmlNode =
    | Group(defName: string, own: Grouping)
    | Transform(defName: string, center: Vec3, rotation: Rotation, scale: Vec3, scaleOrientation: Rotation,
                translation: Vec3,
                base: Grouping)
    | Shape(defName: string, appearance: Option<VrmlNode>, geometry: Option<VrmlNode>)
    | Appearance(defName: string, material: Option<VrmlNode>, more: bool)
    | Material(defName: string, ambientIntensity: real, diffuseColor: Vec3, emissiveColor: Vec3, shininess: real,
               specularColor: Vec3, transparency: real)
    | IndexedFaceSet(defName: string, coord: Option<VrmlNode>, coordIndex: seq<int>, ccw: bool, convex: bool,
                     creaseAngle: real, solid: bool, more: bool)
    | Coordinate(defName: string, point: seq<Vec3>)
    | OtherNode(defName: string)

  datatype Grouping = Grouping(bboxCenter: Vec3, bboxSize: Vec3, children: seq<VrmlNode>)

  datatype Kind = GROUP | TRANSFORM | SHAPE | APPEARANCE | MATERIAL | INDEXED_FACE_SET | COORDINATE | OTHER

  datatype Category = TOP_NODE | CHILD_NODE | APPEARANCE_NODE | MATERIAL_NODE | GEOMETRY_NODE | COORDINATE_NODE

  function KindOf(n: VrmlNode): Kind {
    match n
    case Group(_, _) => GROUP
    case Transform(_, _, _, _, _, _, _) => TRANSFORM
    case Shape(_, _, _) => SHAPE
    case Appearance(_, _, _) => APPEARANCE
    case Material(_, _, _, _, _, _, _) => MATERIAL
    case IndexedFaceSet(_, _, _, _, _, _, _, _) => INDEXED_FACE_SET
    case Coordinate(_, _) => COORDINATE
    case OtherNode(_) => OTHER
  }

  predicate IsCategoryOf(k: Kind, c: Category) {
    match c
    case TOP_NODE => k == GROUP || k == TRANSFORM || k == SHAPE
    case CHILD_NODE => k == GROUP || k == TRANSFORM || k == SHAPE
    case APPEARANCE_NODE => k == APPEARANCE
    case MATERIAL_NODE => k == MATERIAL
    case GEOMETRY_NODE => k == INDEXED_FACE_SET
    case COORDINATE_NODE => k == COORDINATE
  }

  /** The kinds in the writer's method table. */
  predicate Writable(n: VrmlNode) {
    n.Group? || n.Transform? || n.Shape? || n.IndexedFaceSet?
  }

  // ---- fields ----

  datatype Value =
    | Float(f: real) | Vec(v: Vec3) | Turn(r: Rotation) | Flag(b: bool) | Ints(ints: seq<int>) | Vecs(vecs: seq<Vec3>)
    | Node(node: VrmlNode, direct: bool) | Nodes(nodes: seq<VrmlNode>) | Null

  datatype Field = Field(name: string, value: Value)

  datatype FieldType = FLOAT | VEC3F | ROTATION | BOOL | INT32S | VEC3FS | NODE(category: Category) | NODES

  /** The fields that the reader of each kind of node knows. */
  function TypeOf(k: Kind, name: string): Option<FieldType> {
    match k
    case GROUP =>
      if name == "bboxCenter" || name == "bboxSize" then Some(VEC3F)
      else if name == "children" then Some(NODES) else None
    case TRANSFORM =>
      if name == "center" || name == "scale" || name == "translation" || name == "bboxCenter"
          || name == "bboxSize" then Some(VEC3F)
      else if name == "rotation" || name == "scaleOrientation" then Some(ROTATION)
      else if name == "children" then Some(NODES) else None
    case SHAPE =>
      if name == "appearance" then Some(NODE(APPEARANCE_NODE))
      else if name == "geometry" then Some(NODE(GEOMETRY_NODE)) else None
    case APPEARANCE => if name == "material" then Some(NODE(MATERIAL_NODE)) else None
    case MATERIAL =>
      if name == "ambientIntensity" || name == "shininess" || name == "transparency" then Some(FLOAT)
      else if name == "diffuseColor" || name == "emissiveColor" || name == "specularColor" then Some(VEC3F) else None
    case INDEXED_FACE_SET =>
      if name == "coord" then Some(NODE(COORDINATE_NODE))
      else if name == "coordIndex" then Some(INT32S)
      else if name == "ccw" || name == "convex" || name == "solid" then Some(BOOL)
      else if name == "creaseAngle" then Some(FLOAT) else None
    case COORDINATE => if name == "point" then Some(VEC3FS) else None
    case OTHER => None
  }

  predicate HasType(v: Value, t: FieldType) {
    match t
    case FLOAT => v.Float?
    case VEC3F => v.Vec?
    case ROTATION => v.Turn?
    case BOOL => v.Flag?
    case INT32S => v.Ints?
    case VEC3FS => v.Vecs?
    case NODE(_) => v.Node? || v.Null?
    case NODES => v.Nodes?
  }

  /** The fields that the writer prints for a node, in its order. */
  function FieldsOf(n: VrmlNode): seq<Field> {
    match n
    case Group(_, g) => GroupFields(g)
    case Transform(_, center, r, scale, so, t, g) =>
      [Field("center", Vec(center)), Field("rotation", Turn(r)), Field("scale", Vec(scale)),
       Field("scaleOrientation", Turn(so)), Field("translation", Vec(t))] + GroupFields(g)
    case Shape(_, a, g) =>
      (if a.Some? then [Field("appearance", Node(a.value, true))] else [])
          + (if g.Some? then [Field("geometry", Node(g.value, false))] else [])
    case Appearance(_, m, _) => if m.Some? then [Field("material", Node(m.value, true))] else []
    case Material(_, a, d, e, sh, sp, t) =>
      [Field("ambientIntensity", Float(a)), Field("diffuseColor", Vec(d)), Field("emissiveColor", Vec(e)),
       Field("shininess", Float(sh)), Field("specularColor", Vec(sp)), Field("transparency", Float(t))]
    case IndexedFaceSet(_, c, ci, ccw, convex, crease, solid, _) =>
      (if c.Some? then [Field("coord", Node(c.value, true))] else [])
          + (if ci != [] then [Field("coordIndex", Ints(ci))] else [])
      + [Field("ccw", Flag(ccw)), Field("convex", Flag(convex)), Field("creaseAngle", Float(crease)),
         Field("solid", Flag(solid))]
    case Coordinate(_, p) => if p != [] then [Field("point", Vecs(p))] else []
    case OtherNode(_) => []
  }

  function GroupFields(g: Grouping): seq<Field> {
    (if g.bboxSize.x >= 0.0 then [Field("bboxCenter", Vec(g.bboxCenter)), Field("bboxSize", Vec(g.bboxSize))] else [])
    + (if g.children != [] then [Field("children", Nodes(g.children))] else [])
  }

  /** The nodes below a node have the classes that its members are declared with. */
  predicate WellTyped(n: VrmlNode) {
    match n
    case Group(_, g) => forall i | 0 <= i < |g.children| :: WellTyped(g.children[i])
    case Transform(_, _, _, _, _, _, g) => forall i | 0 <= i < |g.children| :: WellTyped(g.children[i])
    case Shape(_, a, g) => (a.Some? ==> a.value.Appearance? && WellTyped(a.value)) && (g.Some? ==> WellTyped(g.value))
    case Appearance(_, m, _) => m.Some? ==> m.value.Material?
    case IndexedFaceSet(_, c, _, _, _, _, _, _) => c.Some? ==> c.value.Coordinate?
    case _ => true
  }

  /** The fields that the writer always prints for a face set. */
  ghost function FlagFields(n: VrmlNode): seq<Field>
    requires n.IndexedFaceSet?
  {
    [Field("ccw", Flag(n.ccw)), Field("convex", Flag(n.convex)), Field("creaseAngle", Float(n.creaseAngle)),
     Field("solid", Flag(n.solid))]
  }

  // ---- sizes, by which all that follows is recursive ----

  function Size(n: VrmlNode): (s: nat)
    ensures s > 0
  {
    match n
    case Group(_, g) => 1 + Sizes(g.children)
    case Transform(_, _, _, _, _, _, g) => 1 + Sizes(g.children)
    case Shape(_, a, g) => 1 + (if a.Some? then Size(a.value) else 0) + (if g.Some? then Size(g.value) else 0)
    case Appearance(_, m, _) => 1 + if m.Some? then Size(m.value) else 0
    case IndexedFaceSet(_, c, _, _, _, _, _, _) => 1 + if c.Some? then Size(c.value) else 0
    case _ => 1
  }

  function Sizes(s: seq<VrmlNode>): nat {
    if s == [] then 0 else Sizes(s[..|s| - 1]) + Size(s[|s| - 1])
  }

  function ValueSize(v: Value): nat {
    match v
    case Node(n, _) => Size(n)
    case Nodes(s) => Sizes(s)
    case _ => 0
  }

  function FieldSizes(fs: seq<Field>): nat {
    if fs == [] then 0 else FieldSizes(fs[..|fs| - 1]) + ValueSize(fs[|fs| - 1].value)
  }

  lemma {:induction false} FieldSizesAppend(a: seq<Field>, b: seq<Field>)
    ensures FieldSizes(a + b) == FieldSizes(a) + FieldSizes(b)
  {
    if b == [] {
      assert a + b == a;
    } else {
      FieldSizesAppend(a, b[..|b| - 1]);
      assert (a + b)[..|a + b| - 1] == a + b[..|b| - 1];
    }
  }

  lemma OneFieldSize(f: Field)
    ensures FieldSizes([f]) == ValueSize(f.value)
  {
    assert [f][..0] == [];
  }

  lemma {:induction false} PlainFieldSizes(fs: seq<Field>)
    requires Plain(fs)
    ensures FieldSizes(fs) == 0
  {
    if fs != [] {
      PlainFieldSizes(fs[..|fs| - 1]);
    }
  }

  lemma GroupFieldSizes(g: Grouping)
    ensures FieldSizes(GroupFields(g)) == Sizes(g.children)
  {
    var box := if g.bboxSize.x >= 0.0 then [Field("bboxCenter", Vec(g.bboxCenter)), Field("bboxSize", Vec(g.bboxSize))]
        else [];
    var rest := if g.children != [] then [Field("children", Nodes(g.children))] else [];
    PlainFieldSizes(box);
    OneFieldSize(Field("children", Nodes(g.children)));
    assert FieldSizes([]) == Sizes([]) == 0;
    hide FieldSizes, Sizes;
    FieldSizesAppend(box, rest);
    assert GroupFields(g) == box + rest;
  }

  ghost function OptionSize(o: Option<VrmlNode>): nat { if o.Some? then Size(o.value) else 0 }

  ghost function OptionField(name: string, o: Option<VrmlNode>, direct: bool): seq<Field> {
    if o.Some? then [Field(name, Node(o.value, direct))] else []
  }

  lemma OptionFieldSize(name: string, o: Option<VrmlNode>, direct: bool)
    ensures FieldSizes(OptionField(name, o, direct)) == OptionSize(o)
  {
    if o.Some? {
      OneFieldSize(Field(name, Node(o.value, direct)));
    }
  }

  ghost predicate Plain(fs: seq<Field>) {
    forall i | 0 <= i < |fs| :: !fs[i].value.Node? && !fs[i].value.Nodes?
  }

  lemma PlainAround(a: seq<Field>, b: seq<Field>, c: seq<Field>)
    requires Plain(a) && Plain(c)
    ensures FieldSizes(a + b + c) == FieldSizes(b)
  {
    hide FieldSizes;
    PlainFieldSizes(a);
    PlainFieldSizes(c);
    FieldSizesAppend(a, b);
    FieldSizesAppend(a + b, c);
  }

  lemma TransformFieldSizes(n: VrmlNode)
    requires n.Transform?
    ensures FieldSizes(FieldsOf(n)) == Sizes(n.base.children)
  {
    hide FieldSizes, GroupFields;
    var own := [Field("center", Vec(n.center)), Field("rotation", Turn(n.rotation)), Field("scale", Vec(n.scale)),
                Field("scaleOrientation", Turn(n.scaleOrientation)), Field("translation", Vec(n.translation))];
    var group := GroupFields(n.base);
    assert FieldsOf(n) == own + group + [];
    PlainAround(own, group, []);
    GroupFieldSizes(n.base);
  }

  lemma ShapeFieldSizes(n: VrmlNode)
    requires n.Shape?
    ensures FieldSizes(FieldsOf(n)) == OptionSize(n.appearance) + OptionSize(n.geometry)
  {
    hide FieldSizes;
    var a, g := OptionField("appearance", n.appearance, true), OptionField("geometry", n.geometry, false);
    OptionFieldSize("appearance", n.appearance, true);
    OptionFieldSize("geometry", n.geometry, false);
    assert FieldsOf(n) == a + g;
    FieldSizesAppend(a, g);
  }

  lemma FaceSetFieldSizes(n: VrmlNode)
    requires n.IndexedFaceSet?
    ensures FieldSizes(FieldsOf(n)) == OptionSize(n.coord)
  {
    hide FieldSizes, Size;
    var coord := OptionField("coord", n.coord, true);
    var indices := if n.coordIndex != [] then [Field("coordIndex", Ints(n.coordIndex))] else [];
    var flags := [Field("ccw", Flag(n.ccw)), Field("convex", Flag(n.convex)),
                  Field("creaseAngle", Float(n.creaseAngle)), Field("solid", Flag(n.solid))];
    assert Plain(indices) && Plain(flags);
    OptionFieldSize("coord", n.coord, true);
    assert FieldsOf(n) == coord + indices + flags;
    hide FieldsOf, OptionField, Plain;
    PlainFieldSizes(indices);
    PlainFieldSizes(flags);
    FieldSizesAppend(coord, indices);
    FieldSizesAppend(coord + indices, flags);
  }

  /** The fields of a node are smaller than it. */
  lemma FieldsSmaller(n: VrmlNode)
    ensures FieldSizes(FieldsOf(n)) < Size(n)
  {
    hide FieldSizes, GroupFields;
    match KindOf(n)
    case GROUP => GroupFieldSizes(n.own);
    case TRANSFORM => TransformFieldSizes(n);
    case SHAPE => ShapeFieldSizes(n);
    case APPEARANCE => OptionFieldSize("material", n.material, true);
    case INDEXED_FACE_SET => FaceSetFieldSizes(n);
    case _ => PlainFieldSizes(FieldsOf(n));
  }

  // ---- printing ----

  datatype Token = Word(text: string) | Punct(c: char) | Number(x: real) | Integer(i: int)

  const OPEN := Punct('{')
  const CLOSE := Punct('}')

  function NodeName(n: VrmlNode): string {
    match KindOf(n)
    case GROUP => "Group"
    case TRANSFORM => "Transform"
    case SHAPE => "Shape"
    case APPEARANCE => "Appearance"
    case MATERIAL => "Material"
    case INDEXED_FACE_SET => "IndexedFaceSet"
    case COORDINATE => "Coordinate"
    case OTHER => "Other"
  }

  function PrintVec(v: Vec3): seq<Token> { [Number(v.x), Number(v.y), Number(v.z)] }

  function PrintVecs(s: seq<Vec3>): seq<Token> {
    if s == [] then [] else PrintVecs(s[..|s| - 1]) + PrintVec(s[|s| - 1])
  }

  function PrintInts(s: seq<int>): seq<Token> {
    if s == [] then [] else PrintInts(s[..|s| - 1]) + [Integer(s[|s| - 1])]
  }

  function Begin(n: VrmlNode): seq<Token> {
    (if n.defName == "" then [] else [Word("DEF"), Word(n.defName)]) + [Word(NodeName(n)), OPEN]
  }

  function Print(n: VrmlNode): seq<Token>
    decreases Size(n), 0, 0
  {
    FieldsSmaller(n);
    Begin(n) + PrintFields(FieldsOf(n)) + [CLOSE]
  }

  function PrintFields(fs: seq<Field>): seq<Token>
    decreases FieldSizes(fs), 3, |fs|
  {
    if fs == [] then []
    else PrintFields(fs[..|fs| - 1]) + [Word(fs[|fs| - 1].name)] + PrintValue(fs[|fs| - 1].value)
  }

  function PrintValue(v: Value): seq<Token>
    decreases ValueSize(v), 2, 0
  {
    match v
    case Float(x) => [Number(x)]
    case Vec(x) => PrintVec(x)
    case Turn(r) => PrintVec(r.axis) + [Number(r.angle)]
    case Flag(b) => [Word(if b then "TRUE" else "FALSE")]
    case Ints(s) => [Punct('[')] + PrintInts(s) + [Punct(']')]
    case Vecs(s) => [Punct('[')] + PrintVecs(s) + [Punct(']')]
    case Node(n, direct) => PrintNode(n, direct)
    case Nodes(s) => [Punct('[')] + PrintNodes(s) + [Punct(']')]
    case Null => [Word("NULL")]
  }

  /** Appearance, material and coordinates are printed by their owners; a geometry goes by the table of
      the writer, and nothing is printed for one that is not in it. */
  function PrintNode(n: VrmlNode, direct: bool): seq<Token>
    decreases Size(n), 1, 0
  {
    if direct || Writable(n) then Print(n) else []
  }

  function PrintNodes(s: seq<VrmlNode>): seq<Token>
    decreases Sizes(s), 1, |s|
  {
    if s == [] then []
    else PrintNodes(s[..|s| - 1]) + if Writable(s[|s| - 1]) then Print(s[|s| - 1]) else []
  }

  lemma {:induction false} PrintFieldsAppend(a: seq<Field>, b: seq<Field>)
    ensures PrintFields(a + b) == PrintFields(a) + PrintFields(b)
  {
    hide PrintValue, PrintFields;
    if b == [] {
      NoFieldsPrinted();
      assert a + b == a;
    } else {
      var f, b' := b[|b| - 1], b[..|b| - 1];
      PrintFieldsAppend(a, b');
      PrintFieldsLast(a + b', f);
      PrintFieldsLast(b', f);
      assert a + b == (a + b') + [f] && b == b' + [f];
    }
  }

  lemma NoFieldsPrinted()
    ensures PrintFields([]) == []
  {}

  lemma PrintFieldsLast(a: seq<Field>, f: Field)
    ensures PrintFields(a + [f]) == PrintFields(a) + ([Word(f.name)] + PrintValue(f.value))
  {
    hide PrintValue;
    var fs := a + [f];
    assert fs[..|fs| - 1] == a && fs[|fs| - 1] == f;
  }

  // ---- what the printed text means ----

  const AXIS_LIMIT: real := 0.000001

  function AxisLength(a: Vec3, sqrt: real -> real): real { sqrt(Dot(a, a)) }

  /** A field that the reader for the kind knows, with a value of the right type. */
  predicate KnownField(k: Kind, f: Field) {
    TypeOf(k, f.name).Some? && HasType(f.value, TypeOf(k, f.name).value)
  }

  predicate KnownFields(k: Kind, fs: seq<Field>) { forall i | 0 <= i < |fs| :: KnownField(k, fs[i]) }

  lemma KnownAppend(k: Kind, a: seq<Field>, b: seq<Field>)
    requires KnownFields(k, a) && KnownFields(k, b)
    ensures KnownFields(k, a + b)
  {
    hide KnownField;
  }

  lemma GroupFieldsKnown(k: Kind, g: Grouping)
    requires k == GROUP || k == TRANSFORM
    ensures KnownFields(k, GroupFields(g))
  {
    var box := if g.bboxSize.x >= 0.0 then [Field("bboxCenter", Vec(g.bboxCenter)), Field("bboxSize", Vec(g.bboxSize))]
        else [];
    var rest := if g.children != [] then [Field("children", Nodes(g.children))] else [];
    assert KnownFields(k, box) && KnownFields(k, rest);
    KnownAppend(k, box, rest);
  }

  lemma FaceSetFieldsKnown(n: VrmlNode)
    requires n.IndexedFaceSet?
    ensures KnownFields(INDEXED_FACE_SET, FieldsOf(n))
  {
    var c := if n.coord.Some? then [Field("coord", Node(n.coord.value, true))] else [];
    var i := if n.coordIndex != [] then [Field("coordIndex", Ints(n.coordIndex))] else [];
    var f := [Field("ccw", Flag(n.ccw)), Field("convex", Flag(n.convex)), Field("creaseAngle", Float(n.creaseAngle)),
              Field("solid", Flag(n.solid))];
    assert KnownFields(INDEXED_FACE_SET, c) && KnownFields(INDEXED_FACE_SET, i) && KnownFields(INDEXED_FACE_SET, f);
    hide KnownFields;
    KnownAppend(INDEXED_FACE_SET, c, i);
    KnownAppend(INDEXED_FACE_SET, c + i, f);
    assert FieldsOf(n) == c + i + f;
  }

  lemma TransformFieldsKnown(n: VrmlNode)
    requires n.Transform?
    ensures KnownFields(TRANSFORM, FieldsOf(n))
  {
    var own := [Field("center", Vec(n.center)), Field("rotation", Turn(n.rotation)), Field("scale", Vec(n.scale)),
                Field("scaleOrientation", Turn(n.scaleOrientation)), Field("translation", Vec(n.translation))];
    assert KnownFields(TRANSFORM, own);
    hide KnownFields;
    GroupFieldsKnown(TRANSFORM, n.base);
    KnownAppend(TRANSFORM, own, GroupFields(n.base));
    assert FieldsOf(n) == own + GroupFields(n.base);
  }

  lemma FieldsKnown(n: VrmlNode)
    ensures KnownFields(KindOf(n), FieldsOf(n))
  {
    match KindOf(n)
    case GROUP => GroupFieldsKnown(GROUP, n.own);
    case TRANSFORM => TransformFieldsKnown(n);
    case INDEXED_FACE_SET => FaceSetFieldsKnown(n);
    case SHAPE => KnownAppend(SHAPE, OptionField("appearance", n.appearance, true),
                              OptionField("geometry", n.geometry, false));
    case _ =>
  }

  /** A node as its reader starts it. */
  function Default(k: Kind): (n: VrmlNode)
    ensures KindOf(n) == k
  {
    var unset := Vec3(-1.0, -1.0, -1.0);
    var still := Rotation(Vec3(0.0, 0.0, 1.0), 0.0);
    match k
    case GROUP => Group("", Grouping(ZERO3, unset, []))
    case TRANSFORM => Transform("", ZERO3, still, Vec3(1.0, 1.0, 1.0), still, ZERO3, Grouping(ZERO3, unset, []))
    case SHAPE => Shape("", None, None)
    case APPEARANCE => Appearance("", None, false)
    case MATERIAL => Material("", 0.2, Vec3(0.8, 0.8, 0.8), ZERO3, 0.2, ZERO3, 0.0)
    case INDEXED_FACE_SET => IndexedFaceSet("", None, [], true, true, 0.0, true, false)
    case COORDINATE => Coordinate("", [])
    case OTHER => OtherNode("")
  }

  function Optional(v: Value): Option<VrmlNode> { if v.Node? then Some(v.node) else None }

  function SetGrouping(g: Grouping, f: Field): Grouping
    requires KnownField(GROUP, f)
  {
    if f.name == "bboxCenter" then g.(bboxCenter := f.value.v)
    else if f.name == "bboxSize" then g.(bboxSize := f.value.v)
    else g.(children := f.value.nodes)
  }

  /** A node with one field set to a value that was read. */
  function Set(n: VrmlNode, f: Field): (r: VrmlNode)
    requires KnownField(KindOf(n), f)
    ensures KindOf(r) == KindOf(n) && r.defName == n.defName
  {
    var x := f.value;
    match KindOf(n)
    case GROUP =>
      n.(own := SetGrouping(n.own, f))
    case TRANSFORM =>
      if f.name == "center" then n.(center := x.v) else if f.name == "rotation" then n.(rotation := x.r)
      else if f.name == "scale" then n.(scale := x.v)
      else if f.name == "scaleOrientation" then n.(scaleOrientation := x.r)
      else if f.name == "translation" then n.(translation := x.v)
      else n.(base := SetGrouping(n.base, f))
    case SHAPE => if f.name == "appearance" then n.(appearance := Optional(x)) else n.(geometry := Optional(x))
    case APPEARANCE => n.(material := Optional(x))
    case MATERIAL =>
      if f.name == "ambientIntensity" then n.(ambientIntensity := x.f)
      else if f.name == "diffuseColor" then n.(diffuseColor := x.v)
      else if f.name == "emissiveColor" then n.(emissiveColor := x.v)
      else if f.name == "shininess" then n.(shininess := x.f)
      else if f.name == "specularColor" then n.(specularColor := x.v) else n.(transparency := x.f)
    case INDEXED_FACE_SET =>
      if f.name == "coord" then n.(coord := Optional(x)) else if f.name == "coordIndex" then n.(coordIndex := x.ints)
      else if f.name == "ccw" then n.(ccw := x.b) else if f.name == "convex" then n.(convex := x.b)
      else if f.name == "creaseAngle" then n.(creaseAngle := x.f) else n.(solid := x.b)
    case COORDINATE => n.(point := x.vecs)
    case OTHER => n
  }

  function Named(n: VrmlNode, name: string): (r: VrmlNode)
    ensures KindOf(r) == KindOf(n) && r.defName == name
  {
    n.(defName := name)
  }

  /** What the parser makes of a printed value, if it accepts it. */
  ghost function ReadBack(v: Value, sqrt: real -> real): (r: Value)
    ensures forall t: FieldType :: HasType(v, t) ==> HasType(r, t)
    decreases ValueSize(v), 2, 0
  {
    match v
    case Turn(r) => Turn(Normalized(r, sqrt))
    case Node(n, direct) => if direct || Writable(n) then Node(Reread(n, sqrt), true) else Null
    case Nodes(s) => Nodes(RereadAll(s, sqrt))
    case _ => v
  }

  ghost function Normalized(r: Rotation, sqrt: real -> real): Rotation {
    var len := AxisLength(r.axis, sqrt);
    if len == 0.0 then r else Rotation(Vec3(r.axis.x / len, r.axis.y / len, r.axis.z / len), r.angle)
  }

  ghost function SetAll(base: VrmlNode, fs: seq<Field>, sqrt: real -> real): (r: VrmlNode)
    requires KnownFields(KindOf(base), fs)
    ensures KindOf(r) == KindOf(base) && r.defName == base.defName
    decreases FieldSizes(fs), 3, |fs|
  {
    if fs == [] then base
    else
      var f := fs[|fs| - 1];
      var front := SetAll(base, fs[..|fs| - 1], sqrt);
      Set(front, Field(f.name, ReadBack(f.value, sqrt)))
  }

  /** The node that the parser makes of a printed node. */
  ghost function Reread(n: VrmlNode, sqrt: real -> real): (r: VrmlNode)
    ensures KindOf(r) == KindOf(n) && r.defName == n.defName
    decreases Size(n), 0, 0
  {
    FieldsSmaller(n);
    FieldsKnown(n);
    Named(SetAll(Default(KindOf(n)), FieldsOf(n), sqrt), n.defName)
  }

  ghost function RereadAll(s: seq<VrmlNode>, sqrt: real -> real): seq<VrmlNode>
    decreases Sizes(s), 1, |s|
  {
    if s == [] then []
    else RereadAll(s[..|s| - 1], sqrt) + if Writable(s[|s| - 1]) then [Reread(s[|s| - 1], sqrt)] else []
  }

  /** Whether the parser accepts a printed value: rotation axes are not zero, nodes are where they may be. */
  ghost predicate Accepted(v: Value, t: FieldType, sqrt: real -> real)
    decreases ValueSize(v), 2, 0
  {
    match v
    case Turn(r) => AxisLength(r.axis, sqrt) >= AXIS_LIMIT
    case Node(n, direct) => t.NODE? && (direct || Writable(n) ==> Placed(n, t.category, sqrt))
    case Nodes(s) => AllPlaced(s, sqrt)
    case _ => true
  }

  ghost predicate AllAccepted(k: Kind, fs: seq<Field>, sqrt: real -> real)
    requires KnownFields(k, fs)
    decreases FieldSizes(fs), 3, |fs|
  {
    fs == [] || (AllAccepted(k, fs[..|fs| - 1], sqrt)
                 && Accepted(fs[|fs| - 1].value, TypeOf(k, fs[|fs| - 1].name).value, sqrt))
  }

  /** A node that the parser accepts where nodes of a category are asked for. */
  ghost predicate Placed(n: VrmlNode, c: Category, sqrt: real -> real)
    decreases Size(n), 0, 0
  {
    FieldsSmaller(n);
    FieldsKnown(n);
    IsCategoryOf(KindOf(n), c) && AllAccepted(KindOf(n), FieldsOf(n), sqrt)
  }

  ghost predicate AllPlaced(s: seq<VrmlNode>, sqrt: real -> real)
    decreases Sizes(s), 1, |s|
  {
    s == [] || (AllPlaced(s[..|s| - 1], sqrt) && (Writable(s[|s| - 1]) ==> Placed(s[|s| - 1], CHILD_NODE, sqrt)))
  }
}
