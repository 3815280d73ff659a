/** Printing a scene graph: the tokens that the writer puts out for each node. */
module VrmlWriters {
  import opened LinearAlgebra
  import opened VrmlNodes

  /** One more field printed. */
  lemma FieldPrinted(begun: seq<Token>, done: seq<Field>, f: Field, value: seq<Token>)
    requires value == PrintValue(f.value)
    ensures begun + PrintFields(done) + [Word(f.name)] + value == begun + PrintFields(done + [f])
  {
    assert (done + [f])[..|done + [f]| - 1] == done;
    assert PrintFields(done + [f]) == PrintFields(done) + [Word(f.name)] + value;
  }

  class VrmlWriter {
    var out: seq<Token>
    var indent: nat

    constructor ()
      ensures out == [] && indent == 0
    {
      out, indent := [], 0;
    }

    /** One field with a single value. */
    method WriteField(f: Field, ghost begun: seq<Token>, ghost done: seq<Field>)
      requires f.value.Float? || f.value.Vec? || f.value.Turn? || f.value.Flag?
      requires out == begun + PrintFields(done)
      modifies `out
      ensures out == begun + PrintFields(done + [f])
    {
      FieldPrinted(begun, done, f, PrintValue(f.value));
      out := out + [Word(f.name)];
      out := out + PrintValue(f.value);
    }

    method WriteMFVec3f(values: seq<Vec3>)
      modifies `out, `indent
      ensures out == old(out) + PrintValue(Vecs(values)) && indent == old(indent)
    {
      indent := indent + 1;
      out := out + [Punct('[')];
      indent := indent + 1;
      var i := 0;
      while i < |values|
        invariant 0 <= i <= |values| && indent == old(indent) + 2
        invariant out == old(out) + ([Punct('[')] + PrintVecs(values[..i]))
      {
        assert values[..i + 1][..i] == values[..i];
        out := out + PrintVec(values[i]);
        i := i + 1;
      }
      assert values[..i] == values;
      indent := indent - 1;
      out := out + [Punct(']')];
      indent := indent - 1;
    }

    method WriteMFInt32SeparatedByMinusValue(values: seq<int>)
      modifies `out, `indent
      ensures out == old(out) + PrintValue(Ints(values)) && indent == old(indent)
    {
      indent := indent + 1;
      out := out + [Punct('[')];
      indent := indent + 1;
      var i := 0;
      while i < |values|
        invariant 0 <= i <= |values| && indent == old(indent) + 2
        invariant out == old(out) + ([Punct('[')] + PrintInts(values[..i]))
      {
        assert values[..i + 1][..i] == values[..i];
        out := out + [Integer(values[i])];
        i := i + 1;
      }
      assert values[..i] == values;
      indent := indent - 1;
      out := out + [Punct(']')];
      indent := indent - 1;
    }

    method BeginNode(nodename: string, node: VrmlNode)
      requires nodename == NodeName(node)
      modifies `out, `indent
      ensures out == old(out) + Begin(node) && indent == old(indent) + 1
    {
      if node.defName == "" {
        out := out + [Word(nodename), OPEN];
      } else {
        out := out + [Word("DEF"), Word(node.defName), Word(nodename), OPEN];
      }
      indent := indent + 1;
    }

    method EndNode(ghost node: VrmlNode, ghost before: seq<Token>)
      requires indent > 0 && out == before + Begin(node) + PrintFields(FieldsOf(node))
      modifies `out, `indent
      ensures out == before + Print(node) && indent == old(indent) - 1
    {
      indent := indent - 1;
      out := out + [CLOSE];
    }

    method WriteNode(node: VrmlNode)
      requires WellTyped(node)
      modifies `out, `indent
      ensures out == old(out) + (if Writable(node) then Print(node) else []) && indent == 0
    {
      indent := 0;
      WriteNodeIter(node);
    }

    method WriteNodeIter(node: VrmlNode)
      requires WellTyped(node)
      modifies `out, `indent
      ensures out == old(out) + (if Writable(node) then Print(node) else []) && indent == old(indent)
      decreases Size(node), 2
    {
      hide Print;
      if node.Group? {
        WriteGroupNode(node);
      } else if node.Transform? {
        WriteTransformNode(node);
      } else if node.Shape? {
        WriteShapeNode(node);
      } else if node.IndexedFaceSet? {
        WriteIndexedFaceSetNode(node);
      } else {
        assert out == out + [];
      }
    }

    method WriteGroupNode(node: VrmlNode)
      requires WellTyped(node) && node.Group?
      modifies `out, `indent
      ensures out == old(out) + Print(node) && indent == old(indent)
      decreases Size(node), 1
    {
      hide PrintFields, Print, GroupFields;
      ghost var begun := out + Begin(node);
      BeginNode("Group", node);
      NothingPrinted(begun);
      WriteGroupFields(node.own, begun, []);
      assert [] + GroupFields(node.own) == FieldsOf(node);
      EndNode(node, old(out));
    }

    /** The fields of a grouping, after others. */
    method WriteGroupFields(g: Grouping, ghost begun: seq<Token>, ghost done0: seq<Field>)
      requires forall i | 0 <= i < |g.children| :: WellTyped(g.children[i])
      requires out == begun + PrintFields(done0)
      modifies `out, `indent
      ensures out == begun + PrintFields(done0 + GroupFields(g)) && indent == old(indent)
      decreases Sizes(g.children), 4
    {
      hide PrintFields, PrintValue, Sizes, WellTyped;
      ghost var done := done0;
      if g.bboxSize.x >= 0.0 {
        WriteField(Field("bboxCenter", Vec(g.bboxCenter)), begun, done);
        done := done + [Field("bboxCenter", Vec(g.bboxCenter))];
        WriteField(Field("bboxSize", Vec(g.bboxSize)), begun, done);
        done := done + [Field("bboxSize", Vec(g.bboxSize))];
      }
      if |g.children| > 0 {
        FieldPrinted(begun, done, Field("children", Nodes(g.children)), PrintValue(Nodes(g.children)));
        WriteChildren(g.children);
        done := done + [Field("children", Nodes(g.children))];
      }
      assert done == done0 + GroupFields(g);
    }

    method WriteChildren(children: seq<VrmlNode>)
      requires forall i | 0 <= i < |children| :: WellTyped(children[i])
      modifies `out, `indent
      ensures out == old(out) + [Word("children")] + PrintValue(Nodes(children)) && indent == old(indent)
      decreases Sizes(children), 3
    {
      hide Print;
      out := out + [Word("children"), Punct('[')];
      ghost var begun := out;
      indent := indent + 1;
      var i := 0;
      while i < |children|
        invariant 0 <= i <= |children| && indent == old(indent) + 1
        invariant out == begun + PrintNodes(children[..i])
      {
        assert children[..i + 1][..i] == children[..i];
        SizesAt(children, i);
        WriteNodeIter(children[i]);
        i := i + 1;
      }
      assert children[..i] == children;
      indent := indent - 1;
      out := out + [Punct(']')];
    }

    method WriteTransformNode(node: VrmlNode)
      requires WellTyped(node) && node.Transform?
      modifies `out, `indent
      ensures out == old(out) + Print(node) && indent == old(indent)
      decreases Size(node), 1
    {
      hide PrintFields, GroupFields;
      ghost var begun := out + Begin(node);
      BeginNode("Transform", node);
      ghost var done: seq<Field> := [];
      NothingPrinted(begun);
      WriteField(Field("center", Vec(node.center)), begun, done);
      done := done + [Field("center", Vec(node.center))];
      WriteField(Field("rotation", Turn(node.rotation)), begun, done);
      done := done + [Field("rotation", Turn(node.rotation))];
      WriteField(Field("scale", Vec(node.scale)), begun, done);
      done := done + [Field("scale", Vec(node.scale))];
      WriteField(Field("scaleOrientation", Turn(node.scaleOrientation)), begun, done);
      done := done + [Field("scaleOrientation", Turn(node.scaleOrientation))];
      WriteField(Field("translation", Vec(node.translation)), begun, done);
      done := done + [Field("translation", Vec(node.translation))];
      WriteGroupFields(node.base, begun, done);
      assert done + GroupFields(node.base) == FieldsOf(node);
      EndNode(node, old(out));
    }

    method WriteShapeNode(node: VrmlNode)
      requires WellTyped(node) && node.Shape?
      modifies `out, `indent
      ensures out == old(out) + Print(node) && indent == old(indent)
      decreases Size(node), 1
    {
      hide PrintFields, Print;
      ghost var begun := out + Begin(node);
      BeginNode("Shape", node);
      ghost var done: seq<Field> := [];
      NothingPrinted(begun);
      if node.appearance.Some? {
        var a := node.appearance.value;
        FieldPrinted(begun, done, Field("appearance", Node(a, true)), Print(a));
        out := out + [Word("appearance")];
        indent := indent + 1;
        WriteAppearanceNode(a);
        indent := indent - 1;
        done := done + [Field("appearance", Node(a, true))];
      }
      if node.geometry.Some? {
        var g := node.geometry.value;
        FieldPrinted(begun, done, Field("geometry", Node(g, false)), if Writable(g) then Print(g) else []);
        out := out + [Word("geometry")];
        if Writable(g) {
          indent := indent + 1;
          WriteNodeIter(g);
          indent := indent - 1;
        }
        done := done + [Field("geometry", Node(g, false))];
      }
      assert done == FieldsOf(node);
      EndNode(node, old(out));
    }

    method WriteAppearanceNode(node: VrmlNode)
      requires WellTyped(node) && node.Appearance?
      modifies `out, `indent
      ensures out == old(out) + Print(node) && indent == old(indent)
      decreases Size(node), 1
    {
      hide PrintFields, Print;
      ghost var begun := out + Begin(node);
      BeginNode("Appearance", node);
      ghost var done: seq<Field> := [];
      NothingPrinted(begun);
      if node.material.Some? {
        var m := node.material.value;
        FieldPrinted(begun, done, Field("material", Node(m, true)), Print(m));
        out := out + [Word("material")];
        indent := indent + 1;
        WriteMaterialNode(m);
        indent := indent - 1;
        done := done + [Field("material", Node(m, true))];
      }
      assert done == FieldsOf(node);
      EndNode(node, old(out));
    }

    method WriteMaterialNode(node: VrmlNode)
      requires node.Material?
      modifies `out, `indent
      ensures out == old(out) + Print(node) && indent == old(indent)
    {
      hide PrintFields;
      ghost var begun := out + Begin(node);
      BeginNode("Material", node);
      ghost var done: seq<Field> := [];
      NothingPrinted(begun);
      WriteField(Field("ambientIntensity", Float(node.ambientIntensity)), begun, done);
      done := done + [Field("ambientIntensity", Float(node.ambientIntensity))];
      WriteField(Field("diffuseColor", Vec(node.diffuseColor)), begun, done);
      done := done + [Field("diffuseColor", Vec(node.diffuseColor))];
      WriteField(Field("emissiveColor", Vec(node.emissiveColor)), begun, done);
      done := done + [Field("emissiveColor", Vec(node.emissiveColor))];
      WriteField(Field("shininess", Float(node.shininess)), begun, done);
      done := done + [Field("shininess", Float(node.shininess))];
      WriteField(Field("specularColor", Vec(node.specularColor)), begun, done);
      done := done + [Field("specularColor", Vec(node.specularColor))];
      WriteField(Field("transparency", Float(node.transparency)), begun, done);
      done := done + [Field("transparency", Float(node.transparency))];
      assert done == FieldsOf(node);
      EndNode(node, old(out));
    }

    method WriteIndexedFaceSetNode(node: VrmlNode)
      requires WellTyped(node) && node.IndexedFaceSet?
      modifies `out, `indent
      ensures out == old(out) + Print(node) && indent == old(indent)
      decreases Size(node), 1
    {
      hide PrintFields, Print;
      ghost var begun := out + Begin(node);
      BeginNode("IndexedFaceSet", node);
      ghost var done: seq<Field> := [];
      NothingPrinted(begun);
      if node.coord.Some? {
        var c := node.coord.value;
        FieldPrinted(begun, done, Field("coord", Node(c, true)), Print(c));
        out := out + [Word("coord")];
        indent := indent + 1;
        WriteCoordinateNode(c);
        indent := indent - 1;
        done := done + [Field("coord", Node(c, true))];
      }
      if |node.coordIndex| > 0 {
        FieldPrinted(begun, done, Field("coordIndex", Ints(node.coordIndex)), PrintValue(Ints(node.coordIndex)));
        out := out + [Word("coordIndex")];
        WriteMFInt32SeparatedByMinusValue(node.coordIndex);
        done := done + [Field("coordIndex", Ints(node.coordIndex))];
      }
      WriteFlags(node, begun, done);
      assert done + FlagFields(node) == FieldsOf(node);
      EndNode(node, old(out));
    }

    method WriteFlags(node: VrmlNode, ghost begun: seq<Token>, ghost done0: seq<Field>)
      requires node.IndexedFaceSet? && out == begun + PrintFields(done0)
      modifies `out
      ensures out == begun + PrintFields(done0 + FlagFields(node))
    {
      hide PrintFields;
      ghost var done := done0;
      WriteField(Field("ccw", Flag(node.ccw)), begun, done);
      done := done + [Field("ccw", Flag(node.ccw))];
      WriteField(Field("convex", Flag(node.convex)), begun, done);
      done := done + [Field("convex", Flag(node.convex))];
      WriteField(Field("creaseAngle", Float(node.creaseAngle)), begun, done);
      done := done + [Field("creaseAngle", Float(node.creaseAngle))];
      WriteField(Field("solid", Flag(node.solid)), begun, done);
      done := done + [Field("solid", Flag(node.solid))];
      assert done == done0 + FlagFields(node);
    }

    method WriteCoordinateNode(node: VrmlNode)
      requires node.Coordinate?
      modifies `out, `indent
      ensures out == old(out) + Print(node) && indent == old(indent)
    {
      hide PrintFields;
      ghost var begun := out + Begin(node);
      BeginNode("Coordinate", node);
      ghost var done: seq<Field> := [];
      NothingPrinted(begun);
      if |node.point| > 0 {
        FieldPrinted(begun, done, Field("point", Vecs(node.point)), PrintValue(Vecs(node.point)));
        out := out + [Word("point")];
        WriteMFVec3f(node.point);
        done := done + [Field("point", Vecs(node.point))];
      }
      assert done == FieldsOf(node);
      EndNode(node, old(out));
    }

    lemma NothingPrinted(begun: seq<Token>)
      ensures begun == begun + PrintFields([])
    {}
  }

  lemma {:induction false} SizesAt(s: seq<VrmlNode>, i: nat)
    requires i < |s|
    ensures Size(s[i]) <= Sizes(s)
  {
    if i < |s| - 1 {
      SizesAt(s[..|s| - 1], i);
    }
  }
}
