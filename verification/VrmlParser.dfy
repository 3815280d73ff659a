/** Reading nodes from tokens, and that it gives back what the writer printed. */
module VrmlParsers {
  import opened LinearAlgebra
  import opened Roots
  import opened VrmlNodes

  datatype Result<T> = Ok(value: T) | Err(message: string)

  function KindNamed(name: string): Kind {
    if name == "Group" then GROUP
    else if name == "Transform" then TRANSFORM
    else if name == "Shape" then SHAPE
    else if name == "Appearance" then APPEARANCE
    else if name == "Material" then MATERIAL
    else if name == "IndexedFaceSet" then INDEXED_FACE_SET
    else if name == "Coordinate" then COORDINATE
    else OTHER
  }

  lemma NameKeepsKind(n: VrmlNode)
    ensures KindNamed(NodeName(n)) == KindOf(n)
    ensures NodeName(n) != "DEF" && NodeName(n) != "IS" && NodeName(n) != "NULL"
  {}

  // ---- lists printed from the front ----

  lemma {:induction false} PrintVecsFront(s: seq<Vec3>)
    requires s != []
    ensures PrintVecs(s) == PrintVec(s[0]) + PrintVecs(s[1..])
  {
    var n := |s| - 1;
    if n > 0 {
      PrintVecsFront(s[..n]);
      assert s[..n][1..] == s[1..][..n - 1];
    }
  }

  lemma {:induction false} PrintIntsFront(s: seq<int>)
    requires s != []
    ensures PrintInts(s) == [Integer(s[0])] + PrintInts(s[1..])
  {
    var n := |s| - 1;
    if n > 0 {
      PrintIntsFront(s[..n]);
      assert s[..n][1..] == s[1..][..n - 1];
    }
  }

  lemma NextVec(s: seq<Vec3>, k: nat, tail: seq<Token>)
    requires k < |s|
    ensures PrintVecs(s[k..]) + tail == PrintVec(s[k]) + (PrintVecs(s[k + 1..]) + tail)
    ensures s[..k] + [s[k]] == s[..k + 1] && (PrintVecs(s[k..]) + tail)[0].Number?
  {
    PrintVecsFront(s[k..]);
    assert s[k..][1..] == s[k + 1..];
  }

  lemma NextInt(s: seq<int>, k: nat, tail: seq<Token>)
    requires k < |s|
    ensures PrintInts(s[k..]) + tail == [Integer(s[k])] + (PrintInts(s[k + 1..]) + tail)
    ensures s[..k] + [s[k]] == s[..k + 1]
  {
    PrintIntsFront(s[k..]);
    assert s[k..][1..] == s[k + 1..];
  }

  lemma NoVecLeft(s: seq<Vec3>, k: nat, tail: seq<Token>)
    requires k == |s|
    ensures PrintVecs(s[k..]) + tail == tail && s[..k] == s
  {}

  lemma NoIntLeft(s: seq<int>, k: nat, tail: seq<Token>)
    requires k == |s|
    ensures PrintInts(s[k..]) + tail == tail && s[..k] == s
  {}

  lemma PrintFieldsFront(fs: seq<Field>)
    requires fs != []
    ensures PrintFields(fs) == [Word(fs[0].name)] + PrintValue(fs[0].value) + PrintFields(fs[1..])
  {
    assert fs == [fs[0]] + fs[1..];
    PrintFieldsAppend([fs[0]], fs[1..]);
    assert [fs[0]][..0] == [];
  }

  class VrmlParserImpl {
    const tokens: seq<Token>
    const sqrt: real -> real
    var pos: nat
    var defNodeMap: map<string, VrmlNode>

    constructor (tokens: seq<Token>, sqrt: real -> real)
      ensures this.tokens == tokens && this.sqrt == sqrt && pos == 0 && defNodeMap == map[] && Valid()
    {
      this.tokens, this.sqrt, pos, defNodeMap := tokens, sqrt, 0, map[];
    }

    predicate Valid()
      reads `pos
    {
      pos <= |tokens|
    }

    ghost function Rest(): seq<Token>
      requires Valid()
      reads `pos
    {
      tokens[pos..]
    }

    // ---- the scanner ----

    method ReadWord() returns (w: Option<string>)
      requires Valid()
      modifies `pos
      ensures Valid()
      ensures w.Some? <==> old(Rest()) != [] && old(Rest())[0].Word?
      ensures w.Some? ==> old(Rest())[0] == Word(w.value) && Rest() == old(Rest())[1..] && pos == old(pos) + 1
      ensures w.None? ==> pos == old(pos)
    {
      if pos < |tokens| && tokens[pos].Word? {
        w := Some(tokens[pos].text);
        pos := pos + 1;
      } else {
        w := None;
      }
    }

    /** A given word, or nothing. */
    method ReadSymbol(text: string) returns (found: bool)
      requires Valid()
      modifies `pos
      ensures Valid()
      ensures found <==> old(Rest()) != [] && old(Rest())[0] == Word(text)
      ensures found ==> Rest() == old(Rest())[1..] && pos == old(pos) + 1
      ensures !found ==> pos == old(pos)
    {
      found := pos < |tokens| && tokens[pos] == Word(text);
      if found {
        pos := pos + 1;
      }
    }

    method ReadChar(c: char) returns (found: bool)
      requires Valid()
      modifies `pos
      ensures Valid()
      ensures found <==> old(Rest()) != [] && old(Rest())[0] == Punct(c)
      ensures found ==> Rest() == old(Rest())[1..] && pos == old(pos) + 1
      ensures !found ==> pos == old(pos)
    {
      found := pos < |tokens| && tokens[pos] == Punct(c);
      if found {
        pos := pos + 1;
      }
    }

    // ---- values ----

    method ReadSFFloat(ghost x: real, ghost rest: seq<Token>) returns (r: Result<real>)
      requires Valid()
      modifies `pos
      ensures Valid() && pos >= old(pos)
      ensures old(Rest()) == [Number(x)] + rest ==> r == Ok(x) && Rest() == rest
      ensures r.Ok? ==> pos > old(pos)
    {
      if pos < |tokens| && (tokens[pos].Number? || tokens[pos].Integer?) {
        r := Ok(if tokens[pos].Number? then tokens[pos].x else tokens[pos].i as real);
        pos := pos + 1;
      } else {
        r := Err("illegal float value");
      }
    }

    method ReadSFInt32(ghost x: int, ghost rest: seq<Token>) returns (r: Result<int>)
      requires Valid()
      modifies `pos
      ensures Valid() && pos >= old(pos)
      ensures old(Rest()) == [Integer(x)] + rest ==> r == Ok(x) && Rest() == rest
      ensures r.Ok? ==> pos > old(pos)
    {
      if pos < |tokens| && tokens[pos].Integer? {
        r := Ok(tokens[pos].i);
        pos := pos + 1;
      } else {
        r := Err("illegal int value");
      }
    }

    method ReadSFVec3f(ghost v: Vec3, ghost rest: seq<Token>) returns (r: Result<Vec3>)
      requires Valid()
      modifies `pos
      ensures Valid() && pos >= old(pos)
      ensures old(Rest()) == PrintVec(v) + rest ==> r == Ok(v) && Rest() == rest
      ensures r.Ok? ==> pos > old(pos)
    {
      assert PrintVec(v) + rest == [Number(v.x)] + ([Number(v.y)] + ([Number(v.z)] + rest));
      var x := ReadSFFloat(v.x, [Number(v.y)] + ([Number(v.z)] + rest));
      if x.Err? { return Err(x.message); }
      var y := ReadSFFloat(v.y, [Number(v.z)] + rest);
      if y.Err? { return Err(y.message); }
      var z := ReadSFFloat(v.z, rest);
      if z.Err? { return Err(z.message); }
      r := Ok(Vec3(x.value, y.value, z.value));
    }

    method ReadSFRotation(ghost a: Rotation, ghost rest: seq<Token>) returns (r: Result<Rotation>)
      requires Valid() && IsSqrt(sqrt)
      modifies `pos
      ensures Valid() && pos >= old(pos)
      ensures old(Rest()) == PrintValue(Turn(a)) + rest ==> (r.Ok? <==> AxisLength(a.axis, sqrt) >= AXIS_LIMIT)
      ensures old(Rest()) == PrintValue(Turn(a)) + rest && r.Ok? ==> r.value == Normalized(a, sqrt) && Rest() == rest
      ensures r.Ok? ==> pos > old(pos)
    {
      assert PrintValue(Turn(a)) + rest == PrintVec(a.axis) + ([Number(a.angle)] + rest);
      var axis := ReadSFVec3f(a.axis, [Number(a.angle)] + rest);
      if axis.Err? { return Err(axis.message); }
      var angle := ReadSFFloat(a.angle, rest);
      if angle.Err? { return Err(angle.message); }
      LengthNotNegative(axis.value, sqrt);
      var len := AxisLength(axis.value, sqrt);
      if len < AXIS_LIMIT {
        return Err("Rotation axis is zero vector");
      }
      r := Ok(Rotation(Vec3(axis.value.x / len, axis.value.y / len, axis.value.z / len), angle.value));
    }

    method ReadSFBool(ghost b: bool, ghost rest: seq<Token>) returns (r: Result<bool>)
      requires Valid()
      modifies `pos
      ensures Valid() && pos >= old(pos)
      ensures old(Rest()) == PrintValue(Flag(b)) + rest ==> r == Ok(b) && Rest() == rest
    {
      var w := ReadWord();
      if w.Some? && w.value == "TRUE" {
        r := Ok(true);
      } else if w.Some? && w.value == "FALSE" {
        r := Ok(false);
      } else {
        r := Err("no bool value");
      }
    }

    method ReadMFInt32(ghost s: seq<int>, ghost rest: seq<Token>) returns (r: Result<seq<int>>)
      requires Valid()
      modifies `pos
      ensures Valid() && pos >= old(pos)
      ensures old(Rest()) == PrintValue(Ints(s)) + rest ==> r == Ok(s) && Rest() == rest
    {
      ghost var good := Rest() == PrintValue(Ints(s)) + rest;
      ghost var tail := [Punct(']')] + rest;
      assert PrintValue(Ints(s)) + rest == [Punct('[')] + (PrintInts(s) + tail);
      assert s[0..] == s;
      hide PrintInts, PrintValue;
      var open := ReadChar('[');
      if !open {
        var v := ReadSFInt32(0, []);
        if v.Err? { return Err(v.message); }
        return Ok([v.value]);
      }
      var values := [];
      ghost var k := 0;
      while true
        invariant Valid() && pos >= old(pos)
        invariant good ==> 0 <= k <= |s| && values == s[..k] && Rest() == PrintInts(s[k..]) + tail
        decreases |tokens| - pos
      {
        if good && k < |s| {
          NextInt(s, k, tail);
        } else if good {
          NoIntLeft(s, k, tail);
        }
        ghost var here := Rest();
        var closed := ReadChar(']');
        if closed {
          assert good ==> here[0] == Punct(']') && k == |s|;
          return Ok(values);
        }
        var v := ReadSFInt32(if good && k < |s| then s[k] else 0, if good
                             && k < |s| then PrintInts(s[k + 1..]) + tail else []);
        if v.Err? { return Err(v.message); }
        values := values + [v.value];
        k := k + 1;
      }
    }

    method ReadMFVec3f(ghost s: seq<Vec3>, ghost rest: seq<Token>) returns (r: Result<seq<Vec3>>)
      requires Valid()
      modifies `pos
      ensures Valid() && pos >= old(pos)
      ensures old(Rest()) == PrintValue(Vecs(s)) + rest ==> r == Ok(s) && Rest() == rest
    {
      ghost var good := Rest() == PrintValue(Vecs(s)) + rest;
      ghost var tail := [Punct(']')] + rest;
      assert PrintValue(Vecs(s)) + rest == [Punct('[')] + (PrintVecs(s) + tail);
      assert s[0..] == s;
      hide PrintVecs, PrintVec, PrintValue;
      var open := ReadChar('[');
      if !open {
        var v := ReadSFVec3f(ZERO3, []);
        if v.Err? { return Err(v.message); }
        return Ok([v.value]);
      }
      var values := [];
      ghost var k := 0;
      while true
        invariant Valid() && pos >= old(pos)
        invariant good ==> 0 <= k <= |s| && values == s[..k] && Rest() == PrintVecs(s[k..]) + tail
        decreases |tokens| - pos
      {
        if good && k < |s| {
          NextVec(s, k, tail);
        } else if good {
          NoVecLeft(s, k, tail);
        }
        ghost var here := Rest();
        var closed := ReadChar(']');
        if closed {
          assert good ==> here[0] == Punct(']') && k == |s|;
          return Ok(values);
        }
        var v := ReadSFVec3f(if good && k < |s| then s[k] else ZERO3, if good
                             && k < |s| then PrintVecs(s[k + 1..]) + tail else []);
        if v.Err? { return Err(v.message); }
        values := values + [v.value];
        k := k + 1;
      }
    }

    // ---- nodes ----

    /** What comes next does not begin a node. */
    ghost predicate NoNodeAhead()
      requires Valid()
      reads `pos
    {
      Rest() == [] || !Rest()[0].Word?
    }

    /** The name that a node is given, if any, and the name of its type. */
    method ReadNodeName(ghost n: VrmlNode, ghost rest: seq<Token>) returns (r: Result<Option<(string, string)>>)
      requires Valid()
      modifies `pos
      ensures Valid() && pos >= old(pos)
      ensures r.Ok? && r.value.Some? ==> pos > old(pos)
      ensures old(NoNodeAhead()) ==> r == Ok(None) && pos == old(pos)
      ensures old(Rest()) == NamePart(n) + rest ==> r == Ok(Some((n.defName, NodeName(n)))) && Rest() == rest
    {
      hide NodeName, NamePart, KindOf, KindNamed;
      NameKeepsKind(n);
      NameTokens(n, rest);
      var word := ReadWord();
      if word.None? {
        return Ok(None);
      }
      var defName, nodeTypeName := "", word.value;
      if nodeTypeName == "DEF" {
        var name := ReadWord();
        if name.None? { return Err("Illegal DEF name"); }
        defName := name.value;
        var w := ReadWord();
        nodeTypeName := if w.Some? then w.value else defName;
      }
      r := Ok(Some((defName, nodeTypeName)));
    }

    /** A node, or nothing where no word follows. */
    method ReadNode(c: Category, ghost n: VrmlNode, ghost rest: seq<Token>) returns (r: Result<Option<VrmlNode>>)
      requires Valid() && IsSqrt(sqrt)
      modifies `pos, `defNodeMap
      ensures Valid() && pos >= old(pos)
      ensures r.Ok? && r.value.Some? ==> pos > old(pos)
      ensures old(NoNodeAhead()) ==> r == Ok(None) && pos == old(pos)
      ensures old(Rest()) == Print(n) + rest ==> (r.Ok? <==> Placed(n, c, sqrt))
      ensures old(Rest()) == Print(n) + rest && r.Ok? ==> r.value == Some(Reread(n, sqrt)) && Rest() == rest
      decreases |tokens| - pos, 0
    {
      ghost var fs := FieldsOf(n);
      hide PrintFields, AllAccepted, SetAll, FieldsOf, Print, Placed, Reread, NamePart;
      FieldsReadable(n);
      NameKeepsKind(n);
      PrintedNode(n, rest);
      NodeMeans(n, c, sqrt);
      ghost var tail := [CLOSE] + rest;
      ghost var good := Rest() == Print(n) + rest;
      var names := ReadNodeName(n, [OPEN] + (PrintFields(fs) + tail));
      if names.Err? { return Err(names.message); }
      if names.value.None? { return Ok(None); }
      var defName, nodeTypeName := names.value.value.0, names.value.value.1;
      var kind := KindNamed(nodeTypeName);
      var read := ReadNodeBody(kind, c, if good then fs else [], rest);
      if read.Err? { return Err(read.message); }
      var node := read.value;
      if defName != "" {
        if defName !in defNodeMap {
          defNodeMap := defNodeMap[defName := node];
        }
        node := Named(node, defName);
      }
      r := Ok(Some(node));
    }

    /** The fields of a node between their braces. */
    method ReadNodeBody(kind: Kind, c: Category, ghost fs: seq<Field>, ghost rest: seq<Token>)
      returns (r: Result<VrmlNode>)
      requires Valid() && IsSqrt(sqrt)
      requires KnownFields(kind, fs) && Readable(fs) && (kind == COORDINATE ==> |fs| <= 1)
      modifies `pos, `defNodeMap
      ensures Valid() && pos >= old(pos)
      ensures r.Ok? ==> r.value.defName == ""
      ensures old(Rest()) == [OPEN] + (PrintFields(fs) + ([CLOSE] + rest)) ==>
        (r.Ok? <==> IsCategoryOf(kind, c) && AllAccepted(kind, fs, sqrt))
      ensures old(Rest()) == [OPEN] + (PrintFields(fs) + ([CLOSE] + rest)) && r.Ok? ==>
        r.value == SetAll(Default(kind), fs, sqrt) && Rest() == rest
      decreases |tokens| - pos, 2
    {
      hide PrintFields, AllAccepted, SetAll, KnownFields, Readable, Default;
      var begun := ReadChar('{');
      if !begun { return Err("node does not correctly begin with '{'"); }
      if kind == OTHER { return Err("not a node of this fragment"); }
      r := ReadSpecificNode(kind, c, fs, rest);
      if r.Err? { return r; }
      var closed := ReadChar('}');
      if !closed { return Err("node is not correctly closed with '}'"); }
    }

    /** The fields of a node of a known kind, up to what is not a field. */
    method ReadSpecificNode(kind: Kind, c: Category, ghost fs: seq<Field>, ghost rest: seq<Token>)
      returns (r: Result<VrmlNode>)
      requires Valid() && IsSqrt(sqrt) && kind != OTHER
      requires KnownFields(kind, fs) && Readable(fs) && (kind == COORDINATE ==> |fs| <= 1)
      modifies `pos, `defNodeMap
      ensures Valid() && pos >= old(pos)
      ensures r.Ok? ==> r.value.defName == ""
      ensures old(Rest()) == PrintFields(fs) + ([CLOSE] + rest) ==>
        (r.Ok? <==> IsCategoryOf(kind, c) && AllAccepted(kind, fs, sqrt))
      ensures old(Rest()) == PrintFields(fs) + ([CLOSE] + rest) && r.Ok? ==>
        r.value == SetAll(Default(kind), fs, sqrt) && Rest() == [CLOSE] + rest
      decreases |tokens| - pos, 1
    {
      hide PrintFields, Accepted, AllAccepted, SetAll, PrintValue, ReadBack, TypeOf, Set;
      ghost var good := Rest() == PrintFields(fs) + ([CLOSE] + rest);
      ghost var tail := [CLOSE] + rest;
      var node := Default(kind);
      ghost var k := 0;
      NothingYet(kind, fs, sqrt);
      while true
        invariant Valid() && pos >= old(pos) && KindOf(node) == kind && node.defName == ""
        invariant good ==> 0 <= k <= |fs| && KnownFields(kind, fs[..k]) && Rest() == PrintFields(fs[k..]) + tail
        invariant good ==> AllAccepted(kind, fs[..k], sqrt) && node == SetAll(Default(kind), fs[..k], sqrt)
        decreases |tokens| - pos
      {
        ghost var more := good && k < |fs|;
        if more {
          NextField(fs, k, tail);
        } else if good {
          assert fs[k..] == [] && fs[..k] == fs;
          NoFieldsLeft(tail);
        }
        var word := ReadWord();
        assert good ==> (word.Some? <==> more) && (more ==> word.value == fs[k].name);
        if word.None? {
          break;
        }
        var t := TypeOf(kind, word.value);
        if t.None? {
          assert more ==> KnownField(kind, fs[k]);
          return Err("Undefined field");
        }
        ghost var v := if more then fs[k].value else Null;
        ghost var after := if more then PrintFields(fs[k + 1..]) + tail else [];
        assert more ==> Rest() == PrintValue(v) + after && HasType(v, t.value) && Follows(v, after);
        var x := ReadValue(t.value, v, after);
        if more {
          OneField(kind, fs, k, sqrt);
        }
        if x.Err? { return Err(x.message); }
        node := Set(node, Field(word.value, x.value));
        k := k + 1;
        if kind == COORDINATE {
          assert good ==> k == |fs| && fs[..k] == fs && fs[k..] == [];
          NoFieldsLeft(tail);
          break;
        }
      }
      assert good ==> k == |fs| && fs[..k] == fs;
      if !IsCategoryOf(kind, c) {
        return Err("A node is put in an illegal place");
      }
      r := Ok(node);
    }

    /** A value of the type that its field has. */
    method ReadValue(t: FieldType, ghost v: Value, ghost rest: seq<Token>) returns (r: Result<Value>)
      requires Valid() && IsSqrt(sqrt)
      modifies `pos, `defNodeMap
      ensures Valid() && pos >= old(pos)
      ensures r.Ok? ==> HasType(r.value, t)
      ensures HasType(v, t) && Follows(v, rest) && old(Rest()) == PrintValue(v) + rest ==>
        && (r.Ok? <==> Accepted(v, t, sqrt))
        && (r.Ok? ==> r.value == ReadBack(v, sqrt) && Rest() == rest)
      decreases |tokens| - pos, 4
    {
      match t {
        case FLOAT =>
          var x := ReadSFFloat(if v.Float? then v.f else 0.0, rest);
          r := if x.Ok? then Ok(Float(x.value)) else Err(x.message);
        case VEC3F =>
          var x := ReadSFVec3f(if v.Vec? then v.v else ZERO3, rest);
          r := if x.Ok? then Ok(Vec(x.value)) else Err(x.message);
        case ROTATION =>
          var x := ReadSFRotation(if v.Turn? then v.r else Rotation(ZERO3, 0.0), rest);
          r := if x.Ok? then Ok(Turn(x.value)) else Err(x.message);
        case BOOL =>
          var x := ReadSFBool(v.Flag? && v.b, rest);
          r := if x.Ok? then Ok(Flag(x.value)) else Err(x.message);
        case INT32S =>
          var x := ReadMFInt32(if v.Ints? then v.ints else [], rest);
          r := if x.Ok? then Ok(Ints(x.value)) else Err(x.message);
        case VEC3FS =>
          var x := ReadMFVec3f(if v.Vecs? then v.vecs else [], rest);
          r := if x.Ok? then Ok(Vecs(x.value)) else Err(x.message);
        case NODE(c) =>
          var x := ReadSFNode(c, if v.Node? then v.node else OtherNode(""), rest);
          assert v.Node? && !Printed(v) ==> PrintValue(v) + rest == rest;
          r := if x.Err? then Err(x.message) else if x.value.Some? then Ok(Node(x.value.value, true)) else Ok(Null);
        case NODES =>
          var x := ReadMFNode(if v.Nodes? then v.nodes else [], rest);
          r := if x.Ok? then Ok(Nodes(x.value)) else Err(x.message);
      }
    }

    /** A node, or NULL, or nothing where none follows. */
    method ReadSFNode(c: Category, ghost n: VrmlNode, ghost rest: seq<Token>) returns (r: Result<Option<VrmlNode>>)
      requires Valid() && IsSqrt(sqrt)
      modifies `pos, `defNodeMap
      ensures Valid() && pos >= old(pos)
      ensures r.Ok? && r.value.Some? ==> pos > old(pos)
      ensures old(NoNodeAhead()) ==> r == Ok(None) && pos == old(pos)
      ensures old(Rest()) == [Word("NULL")] + rest ==> r == Ok(None) && Rest() == rest
      ensures old(Rest()) == Print(n) + rest ==> (r.Ok? <==> Placed(n, c, sqrt))
      ensures old(Rest()) == Print(n) + rest && r.Ok? ==> r.value == Some(Reread(n, sqrt)) && Rest() == rest
      decreases |tokens| - pos, 2
    {
      hide Print, Placed, Reread;
      FirstWord(n, rest);
      var isProto := ReadSymbol("IS");
      if isProto { return Err("PROTO fields are not part of this fragment"); }
      var isNull := ReadSymbol("NULL");
      if isNull { return Ok(None); }
      r := ReadNode(c, n, rest);
    }

    /** Child nodes. */
    method ReadMFNode(ghost s: seq<VrmlNode>, ghost rest: seq<Token>) returns (r: Result<seq<VrmlNode>>)
      requires Valid() && IsSqrt(sqrt)
      modifies `pos, `defNodeMap
      ensures Valid() && pos >= old(pos)
      ensures old(Rest()) == PrintValue(Nodes(s)) + rest ==> (r.Ok? <==> AllPlaced(s, sqrt))
      ensures old(Rest()) == PrintValue(Nodes(s)) + rest && r.Ok? ==> r.value == RereadAll(s, sqrt) && Rest() == rest
      decreases |tokens| - pos, 3
    {
      hide Print, Placed, Reread, PrintNodes, RereadAll, AllPlaced, Written, PrintValue;
      WrittenMeans(s, sqrt);
      NodesPrinted(s, rest);
      var open := ReadChar('[');
      if !open {
        var x := ReadSFNode(CHILD_NODE, OtherNode(""), []);
        if x.Err? { return Err(x.message); }
        return Ok(if x.value.Some? then [x.value.value] else []);
      }
      r := ReadNodeList(Written(s), rest);
    }

    /** The nodes up to the closing bracket. */
    method ReadNodeList(ghost ws: seq<VrmlNode>, ghost rest: seq<Token>) returns (r: Result<seq<VrmlNode>>)
      requires Valid() && IsSqrt(sqrt) && forall i | 0 <= i < |ws| :: Writable(ws[i])
      modifies `pos, `defNodeMap
      ensures Valid() && pos >= old(pos)
      ensures old(Rest()) == PrintNodes(ws) + ([Punct(']')] + rest) ==> (r.Ok? <==> AllPlaced(ws, sqrt))
      ensures old(Rest()) == PrintNodes(ws) + ([Punct(']')] + rest) && r.Ok? ==>
          r.value == RereadAll(ws, sqrt) && Rest() == rest
      decreases |tokens| - pos, 3
    {
      hide Print, Placed, Reread, PrintNodes, RereadAll, AllPlaced, Writable;
      ghost var tail := [Punct(']')] + rest;
      ghost var good := Rest() == PrintNodes(ws) + tail;
      var nodes := [];
      ghost var k := 0;
      NoNodesYet(ws, sqrt);
      while true
        invariant Valid() && pos >= old(pos)
        invariant good ==> 0 <= k <= |ws| && Rest() == PrintNodes(ws[k..]) + tail && (k > 0 ==> k < |ws|)
        invariant good ==> AllPlaced(ws[..k], sqrt) && nodes == RereadAll(ws[..k], sqrt)
        decreases |tokens| - pos
      {
        ghost var more := good && k < |ws|;
        ghost var after := if more then PrintNodes(ws[k + 1..]) + tail else [];
        if more {
          NextNode(ws, k, tail, sqrt);
        } else if good {
          NoNodesLeft(ws, k, tail);
        }
        var x := ReadSFNode(CHILD_NODE, if more then ws[k] else OtherNode(""), after);
        if x.Err? { return Err(x.message); }
        if x.value.Some? {
          nodes := nodes + [x.value.value];
          k := k + 1;
        }
        if good && k == |ws| {
          NoNodesLeft(ws, k, tail);
        } else if good {
          NextNode(ws, k, tail, sqrt);
          FirstWord(ws[k], PrintNodes(ws[k + 1..]) + tail);
        }
        assert good ==> (Rest()[0] == Punct(']') <==> k == |ws|);
        var closed := ReadChar(']');
        if closed {
          return Ok(nodes);
        }
        if x.value.None? {
          return Err("syntax error");
        }
      }
    }
  }

  /** The nodes that are printed. */
  ghost function Written(s: seq<VrmlNode>): (r: seq<VrmlNode>)
    ensures forall i | 0 <= i < |r| :: Writable(r[i])
  {
    if s == [] then [] else Written(s[..|s| - 1]) + if Writable(s[|s| - 1]) then [s[|s| - 1]] else []
  }

  lemma {:induction false} WrittenMeans(s: seq<VrmlNode>, sqrt: real -> real)
    ensures PrintNodes(s) == PrintNodes(Written(s)) && RereadAll(s, sqrt) == RereadAll(Written(s), sqrt)
    ensures AllPlaced(s, sqrt) <==> AllPlaced(Written(s), sqrt)
  {
    if s != [] {
      var front, n := s[..|s| - 1], s[|s| - 1];
      WrittenMeans(front, sqrt);
      if Writable(n) {
        assert Written(s)[..|Written(s)| - 1] == Written(front);
      } else {
        assert Written(s) == Written(front);
        assert PrintNodes(front) + [] == PrintNodes(front);
        assert RereadAll(front, sqrt) + [] == RereadAll(front, sqrt);
      }
    }
  }

  lemma NoNodesYet(ws: seq<VrmlNode>, sqrt: real -> real)
    ensures ws[..0] == [] && ws[0..] == ws && AllPlaced([], sqrt) && RereadAll([], sqrt) == []
  {}

  lemma NoNodesLeft(ws: seq<VrmlNode>, k: nat, tail: seq<Token>)
    requires k == |ws|
    ensures PrintNodes(ws[k..]) + tail == tail && ws[..k] == ws
  {}

  lemma PrintNodesLast(a: seq<VrmlNode>, n: VrmlNode)
    ensures PrintNodes(a + [n]) == PrintNodes(a) + if Writable(n) then Print(n) else []
  {
    hide Print, Writable;
    var s := a + [n];
    assert s[..|s| - 1] == a && s[|s| - 1] == n;
  }

  lemma {:induction false} PrintNodesAppend(a: seq<VrmlNode>, b: seq<VrmlNode>)
    ensures PrintNodes(a + b) == PrintNodes(a) + PrintNodes(b)
  {
    hide Print, Writable, PrintNodes;
    if b == [] {
      NoNodesLeft(b, 0, []);
      assert a + b == a && b[0..] == b;
    } else {
      var n, b' := b[|b| - 1], b[..|b| - 1];
      PrintNodesAppend(a, b');
      PrintNodesLast(a + b', n);
      PrintNodesLast(b', n);
      assert a + b == (a + b') + [n] && b == b' + [n];
    }
  }

  lemma NextPrinted(ws: seq<VrmlNode>, k: nat, tail: seq<Token>)
    requires k < |ws| && Writable(ws[k])
    ensures PrintNodes(ws[k..]) + tail == Print(ws[k]) + (PrintNodes(ws[k + 1..]) + tail)
  {
    hide Print, Writable;
    var one := [ws[k]];
    assert one[..0] == [] && PrintNodes([]) == [];
    assert PrintNodes(one) == PrintNodes([]) + Print(ws[k]);
    hide PrintNodes;
    assert ws[k..] == one + ws[k + 1..];
    PrintNodesAppend(one, ws[k + 1..]);
  }

  /** Node k among the others. */
  lemma NextNode(ws: seq<VrmlNode>, k: nat, tail: seq<Token>, sqrt: real -> real)
    requires k < |ws| && Writable(ws[k])
    ensures PrintNodes(ws[k..]) + tail == Print(ws[k]) + (PrintNodes(ws[k + 1..]) + tail)
    ensures AllPlaced(ws[..k + 1], sqrt) <==> AllPlaced(ws[..k], sqrt) && Placed(ws[k], CHILD_NODE, sqrt)
    ensures AllPlaced(ws, sqrt) ==> AllPlaced(ws[..k + 1], sqrt)
    ensures RereadAll(ws[..k + 1], sqrt) == RereadAll(ws[..k], sqrt) + [Reread(ws[k], sqrt)]
  {
    hide Print, Placed, Reread, PrintNodes;
    NextPrinted(ws, k, tail);
    assert ws[..k + 1][..k] == ws[..k];
    FrontPlaced(ws, k + 1, sqrt);
  }

  lemma {:induction false} FrontPlaced(s: seq<VrmlNode>, k: nat, sqrt: real -> real)
    requires k <= |s|
    ensures AllPlaced(s, sqrt) ==> AllPlaced(s[..k], sqrt)
  {
    if k == |s| {
      assert s[..k] == s;
    } else {
      FrontPlaced(s[..|s| - 1], k, sqrt);
      assert s[..|s| - 1][..k] == s[..k];
    }
  }

  /** After a node that is not printed comes no word. */
  ghost predicate Follows(v: Value, rest: seq<Token>) {
    Printed(v) || rest == [] || !rest[0].Word?
  }

  lemma FirstWord(n: VrmlNode, rest: seq<Token>)
    ensures var all := Print(n) + rest; all[0].Word? && all[0] != Word("IS") && all[0] != Word("NULL")
  {
    NameKeepsKind(n);
    PrintedNode(n, rest);
  }

  lemma NothingYet(kind: Kind, fs: seq<Field>, sqrt: real -> real)
    ensures fs[..0] == [] && fs[0..] == fs && KnownFields(kind, [])
    ensures AllAccepted(kind, [], sqrt) && SetAll(Default(kind), [], sqrt) == Default(kind)
  {}

  lemma NoFieldsLeft(tail: seq<Token>)
    ensures PrintFields([]) + tail == tail
  {}

  lemma NextField(fs: seq<Field>, k: nat, tail: seq<Token>)
    requires k < |fs|
    ensures PrintFields(fs[k..]) + tail == [Word(fs[k].name)]
        + (PrintValue(fs[k].value) + (PrintFields(fs[k + 1..]) + tail))
    ensures k == |fs| - 1 ==> PrintFields(fs[k + 1..]) + tail == tail
  {
    PrintFieldsFront(fs[k..]);
    assert fs[k..][1..] == fs[k + 1..];
    assert fs[k..][0] == fs[k];
    var a, b, c := [Word(fs[k].name)], PrintValue(fs[k].value), PrintFields(fs[k + 1..]);
    hide PrintFields, PrintValue;
    assert (a + b + c) + tail == a + (b + (c + tail));
  }

  /** Field k among the others. */
  lemma OneField(kind: Kind, fs: seq<Field>, k: nat, sqrt: real -> real)
    requires KnownFields(kind, fs) && k < |fs|
    ensures KnownFields(kind, fs[..k]) && KnownFields(kind, fs[..k + 1]) && KnownField(kind, fs[k])
    ensures AllAccepted(kind, fs[..k + 1], sqrt) <==>
      AllAccepted(kind, fs[..k], sqrt) && Accepted(fs[k].value, TypeOf(kind, fs[k].name).value, sqrt)
    ensures AllAccepted(kind, fs, sqrt) ==> AllAccepted(kind, fs[..k + 1], sqrt)
    ensures KnownField(kind, Field(fs[k].name, ReadBack(fs[k].value, sqrt)))
    ensures SetAll(Default(kind), fs[..k + 1], sqrt)
         == Set(SetAll(Default(kind), fs[..k], sqrt), Field(fs[k].name, ReadBack(fs[k].value, sqrt)))
  {
    hide Set, ReadBack, Accepted, TypeOf;
    assert fs[..k + 1][..k] == fs[..k];
    FrontAccepted(kind, fs, k + 1, sqrt);
  }

  lemma {:induction false} FrontAccepted(kind: Kind, fs: seq<Field>, k: nat, sqrt: real -> real)
    requires KnownFields(kind, fs) && k <= |fs|
    ensures KnownFields(kind, fs[..k]) && (AllAccepted(kind, fs, sqrt) ==> AllAccepted(kind, fs[..k], sqrt))
  {
    if k == |fs| {
      assert fs[..k] == fs;
    } else {
      FrontAccepted(kind, fs[..|fs| - 1], k, sqrt);
      assert fs[..|fs| - 1][..k] == fs[..k];
    }
  }

  /** Only the last of some fields may have a node that is not printed. */
  ghost predicate Readable(fs: seq<Field>) {
    forall i | 0 <= i < |fs| - 1 :: Printed(fs[i].value)
  }

  ghost predicate Printed(v: Value) { v.Node? ==> v.direct || Writable(v.node) }

  lemma FieldsReadable(n: VrmlNode)
    ensures Readable(FieldsOf(n)) && (n.Coordinate? ==> |FieldsOf(n)| <= 1)
  {
    hide GroupFields;
    match KindOf(n)
    case GROUP =>
      GroupReadable([], n.own);
      assert FieldsOf(n) == [] + GroupFields(n.own);
    case TRANSFORM =>
      var own := [Field("center", Vec(n.center)), Field("rotation", Turn(n.rotation)), Field("scale", Vec(n.scale)),
                  Field("scaleOrientation", Turn(n.scaleOrientation)), Field("translation", Vec(n.translation))];
      GroupReadable(own, n.base);
      assert FieldsOf(n) == own + GroupFields(n.base);
    case _ =>
  }

  lemma GroupReadable(own: seq<Field>, g: Grouping)
    requires Plain(own)
    ensures Readable(own + GroupFields(g))
  {
    var group := GroupFields(g);
    forall i | 0 <= i < |own + group| ensures Printed((own + group)[i].value) {
      if i >= |own| {
        assert (own + group)[i] == group[i - |own|];
      }
    }
  }

  ghost function NamePart(n: VrmlNode): seq<Token> {
    (if n.defName == "" then [] else [Word("DEF"), Word(n.defName)]) + [Word(NodeName(n))]
  }

  lemma NameTokens(n: VrmlNode, rest: seq<Token>)
    ensures var all := NamePart(n) + rest;
            if n.defName == "" then |all| >= 1 && all[0] == Word(NodeName(n)) && all[1..] == rest
            else
              && |all| >= 3 && all[0] == Word("DEF") && all[1] == Word(n.defName) && all[2] == Word(NodeName(n))
              && all[1..][1..][1..] == rest
  {
    hide NodeName;
  }

  /** A printed node by its tokens. */
  lemma PrintedNode(n: VrmlNode, rest: seq<Token>)
    ensures Print(n) + rest == NamePart(n) + ([OPEN] + (PrintFields(FieldsOf(n)) + ([CLOSE] + rest)))
  {
    var fields := PrintFields(FieldsOf(n));
    hide PrintFields, NodeName, FieldsOf;
    assert [Word(NodeName(n)), OPEN] == [Word(NodeName(n))] + [OPEN];
    assert Begin(n) == NamePart(n) + [OPEN];
    assert Print(n) == Begin(n) + fields + [CLOSE];
    hide Print, Begin, NamePart;
    Regroup(NamePart(n), [OPEN], fields, [CLOSE], rest);
  }

  lemma Regroup(a: seq<Token>, b: seq<Token>, c: seq<Token>, d: seq<Token>, e: seq<Token>)
    ensures (((a + b) + c) + d) + e == a + (b + (c + (d + e)))
  {
    assert (((a + b) + c) + d) + e == (a + b) + (c + (d + e));
  }

  lemma NodesPrinted(s: seq<VrmlNode>, rest: seq<Token>)
    ensures PrintValue(Nodes(s)) + rest == [Punct('[')] + (PrintNodes(s) + ([Punct(']')] + rest))
  {
    hide PrintNodes;
    assert PrintValue(Nodes(s)) == [Punct('[')] + PrintNodes(s) + [Punct(']')];
    hide PrintValue;
    Regroup([], [Punct('[')], PrintNodes(s), [Punct(']')], rest);
  }

  lemma NodeMeans(n: VrmlNode, c: Category, sqrt: real -> real)
    ensures KnownFields(KindOf(n), FieldsOf(n))
    ensures Placed(n, c, sqrt) <==> IsCategoryOf(KindOf(n), c) && AllAccepted(KindOf(n), FieldsOf(n), sqrt)
    ensures Reread(n, sqrt) == Named(SetAll(Default(KindOf(n)), FieldsOf(n), sqrt), n.defName)
  {
    FieldsKnown(n);
  }

  lemma LengthNotNegative(a: Vec3, sqrt: real -> real)
    requires IsSqrt(sqrt)
    ensures AxisLength(a, sqrt) >= 0.0
  {
    ProductSquare(a.x);
    ProductSquare(a.y);
    ProductSquare(a.z);
  }
}
