/** Turning the faces of an indexed face set into triangles, and carrying colours, normals and texture
    coordinates over to the triangles' corners. */
module TriangleMeshShapers {
  import opened LinearAlgebra
  import opened Triangulators

  // ---- what the conversion is to produce ----

  /** The indices below n. */
  ghost function Kept(s: seq<int>, n: int): seq<int> {
    if s == [] then [] else Kept(s[..|s| - 1], n) + (if s[|s| - 1] < n then [s[|s| - 1]] else [])
  }

  /** A face: the positions of its first index and of the one that ends it, the indices in between that
      have a vertex, and the local corners of the triangles it is cut into. */
  datatype Face = Face(top: int, end: int, polygon: seq<int>, cut: seq<int>)

  /** One group per triangle: the values of its three corners, and -1. */
  function Emit(values: seq<int>, cut: seq<int>, ccw: bool): seq<int>
    requires |cut| % 3 == 0 && forall i | 0 <= i < |cut| :: 0 <= cut[i] < |values|
  {
    if cut == [] then []
    else
      var n := |cut|;
      var a, b, c := values[cut[n - 3]], values[cut[n - 2]], values[cut[n - 1]];
      Emit(values, cut[..n - 3], ccw) + (if ccw then [a, b, c, -1] else [c, b, a, -1])
  }

  ghost function Positions(top: int, n: nat): (r: seq<int>)
    ensures |r| == n && forall i | 0 <= i < n :: r[i] == top + i
  {
    seq(n, i => top + i)
  }

  ghost predicate CutsInto(n: nat, cut: seq<int>) {
    && |cut| % 3 == 0 && AllBelow(cut, n)
    && (n < 3 ==> cut == []) && (n == 3 ==> cut == [0, 1, 2])
    && (n > 3 ==> exists flatEars, left :: ConservedIn(cut, flatEars, left, n))
  }

  /** A face of more than three corners is cut up as far as its corners allow. */
  ghost predicate CutFar(vertices: seq<Vec3>, f: Face, flat: (Vec3, Vec3, Vec3) -> bool) {
    |f.polygon| > 3 ==>
      && (forall i | 0 <= i < |f.polygon| :: 0 <= f.polygon[i] < |vertices|)
      && CutUp(CornersOf(vertices, f.polygon), f.cut, flat)
  }

  ghost predicate AllCutFar(vertices: seq<Vec3>, faces: seq<Face>, flat: (Vec3, Vec3, Vec3) -> bool) {
    forall f | f in faces :: CutFar(vertices, f, flat)
  }

  ghost predicate WellCut(faces: seq<Face>) {
    forall f | 0 <= f < |faces| :: CutsInto(|faces[f].polygon|, faces[f].cut)
  }

  ghost function CoordOut(faces: seq<Face>, ccw: bool): seq<int>
    requires WellCut(faces)
  {
    if faces == [] then []
    else
      var f := faces[|faces| - 1];
      CoordOut(faces[..|faces| - 1], ccw) + Emit(f.polygon, f.cut, ccw)
  }

  ghost function PositionOut(faces: seq<Face>, ccw: bool): seq<int>
    requires WellCut(faces)
  {
    if faces == [] then []
    else
      var f := faces[|faces| - 1];
      PositionOut(faces[..|faces| - 1], ccw) + Emit(Positions(f.top, |f.polygon|), f.cut, ccw)
  }

  function Repeated(f: int, n: nat): (r: seq<int>)
    ensures |r| == n && forall i | 0 <= i < n :: r[i] == f
  {
    seq(n, i => f)
  }

  ghost function FaceOut(faces: seq<Face>): seq<int> {
    if faces == [] then []
    else FaceOut(faces[..|faces| - 1]) + Repeated(|faces| - 1, |faces[|faces| - 1].cut| / 3)
  }

  ghost predicate FaceOf(org: seq<int>, n: int, f: Face) {
    && 0 <= f.top <= f.end < |org| && org[f.end] < 0
    && (forall k | f.top <= k < f.end :: org[k] >= 0)
    && f.polygon == Kept(org[f.top..f.end], n)
  }

  ghost predicate InLine(faces: seq<Face>, i: nat)
    requires i < |faces|
  {
    faces[i].top == if i == 0 then 0 else faces[i - 1].end + 1
  }

  /** The faces lie one after the other, the first at the start, and what comes after the last ends nowhere. */
  ghost predicate FacesOf(org: seq<int>, n: int, faces: seq<Face>, rest: int) {
    && (forall i | 0 <= i < |faces| :: FaceOf(org, n, faces[i]))
    && (forall i | 0 <= i < |faces| :: InLine(faces, i))
    && rest == if faces == [] then 0 else faces[|faces| - 1].end + 1
  }

  // ---- groups of four ----

  /** Every fourth entry, and no other, is -1. */
  ghost predicate Grouped(s: seq<int>) {
    |s| % 4 == 0 && forall i | 0 <= i < |s| :: (i % 4 == 3 <==> s[i] == -1) && s[i] >= -1
  }

  lemma FoursApart(i: int, m: int)
    requires m % 4 == 0
    ensures (i + m) % 4 == i % 4
  {}

  lemma GroupedAppend(a: seq<int>, b: seq<int>)
    requires Grouped(a) && Grouped(b)
    ensures Grouped(a + b)
  {
    var s, m := a + b, |a|;
    forall i | 0 <= i < |s| ensures (i % 4 == 3 <==> s[i] == -1) && s[i] >= -1 {
      if i >= m {
        FoursApart(i - m, m);
        assert s[i] == b[i - m];
      } else {
        assert s[i] == a[i];
      }
    }
  }

  lemma {:induction false} EmitGrouped(values: seq<int>, cut: seq<int>, ccw: bool)
    requires |cut| % 3 == 0 && AllBelow(cut, |values|) && forall i | 0 <= i < |values| :: values[i] >= 0
    ensures Grouped(Emit(values, cut, ccw)) && 3 * |Emit(values, cut, ccw)| == 4 * |cut|
  {
    if cut != [] {
      var n := |cut|;
      var a, b, c := values[cut[n - 3]], values[cut[n - 2]], values[cut[n - 1]];
      var group := if ccw then [a, b, c, -1] else [c, b, a, -1];
      EmitGrouped(values, cut[..n - 3], ccw);
      assert Grouped(group);
      GroupedAppend(Emit(values, cut[..n - 3], ccw), group);
    }
  }

  // ---- which way round the triangles are ----

  /** The sum over the edges of the triangles of a list of groups. */
  ghost function GroupEdges(g: (int, int) -> real, s: seq<int>): real
    requires |s| % 4 == 0
  {
    if s == [] then 0.0
    else
      var n := |s|;
      GroupEdges(g, s[..n - 4]) + g(s[n - 4], s[n - 3]) + g(s[n - 3], s[n - 2]) + g(s[n - 2], s[n - 4])
  }

  lemma {:induction false} GroupEdgesAppend(g: (int, int) -> real, a: seq<int>, b: seq<int>)
    requires |a| % 4 == 0 && |b| % 4 == 0
    ensures |a + b| % 4 == 0 && GroupEdges(g, a + b) == GroupEdges(g, a) + GroupEdges(g, b)
  {
    if b == [] {
      assert a + b == a;
    } else {
      GroupEdgesAppend(g, a, b[..|b| - 4]);
      assert (a + b)[..|a + b| - 4] == a + b[..|b| - 4];
    }
  }

  /** The edge between the corners at two local places. */
  ghost function Between(g: (int, int) -> real, polygon: seq<int>): (int, int) -> real {
    (i, j) => if 0 <= i < |polygon| && 0 <= j < |polygon| then g(polygon[i], polygon[j]) else 0.0
  }

  lemma {:induction false} EmitTurns(g: (int, int) -> real, polygon: seq<int>, cut: seq<int>, ccw: bool)
    requires Antisymmetric(g) && |cut| % 3 == 0 && AllBelow(cut, |polygon|)
    ensures |Emit(polygon, cut, ccw)| % 4 == 0
    ensures var e := TriangleEdges(Between(g, polygon), cut);
      GroupEdges(g, Emit(polygon, cut, ccw)) == if ccw then e else -e
  {
    hide Antisymmetric, GroupEdges;
    NoGroups(g);
    if cut != [] {
      var n := |cut|;
      var a, b, c := polygon[cut[n - 3]], polygon[cut[n - 2]], polygon[cut[n - 1]];
      var group := if ccw then [a, b, c, -1] else [c, b, a, -1];
      EmitTurns(g, polygon, cut[..n - 3], ccw);
      GroupEdgesAppend(g, Emit(polygon, cut[..n - 3], ccw), group);
      OneGroup(g, group);
      BothWaysRound(g, a, b, c);
    }
  }

  lemma BothWaysRound(g: (int, int) -> real, a: int, b: int, c: int)
    requires Antisymmetric(g)
    ensures g(c, b) + g(b, a) + g(a, c) == -(g(a, b) + g(b, c) + g(c, a))
  {}

  lemma NoGroups(g: (int, int) -> real)
    ensures GroupEdges(g, []) == 0.0
  {}

  lemma OneGroup(g: (int, int) -> real, s: seq<int>)
    requires |s| == 4
    ensures GroupEdges(g, s) == g(s[0], s[1]) + g(s[1], s[2]) + g(s[2], s[0])
  {
    assert s[..0] == [];
  }

  /** The sum over the edges of the triangles that the faces are cut into, in the order of the faces' corners. */
  ghost function FaceEdges(g: (int, int) -> real, faces: seq<Face>): real
    requires WellCut(faces)
  {
    if faces == [] then 0.0
    else
      var f := faces[|faces| - 1];
      FaceEdges(g, faces[..|faces| - 1]) + TriangleEdges(Between(g, f.polygon), f.cut)
  }

  /** The triangles of the mesh go round as the corners of their faces do if the faces are counter-clockwise, and the
      other way round if they are not. */
  lemma {:induction false} OutputTurns(g: (int, int) -> real, faces: seq<Face>, ccw: bool)
    requires Antisymmetric(g) && WellCut(faces)
    ensures |CoordOut(faces, ccw)| % 4 == 0
    ensures GroupEdges(g, CoordOut(faces, ccw)) == if ccw then FaceEdges(g, faces) else -FaceEdges(g, faces)
  {
    hide Emit, Antisymmetric, ConservedIn, Between;
    if faces != [] {
      var front, f := faces[..|faces| - 1], faces[|faces| - 1];
      OutputTurns(g, front, ccw);
      EmitTurns(g, f.polygon, f.cut, ccw);
      GroupEdgesAppend(g, CoordOut(front, ccw), Emit(f.polygon, f.cut, ccw));
    }
  }

  /** Reading a list at positions, where -1 stands for itself. */
  ghost predicate ReadsAt(org: seq<int>, positions: seq<int>, out: seq<int>) {
    && |out| == |positions|
    && forall i | 0 <= i < |out| ::
      if positions[i] < 0 then out[i] == -1 else positions[i] < |org| && out[i] == org[positions[i]]
  }

  lemma ReadsAtAppend(org: seq<int>, p: seq<int>, a: seq<int>, q: seq<int>, b: seq<int>)
    requires ReadsAt(org, p, a) && ReadsAt(org, q, b)
    ensures ReadsAt(org, p + q, a + b)
  {
    forall i | |a| <= i < |a + b| ensures (a + b)[i] == b[i - |a|] && (p + q)[i] == q[i - |a|] {}
  }

  lemma {:induction false} EmitReads(org: seq<int>, top: int, polygon: seq<int>, cut: seq<int>, ccw: bool)
    requires |cut| % 3 == 0 && AllBelow(cut, |polygon|) && 0 <= top && top + |polygon| <= |org|
    requires forall i | 0 <= i < |polygon| :: polygon[i] == org[top + i]
    ensures ReadsAt(org, Emit(Positions(top, |polygon|), cut, ccw), Emit(polygon, cut, ccw))
  {
    if cut != [] {
      var n := |cut|;
      var v := Positions(top, |polygon|);
      var a, b, c := cut[n - 3], cut[n - 2], cut[n - 1];
      EmitReads(org, top, polygon, cut[..n - 3], ccw);
      var p := if ccw then [v[a], v[b], v[c], -1] else [v[c], v[b], v[a], -1];
      var q := if ccw then [polygon[a], polygon[b], polygon[c], -1] else [polygon[c], polygon[b], polygon[a], -1];
      assert ReadsAt(org, p, q);
      ReadsAtAppend(org, Emit(v, cut[..n - 3], ccw), Emit(polygon, cut[..n - 3], ccw), p, q);
    }
  }

  // ---- when corners keep their positions ----

  /** No index with a vertex follows one without. */
  ghost predicate InRangeFirst(s: seq<int>, n: int) {
    forall i, j | 0 <= i < j < |s| && s[i] >= n :: s[j] >= n
  }

  predicate AllUnder(s: seq<int>, n: int) { forall i | 0 <= i < |s| :: s[i] < n }

  predicate NoneUnder(s: seq<int>, n: int) { forall i | 0 <= i < |s| :: s[i] >= n }

  lemma {:induction false} KeptAll(s: seq<int>, n: int)
    requires AllUnder(s, n)
    ensures Kept(s, n) == s
  {
    if s != [] {
      KeptAll(s[..|s| - 1], n);
    }
  }

  lemma {:induction false} KeptNone(s: seq<int>, n: int)
    requires NoneUnder(s, n)
    ensures Kept(s, n) == []
  {
    if s != [] {
      KeptNone(s[..|s| - 1], n);
    }
  }

  lemma {:induction false} KeptUnder(s: seq<int>, n: int)
    ensures AllUnder(Kept(s, n), n) && |Kept(s, n)| <= |s|
    ensures NoneUnder(s, 0) ==> NoneUnder(Kept(s, n), 0)
  {
    if s != [] {
      KeptUnder(s[..|s| - 1], n);
    }
  }

  lemma {:induction false} KeptAppend(s: seq<int>, r: seq<int>, n: int)
    ensures Kept(s + r, n) == Kept(s, n) + Kept(r, n)
  {
    if r == [] {
      assert s + r == s;
    } else {
      KeptAppend(s, r[..|r| - 1], n);
      assert (s + r)[..|s + r| - 1] == s + r[..|r| - 1];
    }
  }

  /** Each kept index stays at its own position in the face exactly when none of them follows an index
      that is dropped. */
  lemma KeptInPlaceIff(s: seq<int>, n: int)
    ensures Kept(s, n) <= s <==> InRangeFirst(s, n)
  {
    if InRangeFirst(s, n) {
      KeptInPlace(s, n);
    } else {
      var i, j :| 0 <= i < j < |s| && s[i] >= n && s[j] < n;
      if Kept(s, n) <= s {
        NotInPlace(s, n, i, j);
      }
    }
  }

  /** With three vertices, the second corner of this face moves to where an index out of range was. */
  lemma OutOfRangeShifts()
    ensures Kept([0, 99, 1], 3) == [0, 1] && !(Kept([0, 99, 1], 3) <= [0, 99, 1])
  {
    var s := [0, 99, 1];
    assert s[..2] == [0, 99] && s[..2][..1] == [0] && s[..2][..1][..0] == [];
    assert Kept(s[..2][..1], 3) == [0];
    assert Kept(s[..2], 3) == [0];
  }

  lemma KeptInPlace(s: seq<int>, n: int)
    requires InRangeFirst(s, n)
    ensures Kept(s, n) <= s
  {
    hide Kept;
    var i := 0;
    while i < |s| && s[i] < n
      invariant 0 <= i <= |s| && AllUnder(s[..i], n)
    {
      i := i + 1;
    }
    var a, b := s[..i], s[i..];
    assert s == a + b;
    assert NoneUnder(b, n);
    KeptAll(a, n);
    KeptNone(b, n);
    KeptAppend(a, b, n);
  }

  lemma NotInPlace(s: seq<int>, n: int, i: nat, j: nat)
    requires i < j < |s| && s[i] >= n && s[j] < n
    ensures !(Kept(s, n) <= s)
  {
    hide Kept;
    var kept := Kept(s, n);
    KeptUnder(s, n);
    if kept <= s {
      var m := |kept|;
      var b := s[m..];
      assert s == kept + b;
      assert m <= i;
      KeptAll(kept, n);
      KeptAppend(kept, b, n);
      KeptSome(b, n, j - m);
    }
  }

  lemma {:induction false} KeptSome(s: seq<int>, n: int, j: nat)
    requires j < |s| && s[j] < n
    ensures Kept(s, n) != []
  {
    if j < |s| - 1 {
      KeptSome(s[..|s| - 1], n, j);
    }
  }

  // ---- the lists as a whole ----

  /** Every kept index of every face is at its own position. */
  ghost predicate InPlace(org: seq<int>, n: int, faces: seq<Face>, rest: int)
    requires FacesOf(org, n, faces, rest)
  {
    forall i | 0 <= i < |faces| :: InRangeFirst(org[faces[i].top..faces[i].end], n)
  }

  lemma FrontFaces(org: seq<int>, n: int, faces: seq<Face>, rest: int)
    requires FacesOf(org, n, faces, rest) && WellCut(faces) && faces != []
    ensures FacesOf(org, n, faces[..|faces| - 1], faces[|faces| - 1].top) && WellCut(faces[..|faces| - 1])
  {
    hide FaceOf, CutsInto;
    var front := faces[..|faces| - 1];
    forall i | 0 <= i < |front| ensures InLine(front, i) && front[i] == faces[i] {
      assert InLine(faces, i);
    }
    assert InLine(faces, |faces| - 1);
  }

  lemma FrontInPlace(org: seq<int>, n: int, faces: seq<Face>, rest: int)
    requires FacesOf(org, n, faces, rest) && WellCut(faces) && faces != [] && InPlace(org, n, faces, rest)
    ensures var f := faces[|faces| - 1];
      && FacesOf(org, n, faces[..|faces| - 1], f.top) && InPlace(org, n, faces[..|faces| - 1], f.top)
      && FaceOf(org, n, f) && InRangeFirst(org[f.top..f.end], n) && CutsInto(|f.polygon|, f.cut)
  {
    hide FaceOf, CutsInto, InRangeFirst;
    FrontFaces(org, n, faces, rest);
    var front := faces[..|faces| - 1];
    assert forall i | 0 <= i < |front| :: front[i] == faces[i];
  }

  lemma FaceInPlace(org: seq<int>, n: int, f: Face)
    requires FaceOf(org, n, f) && InRangeFirst(org[f.top..f.end], n)
    ensures 0 <= f.top && f.top + |f.polygon| <= f.end < |org|
    ensures forall i | 0 <= i < |f.polygon| :: f.polygon[i] == org[f.top + i]
  {
    hide Kept;
    KeptInPlaceIff(org[f.top..f.end], n);
    forall i | 0 <= i < |f.polygon| ensures f.polygon[i] == org[f.top + i] {
      assert f.polygon[i] == org[f.top..f.end][i];
    }
  }

  /** Where no index is out of place, each corner of a triangle reads the index at the position kept for it. */
  lemma {:induction false} CornersKeepIndices(org: seq<int>, n: int, faces: seq<Face>, rest: int, ccw: bool)
    requires FacesOf(org, n, faces, rest) && WellCut(faces) && InPlace(org, n, faces, rest)
    ensures ReadsAt(org, PositionOut(faces, ccw), CoordOut(faces, ccw))
  {
    hide Kept, InRangeFirst, Emit, InLine;
    if faces == [] {
      assert ReadsAt(org, [], []);
    } else {
      var front, f := faces[..|faces| - 1], faces[|faces| - 1];
      FrontFaces(org, n, faces, rest);
      FrontInPlace(org, n, faces, rest);
      CornersKeepIndices(org, n, front, f.top, ccw);
      OneFaceReads(org, n, front, f, ccw);
      assert front + [f] == faces;
    }
  }

  lemma OneFaceReads(org: seq<int>, n: int, front: seq<Face>, f: Face, ccw: bool)
    requires WellCut(front) && CutsInto(|f.polygon|, f.cut) && FaceOf(org, n, f) && InRangeFirst(org[f.top..f.end], n)
    requires ReadsAt(org, PositionOut(front, ccw), CoordOut(front, ccw))
    ensures WellCut(front + [f]) && ReadsAt(org, PositionOut(front + [f], ccw), CoordOut(front + [f], ccw))
  {
    hide ReadsAt, Emit, Kept, InRangeFirst, FaceOf, PositionOut, CoordOut, WellCut, ConservedIn, FaceOut, Repeated;
    FaceInPlace(org, n, f);
    OneMoreFace(front, f, ccw);
    EmitReads(org, f.top, f.polygon, f.cut, ccw);
    ReadsAtAppend(org, PositionOut(front, ccw), CoordOut(front, ccw),
                  Emit(Positions(f.top, |f.polygon|), f.cut, ccw), Emit(f.polygon, f.cut, ccw));
  }

  /** The output is groups of three indices and -1, one group for each entry of the face list. */
  lemma {:induction false} OutputGrouped(org: seq<int>, n: int, faces: seq<Face>, rest: int, ccw: bool)
    requires FacesOf(org, n, faces, rest) && WellCut(faces)
    ensures Grouped(CoordOut(faces, ccw)) && Grouped(PositionOut(faces, ccw))
    ensures |CoordOut(faces, ccw)| == |PositionOut(faces, ccw)| == 4 * |FaceOut(faces)|
  {
    if faces != [] {
      var front, f := faces[..|faces| - 1], faces[|faces| - 1];
      FrontFaces(org, n, faces, rest);
      OutputGrouped(org, n, front, f.top, ccw);
      KeptUnder(org[f.top..f.end], n);
      EmitGrouped(f.polygon, f.cut, ccw);
      EmitGrouped(Positions(f.top, |f.polygon|), f.cut, ccw);
      GroupedAppend(CoordOut(front, ccw), Emit(f.polygon, f.cut, ccw));
      GroupedAppend(PositionOut(front, ccw), Emit(Positions(f.top, |f.polygon|), f.cut, ccw));
    }
  }

  /** The corner at p is at a position of the face that the face list names for its triangle. */
  ghost predicate OfItsFace(faces: seq<Face>, positions: seq<int>, faceMap: seq<int>, p: nat)
    requires p < |positions| && |positions| == 4 * |faceMap|
  {
    && 0 <= faceMap[p / 4] < |faces|
    && (positions[p] == -1 || faces[faceMap[p / 4]].top <= positions[p] < faces[faceMap[p / 4]].end)
  }

  lemma {:induction false} EmitWithin(values: seq<int>, cut: seq<int>, ccw: bool, lo: int, hi: int)
    requires |cut| % 3 == 0 && AllBelow(cut, |values|) && forall i | 0 <= i < |values| :: lo <= values[i] < hi
    ensures 3 * |Emit(values, cut, ccw)| == 4 * |cut|
    ensures forall p | 0 <= p < |Emit(values, cut, ccw)| ::
              Emit(values, cut, ccw)[p] == -1 || lo <= Emit(values, cut, ccw)[p] < hi
  {
    if cut != [] {
      EmitWithin(values, cut[..|cut| - 3], ccw, lo, hi);
    }
  }

  /** Each triangle is listed with the face that it was cut from. */
  lemma {:induction false} TrianglesKeepFaces(org: seq<int>, n: int, faces: seq<Face>, rest: int, ccw: bool)
    requires FacesOf(org, n, faces, rest) && WellCut(faces)
    ensures |PositionOut(faces, ccw)| == 4 * |FaceOut(faces)|
    ensures forall p: nat | p < |PositionOut(faces, ccw)| ::
              OfItsFace(faces, PositionOut(faces, ccw), FaceOut(faces), p)
  {
    hide OfItsFace, Kept, Emit, InLine;
    OutputGrouped(org, n, faces, rest, ccw);
    if faces != [] {
      var front, f := faces[..|faces| - 1], faces[|faces| - 1];
      FrontFaces(org, n, faces, rest);
      TrianglesKeepFaces(org, n, front, f.top, ccw);
      KeptUnder(org[f.top..f.end], n);
      assert CutsInto(|f.polygon|, f.cut) && FaceOf(org, n, f);
      EmitWithin(Positions(f.top, |f.polygon|), f.cut, ccw, f.top, f.end);
      LastFaceKept(front, f, PositionOut(front, ccw), FaceOut(front), Emit(Positions(f.top, |f.polygon|), f.cut, ccw));
      assert front + [f] == faces;
    }
  }

  lemma LastFaceKept(front: seq<Face>, f: Face, positions: seq<int>, faceMap: seq<int>, more: seq<int>)
    requires |positions| == 4 * |faceMap| && forall p: nat | p < |positions| :: OfItsFace(front, positions, faceMap, p)
    requires |f.cut| % 3 == 0 && 3 * |more| == 4 * |f.cut|
    requires forall p | 0 <= p < |more| :: more[p] == -1 || f.top <= more[p] < f.end
    ensures var newMap := faceMap + Repeated(|front|, |f.cut| / 3);
      |positions + more| == 4 * |newMap|
      && forall p: nat | p < |positions + more| :: OfItsFace(front + [f], positions + more, newMap, p)
  {
    var newMap, all, fs := faceMap + Repeated(|front|, |f.cut| / 3), positions + more, front + [f];
    forall p: nat | p < |all| ensures OfItsFace(fs, all, newMap, p) {
      if p < |positions| {
        assert OfItsFace(front, positions, faceMap, p);
        assert all[p] == positions[p] && newMap[p / 4] == faceMap[p / 4];
        assert fs[faceMap[p / 4]] == front[faceMap[p / 4]];
      } else {
        assert all[p] == more[p - |positions|];
        assert newMap[p / 4] == |front| && fs[|front|] == f;
      }
    }
  }

  // ---- the conversion ----

  class IndexedFaceSet {
    var point: seq<Vec3>
    var coordIndex: seq<int>
    var ccw: bool
    var color: seq<Vec3>
    var colorIndex: seq<int>
    var colorPerVertex: bool
    var normal: seq<Vec3>
    var normalIndex: seq<int>
    var normalPerVertex: bool
    var hasTexCoord: bool
    var texCoord: seq<(real, real)>
    var texCoordIndex: seq<int>

    constructor ()
      ensures point == [] && coordIndex == [] && color == [] && colorIndex == [] && normal == [] && normalIndex == []
      ensures !hasTexCoord && texCoord == [] && texCoordIndex == []
    {
      point, coordIndex, ccw := [], [], true;
      color, colorIndex, colorPerVertex := [], [], true;
      normal, normalIndex, normalPerVertex := [], [], true;
      hasTexCoord, texCoord, texCoordIndex := false, [], [];
    }
  }

  class TriangleMeshShaper {
    var indexPositionMap: seq<int>
    var faceIndexMap: seq<int>

    constructor () {
      indexPositionMap, faceIndexMap := [], [];
    }

    /** One triangle: its three corners, in the order that faces the front, and the end mark. */
    method PushTriangle(indices0: seq<int>, polygon: seq<int>, triangles: seq<int>, j: nat, ccw: bool, top: nat,
                        face: nat)
      returns (indices: seq<int>)
      requires 3 * j + 3 <= |triangles| && AllBelow(triangles, |polygon|)
      modifies this
      ensures indices == indices0 + GroupOf(polygon, triangles, j, ccw)
      ensures indexPositionMap == old(indexPositionMap) + GroupOf(Positions(top, |polygon|), triangles, j, ccw)
      ensures faceIndexMap == old(faceIndexMap) + [face]
    {
      indices := indices0;
      ghost var corners := GroupOf(polygon, triangles, j, ccw);
      ghost var places := GroupOf(Positions(top, |polygon|), triangles, j, ccw);
      var triangleOrder := if ccw then [0, 1, 2] else [2, 1, 0];
      var k := 0;
      while k < 3
        invariant 0 <= k <= 3
        invariant indices == indices0 + corners[..k] && indexPositionMap == old(indexPositionMap) + places[..k]
        invariant faceIndexMap == old(faceIndexMap)
      {
        var localIndex := triangles[j * 3 + triangleOrder[k]];
        assert corners[k] == polygon[localIndex] && places[k] == top + localIndex;
        assert corners[..k + 1] == corners[..k] + [corners[k]] && places[..k + 1] == places[..k] + [places[k]];
        indices := indices + [polygon[localIndex]];
        indexPositionMap := indexPositionMap + [top + localIndex];
        k := k + 1;
      }
      indices := indices + [-1];
      indexPositionMap := indexPositionMap + [-1];
      faceIndexMap := faceIndexMap + [face];
    }

    /** The triangles of one polygon. */
    method PushTriangles(indices0: seq<int>, polygon: seq<int>, triangles: seq<int>, numTriangles: nat, ccw: bool,
                         top: nat, face: nat)
      returns (indices: seq<int>)
      requires |triangles| == 3 * numTriangles && AllBelow(triangles, |polygon|)
      modifies this
      ensures indices == indices0 + Emit(polygon, triangles, ccw)
      ensures indexPositionMap == old(indexPositionMap) + Emit(Positions(top, |polygon|), triangles, ccw)
      ensures faceIndexMap == old(faceIndexMap) + Repeated(face, numTriangles)
    {
      hide GroupOf, Emit, Positions;
      indices := indices0;
      EmitNone(polygon, triangles, ccw);
      EmitNone(Positions(top, |polygon|), triangles, ccw);
      var j := 0;
      while j < numTriangles
        invariant 0 <= j <= numTriangles
        invariant AllBelow(triangles[..3 * j], |polygon|)
        invariant indices == indices0 + Emit(polygon, triangles[..3 * j], ccw)
        invariant indexPositionMap == old(indexPositionMap) + Emit(Positions(top, |polygon|), triangles[..3 * j], ccw)
        invariant faceIndexMap == old(faceIndexMap) + Repeated(face, j)
      {
        EmitOneMore(polygon, triangles, j, ccw);
        EmitOneMore(Positions(top, |polygon|), triangles, j, ccw);
        indices := PushTriangle(indices, polygon, triangles, j, ccw, top, face);
        j := j + 1;
      }
      assert triangles[..3 * j] == triangles;
    }

    /** The face that ends at position i. */
    method EndFace(indices0: seq<int>, polygon: seq<int>, triangulator: Triangulator, ccw: bool,
                   flat: (Vec3, Vec3, Vec3) -> bool,
                   top: nat, face: nat, ghost faces: seq<Face>, ghost i: int)
      returns (indices: seq<int>, ghost cut: seq<int>)
      requires triangulator.Unmasked() && AllUnder(polygon, |triangulator.vertices|) && NoneUnder(polygon, 0)
      requires WellCut(faces) && face == |faces|
      requires indices0 == CoordOut(faces, ccw) && indexPositionMap == PositionOut(faces, ccw)
      requires faceIndexMap == FaceOut(faces)
      modifies this, triangulator, triangulator.earMask
      ensures triangulator.Unmasked()
      ensures (triangulator.earMask == old(triangulator.earMask) || fresh(triangulator.earMask))
      ensures CutsInto(|polygon|, cut) && WellCut(faces + [Face(top, i, polygon, cut)])
      ensures CutFar(triangulator.vertices, Face(top, i, polygon, cut), flat)
      ensures var all := faces + [Face(top, i, polygon, cut)];
        indices == CoordOut(all, ccw) && indexPositionMap == PositionOut(all, ccw) && faceIndexMap == FaceOut(all)
    {
      hide Emit, CoordOut, PositionOut, FaceOut, Triangulator.Stuck, Triangulator.Fits, CutUp, ConvexCorners,
        Triangulator.CutWell, HasArea;
      var numTriangles := triangulator.Apply(polygon, flat);
      cut := triangulator.triangles;
      assert CutsInto(|polygon|, cut);
      assert CutFar(triangulator.vertices, Face(top, i, polygon, cut), flat);
      indices := PushTriangles(indices0, polygon, triangulator.triangles, numTriangles, ccw, top, face);
      OneMoreFace(faces, Face(top, i, polygon, cut), ccw);
    }

    /** Cutting all faces that are ended by a negative index. Indices without a vertex are passed over,
        and what follows the last end is left out. */
    method ConvertFaces(orgIndices: seq<int>, vertices: seq<Vec3>, ccw: bool, flat: (Vec3, Vec3, Vec3) -> bool)
      returns (indices: seq<int>, ghost faces: seq<Face>, ghost rest: int)
      modifies this
      ensures FacesOf(orgIndices, |vertices|, faces, rest) && WellCut(faces) && AllCutFar(vertices, faces, flat)
      ensures 0 <= rest <= |orgIndices| && forall k | rest <= k < |orgIndices| :: orgIndices[k] >= 0
      ensures indices == CoordOut(faces, ccw) && indexPositionMap == PositionOut(faces, ccw)
      ensures faceIndexMap == FaceOut(faces)
    {
      hide WellCut, FacesOf, Kept, CutsInto, CoordOut, PositionOut, FaceOut, CutFar;
      indexPositionMap := [];
      faceIndexMap := [];
      indices, faces, rest := [], [], 0;
      NoFaces(orgIndices, |vertices|, ccw);
      var orgFaceIndex: nat, polygonTopIndexPosition: nat := 0, 0;
      var polygon := [];
      var triangulator := new Triangulator(vertices);
      var i := 0;
      while i < |orgIndices|
        invariant 0 <= rest <= i <= |orgIndices| && polygonTopIndexPosition == rest && orgFaceIndex == |faces|
        invariant FacesOf(orgIndices, |vertices|, faces, rest) && WellCut(faces) && AllCutFar(vertices, faces, flat)
        invariant forall k | rest <= k < i :: orgIndices[k] >= 0
        invariant polygon == Kept(orgIndices[rest..i], |vertices|)
        invariant fresh(triangulator) && fresh(triangulator.earMask) && triangulator.Unmasked()
        invariant triangulator.vertices == vertices
        invariant indices == CoordOut(faces, ccw) && indexPositionMap == PositionOut(faces, ccw)
        invariant faceIndexMap == FaceOut(faces)
      {
        var index := orgIndices[i];
        KeptNext(orgIndices, rest, i, |vertices|);
        if index >= |vertices| {
          // reported as out of range, and passed over
        } else if index >= 0 {
          polygon := polygon + [index];
        } else {
          KeptUnder(orgIndices[rest..i], |vertices|);
          ghost var cut;
          indices, cut := EndFace(indices, polygon, triangulator, ccw, flat, polygonTopIndexPosition, orgFaceIndex,
                                  faces, i);
          NextFace(orgIndices, |vertices|, faces, rest, Face(rest, i, polygon, cut));
          faces := faces + [Face(rest, i, polygon, cut)];
          polygonTopIndexPosition := i + 1;
          orgFaceIndex := orgFaceIndex + 1;
          polygon := [];
          rest := i + 1;
        }
        i := i + 1;
      }
    }

    // ---- carrying values over ----

    /** values.resize: what was there stays, and zeros fill up. */
    static function Resized(s: seq<int>, n: nat): (r: seq<int>)
      ensures |r| == n
    {
      if n <= |s| then s[..n] else s + seq(n - |s|, i => 0)
    }

    /** Values per corner follow their corners. */
    method RemapPerVertex(orgIndices: seq<int>, numElements: int) returns (ok: bool, indices: seq<int>)
      requires forall i | 0 <= i < |indexPositionMap| :: indexPositionMap[i] < |orgIndices|
      ensures ok <==> forall i | 0 <= i < |indexPositionMap| && indexPositionMap[i] >= 0 ::
          orgIndices[indexPositionMap[i]] < numElements
      ensures ok ==> ReadsAt(orgIndices, indexPositionMap, indices)
    {
      ok := true;
      indices := Resized(orgIndices, |indexPositionMap|);
      var i := 0;
      while i < |indexPositionMap|
        invariant 0 <= i <= |indexPositionMap| == |indices|
        invariant ok <==> forall k | 0 <= k < i && indexPositionMap[k] >= 0 ::
            orgIndices[indexPositionMap[k]] < numElements
        invariant ok ==> forall k | 0 <= k < i ::
          indices[k] == if indexPositionMap[k] < 0 then -1 else orgIndices[indexPositionMap[k]]
      {
        var orgPosition := indexPositionMap[i];
        if orgPosition < 0 {
          indices := indices[i := -1];
        } else {
          var index := orgIndices[orgPosition];
          if index < numElements {
            indices := indices[i := index];
          } else {
            ok := false;
          }
        }
        i := i + 1;
      }
    }

    /** Values per face, chosen by an index each, follow their faces. */
    method RemapPerFace(orgIndices: seq<int>, numElements: int) returns (ok: bool, indices: seq<int>)
      requires forall i | 0 <= i < |faceIndexMap| :: 0 <= faceIndexMap[i] < |orgIndices|
      ensures ok <==> forall i | 0 <= i < |faceIndexMap| :: orgIndices[faceIndexMap[i]] < numElements
      ensures ok ==>
        |indices| == |faceIndexMap| && forall i | 0 <= i < |indices| :: indices[i] == orgIndices[faceIndexMap[i]]
    {
      ok := true;
      indices := Resized(orgIndices, |faceIndexMap|);
      var i := 0;
      while i < |faceIndexMap|
        invariant 0 <= i <= |faceIndexMap| == |indices|
        invariant ok <==> forall k | 0 <= k < i :: orgIndices[faceIndexMap[k]] < numElements
        invariant ok ==> forall k | 0 <= k < i :: indices[k] == orgIndices[faceIndexMap[k]]
      {
        var index := orgIndices[faceIndexMap[i]];
        if index < numElements {
          indices := indices[i := index];
        } else {
          ok := false;
        }
        i := i + 1;
      }
    }

    /** Values per face, one each, follow their faces. */
    method RemapDirectMapObjectsPerFaces(orgValues: seq<Vec3>) returns (ok: bool, values: seq<Vec3>)
      requires forall i | 0 <= i < |faceIndexMap| :: faceIndexMap[i] >= 0
      ensures ok <==> forall i | 0 <= i < |faceIndexMap| :: faceIndexMap[i] < |orgValues|
      ensures |values| == |faceIndexMap|
      ensures ok ==> forall i | 0 <= i < |values| :: values[i] == orgValues[faceIndexMap[i]]
    {
      var numFaces := |faceIndexMap|;
      values := if numFaces <= |orgValues| then orgValues[..numFaces]
          else orgValues + seq(numFaces - |orgValues|, i => ZERO3);
      var i := 0;
      while i < numFaces
        invariant 0 <= i <= numFaces == |values|
        invariant forall k | 0 <= k < i :: faceIndexMap[k] < |orgValues| && values[k] == orgValues[faceIndexMap[k]]
      {
        if faceIndexMap[i] >= |orgValues| {
          return false, values;
        }
        values := values[i := orgValues[faceIndexMap[i]]];
        i := i + 1;
      }
      ok := true;
    }

    /** There is an index for every corner and every face that is carried over. */
    ghost predicate LongEnough(indices: seq<int>, perVertex: bool)
      reads `indexPositionMap, `faceIndexMap
    {
      && (forall i | 0 <= i < |faceIndexMap| :: faceIndexMap[i] >= 0)
      && (indices != [] && perVertex ==> forall i | 0 <= i < |indexPositionMap| :: indexPositionMap[i] < |indices|)
      && (indices != [] && !perVertex ==> forall i | 0 <= i < |faceIndexMap| :: faceIndexMap[i] < |indices|)
    }

    /** What the carrying over of one kind of values is to do. */
    ghost predicate CarriedOver(values: seq<Vec3>, indices: seq<int>, perVertex: bool, newValues: seq<Vec3>,
                                newIndices: seq<int>)
      reads `indexPositionMap, `faceIndexMap
    {
      if values == [] || (indices == [] && perVertex) then
        newValues == values && newIndices == indices
      else if indices == [] then
        newIndices == [] && |newValues| == |faceIndexMap|
        && forall i | 0 <= i < |newValues| :: 0 <= faceIndexMap[i] < |values| && newValues[i] == values[faceIndexMap[i]]
      else if perVertex then
        newValues == values && ReadsAt(indices, indexPositionMap, newIndices)
      else
        newValues == values && |newIndices| == |faceIndexMap|
        && forall i | 0 <= i < |newIndices| ::
             0 <= faceIndexMap[i] < |indices| && newIndices[i] == indices[faceIndexMap[i]]
    }

    /** The one error that is passed over in silence: values for the faces, one each, too few of them. */
    ghost predicate TooFew(values: seq<Vec3>, indices: seq<int>, perVertex: bool)
      reads `faceIndexMap
    {
      values != [] && indices == [] && !perVertex && exists i | 0 <= i < |faceIndexMap| :: faceIndexMap[i] >= |values|
    }

    /** When the carrying over of one kind of values reports success. */
    ghost predicate ValuesOk(values: seq<Vec3>, indices: seq<int>, perVertex: bool, numVertices: nat)
      requires LongEnough(indices, perVertex)
      reads `indexPositionMap, `faceIndexMap
    {
      if values == [] then indices == []
      else if indices == [] then perVertex ==> |values| >= numVertices
      else if perVertex then
        forall i | 0 <= i < |indexPositionMap| && indexPositionMap[i] >= 0 :: indices[indexPositionMap[i]] < |values|
      else forall i | 0 <= i < |faceIndexMap| :: indices[faceIndexMap[i]] < |values|
    }

    /** Colours or normals. Success means that they are carried over, unless there are too few for the
        faces: then success is reported although they are not. */
    method CheckAndRemapIndices(values: seq<Vec3>, indices: seq<int>, perVertex: bool, numVertices: nat)
      returns (result: bool, newValues: seq<Vec3>, newIndices: seq<int>)
      requires LongEnough(indices, perVertex)
      ensures result && !TooFew(values, indices, perVertex) ==>
        CarriedOver(values, indices, perVertex, newValues, newIndices)
      ensures TooFew(values, indices, perVertex) ==>
        result && !CarriedOver(values, indices, perVertex, newValues, newIndices)
      ensures result <==> ValuesOk(values, indices, perVertex, numVertices)
    {
      result, newValues, newIndices := true, values, indices;
      if |values| == 0 {
        if |indices| != 0 {
          result := false;
        }
      } else if |indices| == 0 {
        if perVertex {
          if |values| < numVertices {
            result := false;
          }
        } else {
          var remapped;  // not looked at
          remapped, newValues := RemapDirectMapObjectsPerFaces(values);
        }
      } else if perVertex {
        result, newIndices := RemapPerVertex(indices, |values|);
      } else {
        result, newIndices := RemapPerFace(indices, |values|);
      }
    }

    /** Texture coordinates follow their corners. */
    method SetTexCoordIndex(hasTexCoord: bool, numPoints: nat, texCoordIndex: seq<int>, coordIndex: seq<int>)
      returns (result: bool, newIndices: seq<int>)
      requires hasTexCoord && texCoordIndex != [] ==> LongEnough(texCoordIndex, true)
      ensures !hasTexCoord ==> newIndices == texCoordIndex && result
      ensures hasTexCoord && texCoordIndex == [] ==> newIndices == coordIndex && result
      ensures hasTexCoord && texCoordIndex != [] && result ==> ReadsAt(texCoordIndex, indexPositionMap, newIndices)
      ensures AllUnder(texCoordIndex, numPoints) ==> result
    {
      result, newIndices := true, texCoordIndex;
      if hasTexCoord {
        if |texCoordIndex| == 0 {
          newIndices := coordIndex;
        } else {
          result, newIndices := RemapPerVertex(texCoordIndex, numPoints);
        }
      }
    }

    method Flipped(values: seq<Vec3>, flip: bool) returns (flipped: seq<Vec3>)
      ensures |flipped| == |values|
      ensures forall i | 0 <= i < |values| :: flipped[i] == if flip then Neg(values[i]) else values[i]
    {
      flipped := values;
      if |values| > 0 && flip {
        var i := 0;
        while i < |flipped|
          invariant 0 <= i <= |flipped| == |values|
          invariant forall k | 0 <= k < |values| :: flipped[k] == if k < i then Neg(values[k]) else values[k]
        {
          flipped := flipped[i := Neg(flipped[i])];
          i := i + 1;
        }
      }
    }

    /** The face set is turned into triangles. With all indices in range every corner of a triangle keeps
        the coordinate, colour, normal and texture coordinate of the polygon corner that it was, and
        values per face follow the face that the triangle was cut from. */
    method ConvertIndexedFaceSet(faceSet: IndexedFaceSet, flat: (Vec3, Vec3, Vec3) -> bool)
      returns (result: bool, ghost faces: seq<Face>, ghost rest: int, ghost normals: seq<Vec3>)
      requires ForAllCorners(faceSet.coordIndex, faceSet.colorIndex, faceSet.colorPerVertex)
      requires ForAllCorners(faceSet.coordIndex, faceSet.normalIndex, faceSet.normalPerVertex)
      requires ForAllCorners(faceSet.coordIndex, faceSet.texCoordIndex, true)
      modifies this, faceSet
      ensures FacesOf(old(faceSet.coordIndex), |faceSet.point|, faces, rest) && WellCut(faces)
      ensures AllCutFar(faceSet.point, faces, flat)
      ensures 0 <= rest <= |old(faceSet.coordIndex)|
      ensures forall k | rest <= k < |old(faceSet.coordIndex)| :: old(faceSet.coordIndex)[k] >= 0
      ensures faceSet.point == old(faceSet.point) && faceSet.ccw
      ensures faceSet.coordIndex == CoordOut(faces, old(faceSet.ccw))
      ensures indexPositionMap == PositionOut(faces, old(faceSet.ccw))
      ensures faceIndexMap == FaceOut(faces)
      ensures Grouped(faceSet.coordIndex) && |faceSet.coordIndex| == |indexPositionMap| == 4 * |faceIndexMap|
      ensures forall p: nat | p < |indexPositionMap| :: OfItsFace(faces, indexPositionMap, faceIndexMap, p)
      ensures AllUnder(old(faceSet.coordIndex), |faceSet.point|) ==>
        ReadsAt(old(faceSet.coordIndex), indexPositionMap, faceSet.coordIndex)
      ensures LongEnough(old(faceSet.colorIndex), faceSet.colorPerVertex)
      ensures LongEnough(old(faceSet.normalIndex), faceSet.normalPerVertex)
      ensures result <==>
              && faceSet.coordIndex != []
              && ValuesOk(old(faceSet.color), old(faceSet.colorIndex), faceSet.colorPerVertex, |faceSet.point|)
              && ValuesOk(old(faceSet.normal), old(faceSet.normalIndex), faceSet.normalPerVertex, |faceSet.point|)
      ensures TooFew(old(faceSet.color), old(faceSet.colorIndex), faceSet.colorPerVertex) ==>
        !CarriedOver(old(faceSet.color), old(faceSet.colorIndex), faceSet.colorPerVertex, faceSet.color,
                     faceSet.colorIndex)
      ensures TooFew(old(faceSet.normal), old(faceSet.normalIndex), faceSet.normalPerVertex) ==>
        !CarriedOver(old(faceSet.normal), old(faceSet.normalIndex), faceSet.normalPerVertex, normals,
                     faceSet.normalIndex)
      ensures |old(faceSet.color)| >= Ends(old(faceSet.coordIndex)) ==>
        !TooFew(old(faceSet.color), old(faceSet.colorIndex), faceSet.colorPerVertex)
      ensures |old(faceSet.normal)| >= Ends(old(faceSet.coordIndex)) ==>
        !TooFew(old(faceSet.normal), old(faceSet.normalIndex), faceSet.normalPerVertex)
      ensures result && !TooFew(old(faceSet.color), old(faceSet.colorIndex), faceSet.colorPerVertex) ==>
        CarriedOver(old(faceSet.color), old(faceSet.colorIndex), faceSet.colorPerVertex, faceSet.color,
                    faceSet.colorIndex)
      ensures result && !TooFew(old(faceSet.normal), old(faceSet.normalIndex), faceSet.normalPerVertex) ==>
        CarriedOver(old(faceSet.normal), old(faceSet.normalIndex), faceSet.normalPerVertex, normals,
                    faceSet.normalIndex)
      ensures |faceSet.normal| == |normals|
      ensures forall i | 0 <= i < |normals| ::
                faceSet.normal[i] == if old(faceSet.ccw) then normals[i] else Neg(normals[i])
      ensures faceSet.colorPerVertex == old(faceSet.colorPerVertex)
      ensures faceSet.normalPerVertex == old(faceSet.normalPerVertex)
      ensures TexturesCarried(faceSet, old(faceSet.texCoordIndex))
    {
      hide FacesOf, WellCut, Grouped, ReadsAt, OfItsFace, CarriedOver, TooFew, LongEnough, TexturesCarried,
        ForAllCorners, CoordOut, PositionOut, FaceOut, ValuesOk, AllCutFar;
      ghost var org := faceSet.coordIndex;
      var indices;
      indices, faces, rest := ConvertFaces(faceSet.coordIndex, faceSet.point, faceSet.ccw, flat);
      faceSet.coordIndex := indices;
      Outcome(org, |faceSet.point|, faces, rest, faceSet.ccw);
      EnoughFor(org, |faceSet.point|, faces, rest, faceSet.ccw, faceSet.colorIndex, faceSet.colorPerVertex);
      EnoughFor(org, |faceSet.point|, faces, rest, faceSet.ccw, faceSet.normalIndex, faceSet.normalPerVertex);
      EnoughFor(org, |faceSet.point|, faces, rest, faceSet.ccw, faceSet.texCoordIndex, true);
      EnoughValues(org, |faceSet.point|, faces, rest, faceSet.ccw, faceSet.color, faceSet.colorIndex,
                   faceSet.colorPerVertex);
      EnoughValues(org, |faceSet.point|, faces, rest, faceSet.ccw, faceSet.normal, faceSet.normalIndex,
                   faceSet.normalPerVertex);
      result, normals := CarryValues(faceSet);
    }

    method CarryColors(faceSet: IndexedFaceSet) returns (ok: bool)
      requires LongEnough(faceSet.colorIndex, faceSet.colorPerVertex)
      modifies faceSet`color, faceSet`colorIndex
      ensures ok <==> ValuesOk(old(faceSet.color), old(faceSet.colorIndex), faceSet.colorPerVertex, |faceSet.point|)
      ensures TooFew(old(faceSet.color), old(faceSet.colorIndex), faceSet.colorPerVertex) ==>
        !CarriedOver(old(faceSet.color), old(faceSet.colorIndex), faceSet.colorPerVertex, faceSet.color,
                     faceSet.colorIndex)
      ensures ok && !TooFew(old(faceSet.color), old(faceSet.colorIndex), faceSet.colorPerVertex) ==>
        CarriedOver(old(faceSet.color), old(faceSet.colorIndex), faceSet.colorPerVertex, faceSet.color,
                    faceSet.colorIndex)
    {
      hide LongEnough, CarriedOver, TooFew, ValuesOk;
      var values, valueIndex;
      ok, values, valueIndex := CheckAndRemapIndices(faceSet.color, faceSet.colorIndex, faceSet.colorPerVertex,
                                                     |faceSet.point|);
      faceSet.color, faceSet.colorIndex := values, valueIndex;
    }

    /** Normals are carried over, and turned round if the faces were. */
    method CarryNormals(faceSet: IndexedFaceSet) returns (ok: bool, ghost normals: seq<Vec3>)
      requires LongEnough(faceSet.normalIndex, faceSet.normalPerVertex)
      modifies faceSet`normal, faceSet`normalIndex
      ensures ok <==> ValuesOk(old(faceSet.normal), old(faceSet.normalIndex), faceSet.normalPerVertex, |faceSet.point|)
      ensures TooFew(old(faceSet.normal), old(faceSet.normalIndex), faceSet.normalPerVertex) ==>
        !CarriedOver(old(faceSet.normal), old(faceSet.normalIndex), faceSet.normalPerVertex, normals,
                     faceSet.normalIndex)
      ensures ok && !TooFew(old(faceSet.normal), old(faceSet.normalIndex), faceSet.normalPerVertex) ==>
        CarriedOver(old(faceSet.normal), old(faceSet.normalIndex), faceSet.normalPerVertex, normals,
                    faceSet.normalIndex)
      ensures |faceSet.normal| == |normals|
      ensures forall i | 0 <= i < |normals| :: faceSet.normal[i] == if faceSet.ccw then normals[i] else Neg(normals[i])
    {
      hide LongEnough, CarriedOver, TooFew, ValuesOk;
      var values, valueIndex;
      ok, values, valueIndex := CheckAndRemapIndices(faceSet.normal, faceSet.normalIndex, faceSet.normalPerVertex,
                                                     |faceSet.point|);
      normals := values;
      var flipped := Flipped(values, !faceSet.ccw);
      faceSet.normal, faceSet.normalIndex := flipped, valueIndex;
    }

    /** Colours, normals and texture coordinates. */
    method CarryValues(faceSet: IndexedFaceSet) returns (result: bool, ghost normals: seq<Vec3>)
      requires LongEnough(faceSet.colorIndex, faceSet.colorPerVertex)
      requires LongEnough(faceSet.normalIndex, faceSet.normalPerVertex)
      requires LongEnough(faceSet.texCoordIndex, true)
      modifies faceSet`color, faceSet`colorIndex, faceSet`normal, faceSet`normalIndex, faceSet`texCoordIndex,
          faceSet`ccw
      ensures faceSet.ccw
      ensures result <==>
              && faceSet.coordIndex != []
              && ValuesOk(old(faceSet.color), old(faceSet.colorIndex), faceSet.colorPerVertex, |faceSet.point|)
              && ValuesOk(old(faceSet.normal), old(faceSet.normalIndex), faceSet.normalPerVertex, |faceSet.point|)
      ensures TooFew(old(faceSet.color), old(faceSet.colorIndex), faceSet.colorPerVertex) ==>
        !CarriedOver(old(faceSet.color), old(faceSet.colorIndex), faceSet.colorPerVertex, faceSet.color,
                     faceSet.colorIndex)
      ensures TooFew(old(faceSet.normal), old(faceSet.normalIndex), faceSet.normalPerVertex) ==>
        !CarriedOver(old(faceSet.normal), old(faceSet.normalIndex), faceSet.normalPerVertex, normals,
                     faceSet.normalIndex)
      ensures result && !TooFew(old(faceSet.color), old(faceSet.colorIndex), faceSet.colorPerVertex) ==>
        CarriedOver(old(faceSet.color), old(faceSet.colorIndex), faceSet.colorPerVertex, faceSet.color,
                    faceSet.colorIndex)
      ensures result && !TooFew(old(faceSet.normal), old(faceSet.normalIndex), faceSet.normalPerVertex) ==>
        CarriedOver(old(faceSet.normal), old(faceSet.normalIndex), faceSet.normalPerVertex, normals,
                    faceSet.normalIndex)
      ensures |faceSet.normal| == |normals|
      ensures forall i | 0 <= i < |normals| ::
                faceSet.normal[i] == if old(faceSet.ccw) then normals[i] else Neg(normals[i])
      ensures TexturesCarried(faceSet, old(faceSet.texCoordIndex))
    {
      hide LongEnough, CarriedOver, TooFew, ReadsAt, ValuesOk;
      var colorsOk := CarryColors(faceSet);
      var normalsOk;
      normalsOk, normals := CarryNormals(faceSet);
      faceSet.ccw := true;
      var texOk, texIndex := SetTexCoordIndex(faceSet.hasTexCoord, |faceSet.texCoord|, faceSet.texCoordIndex,
                                              faceSet.coordIndex);
      faceSet.texCoordIndex := texIndex;
      result := colorsOk && normalsOk && |faceSet.coordIndex| > 0;
    }

    /** Texture coordinates in range are chosen by each corner as before; without indices of their own
        they go by the new coordinate indices. */
    ghost predicate TexturesCarried(faceSet: IndexedFaceSet, org: seq<int>)
      reads faceSet, `indexPositionMap
    {
      if !faceSet.hasTexCoord then faceSet.texCoordIndex == org
      else if org == [] then faceSet.texCoordIndex == faceSet.coordIndex
      else AllUnder(org, |faceSet.texCoord|) ==> ReadsAt(org, indexPositionMap, faceSet.texCoordIndex)
    }

    /** A value for every face is never too few. */
    lemma EnoughValues(org: seq<int>, n: int, faces: seq<Face>, rest: int, ccw: bool, values: seq<Vec3>,
                       indices: seq<int>,
                       perVertex: bool)
      requires FacesOf(org, n, faces, rest) && WellCut(faces) && 0 <= rest <= |org|
      requires indexPositionMap == PositionOut(faces, ccw) && faceIndexMap == FaceOut(faces)
      ensures |values| >= Ends(org) ==> !TooFew(values, indices, perVertex)
    {
      FaceNumbers(org, n, faces, rest, ccw);
    }

    /** There are too few values per face exactly when some face beyond them is cut into triangles. */
    lemma TooFewIff(values: seq<Vec3>, indices: seq<int>, perVertex: bool, faces: seq<Face>)
      requires faceIndexMap == FaceOut(faces) && WellCut(faces)
      ensures TooFew(values, indices, perVertex) <==>
              && values != [] && indices == [] && !perVertex
              && exists f | |values| <= f < |faces| :: faces[f].cut != []
    {
      hide CutsInto;
      FaceOutHas(faces);
      assert forall i | 0 <= i < |faceIndexMap| :: faceIndexMap[i] in faceIndexMap;
      forall f | |values| <= f < |faces| && faces[f].cut != []
        ensures exists i | 0 <= i < |faceIndexMap| :: faceIndexMap[i] >= |values|
      {
        assert f in faceIndexMap;
      }
    }

    lemma FaceNumbers(org: seq<int>, n: int, faces: seq<Face>, rest: int, ccw: bool)
      requires FacesOf(org, n, faces, rest) && WellCut(faces) && 0 <= rest <= |org|
      requires indexPositionMap == PositionOut(faces, ccw) && faceIndexMap == FaceOut(faces)
      ensures |faces| <= Ends(org)
      ensures forall p: nat | p < |indexPositionMap| :: indexPositionMap[p] < |org|
      ensures forall g | 0 <= g < |faceIndexMap| :: 0 <= faceIndexMap[g] < |faces|
    {
      OutputGrouped(org, n, faces, rest, ccw);
      TrianglesKeepFaces(org, n, faces, rest, ccw);
      FaceCount(org, n, faces, rest);
      EndsInPart(org, rest);
      forall p: nat | p < |indexPositionMap| ensures indexPositionMap[p] < |org| && 0 <= faceIndexMap[p / 4] < |faces| {
        assert OfItsFace(faces, indexPositionMap, faceIndexMap, p);
      }
      forall g | 0 <= g < |faceIndexMap| ensures 0 <= faceIndexMap[g] < |faces| {
        assert (4 * g) / 4 == g;
      }
    }

    lemma EnoughFor(org: seq<int>, n: int, faces: seq<Face>, rest: int, ccw: bool, indices: seq<int>, perVertex: bool)
      requires FacesOf(org, n, faces, rest) && WellCut(faces) && 0 <= rest <= |org|
      requires indexPositionMap == PositionOut(faces, ccw) && faceIndexMap == FaceOut(faces)
      requires ForAllCorners(org, indices, perVertex)
      ensures LongEnough(indices, perVertex)
    {
      FaceNumbers(org, n, faces, rest, ccw);
    }
  }

  /** The faces that triangles come from are those that are cut into any. */
  lemma {:induction false} FaceOutHas(faces: seq<Face>)
    requires WellCut(faces)
    ensures forall f :: f in FaceOut(faces) <==> 0 <= f < |faces| && faces[f].cut != []
  {
    if faces != [] {
      var k := |faces| - 1;
      FaceOutHas(faces[..k]);
      assert CutsInto(|faces[k].polygon|, faces[k].cut);
      var own := Repeated(k, |faces[k].cut| / 3);
      assert faces[k].cut != [] ==> own[0] == k;
      forall f ensures f in own <==> f == k && faces[k].cut != [] {}
    }
  }

  /** Two triangles back to back with one colour for both, given per face: success is reported, and the
      colours are not carried over. */
  method SuccessWithoutColors(flat: (Vec3, Vec3, Vec3) -> bool)
    returns (shaper: TriangleMeshShaper, faceSet: IndexedFaceSet, result: bool)
    ensures result && !faceSet.colorPerVertex
    ensures !shaper.CarriedOver([ZERO3], [], false, faceSet.color, faceSet.colorIndex)
  {
    shaper := new TriangleMeshShaper();
    faceSet := new IndexedFaceSet();
    faceSet.point := [ZERO3, Vec3(1.0, 0.0, 0.0), Vec3(0.0, 1.0, 0.0)];
    faceSet.coordIndex := BackToBack();
    faceSet.color, faceSet.colorPerVertex := [ZERO3], false;
    ghost var faces, rest, normals;
    result, faces, rest, normals := ConvertWithOneColor(shaper, faceSet, flat);
  }

  method ConvertWithOneColor(shaper: TriangleMeshShaper, faceSet: IndexedFaceSet, flat: (Vec3, Vec3, Vec3) -> bool)
    returns (result: bool, ghost faces: seq<Face>, ghost rest: int, ghost normals: seq<Vec3>)
    requires |faceSet.point| == 3 && faceSet.coordIndex == BackToBack()
    requires faceSet.color == [ZERO3] && faceSet.colorIndex == [] && !faceSet.colorPerVertex
    requires faceSet.normal == [] && faceSet.normalIndex == [] && faceSet.texCoordIndex == []
    modifies shaper, faceSet
    ensures result && !faceSet.colorPerVertex
    ensures !shaper.CarriedOver([ZERO3], [], false, faceSet.color, faceSet.colorIndex)
  {
    hide FacesOf, WellCut, Grouped, ReadsAt, OfItsFace, CoordOut, PositionOut, FaceOut, AllUnder, Ends, BackToBack,
      TriangleMeshShaper.CarriedOver, TriangleMeshShaper.TexturesCarried;
    result, faces, rest, normals := shaper.ConvertIndexedFaceSet(faceSet, flat);
    TwoFaces(faces, rest);
    assert shaper.faceIndexMap[1] == 1;
  }

  function BackToBack(): seq<int> { [0, 1, 2, -1, 2, 1, 0, -1] }

  lemma TwoFaces(faces: seq<Face>, rest: int)
    requires FacesOf(BackToBack(), 3, faces, rest) && WellCut(faces) && 0 <= rest <= |BackToBack()|
    requires forall k | rest <= k < |BackToBack()| :: BackToBack()[k] >= 0
    ensures FaceOut(faces) == [0, 1]
  {
    hide FaceOf, CutsInto, Kept;
    assert BackToBack()[7] < 0;
    assert FaceOf(BackToBack(), 3, faces[0]) && InLine(faces, 0) && CutsInto(|faces[0].polygon|, faces[0].cut);
    OneOfTwo(faces[0]);
    assert FaceOf(BackToBack(), 3, faces[1]) && InLine(faces, 1) && CutsInto(|faces[1].polygon|, faces[1].cut);
    OneOfTwo(faces[1]);
    if |faces| > 2 {
      FaceAfter(BackToBack(), 3, faces, rest, 2);
      assert false;
    }
    assert faces[..1][..0] == [] && FaceOut(faces[..1]) == [0];
  }

  lemma OneOfTwo(f: Face)
    requires FaceOf(BackToBack(), 3, f) && CutsInto(|f.polygon|, f.cut) && (f.top == 0 || f.top == 4)
    ensures f.end == f.top + 3 && |f.cut| == 3
  {
    hide ConservedIn;
    var org := BackToBack();
    assert org[3] < 0 && org[7] < 0 && org[0] >= 0 && org[1] >= 0 && org[2] >= 0 && org[4] >= 0 && org[5] >= 0
        && org[6] >= 0;
    KeptAll(org[f.top..f.end], 3);
  }

  lemma FaceAfter(org: seq<int>, n: int, faces: seq<Face>, rest: int, i: nat)
    requires FacesOf(org, n, faces, rest) && 0 < i < |faces|
    ensures faces[i].top == faces[i - 1].end + 1 && faces[i].top <= faces[i].end < |org|
  {
    hide Kept;
    assert InLine(faces, i);
  }

  /** The number of indices that end a face. */
  ghost function Ends(s: seq<int>): nat {
    if s == [] then 0 else Ends(s[..|s| - 1]) + if s[|s| - 1] < 0 then 1 else 0
  }

  lemma {:induction false} EndsInPart(s: seq<int>, k: int)
    requires 0 <= k <= |s|
    ensures Ends(s[..k]) <= Ends(s)
  {
    if k == |s| {
      assert s[..k] == s;
    } else {
      EndsInPart(s[..|s| - 1], k);
      assert s[..|s| - 1][..k] == s[..k];
    }
  }

  lemma {:induction false} NoEnds(s: seq<int>)
    requires NoneUnder(s, 0)
    ensures Ends(s) == 0
  {
    if s != [] {
      NoEnds(s[..|s| - 1]);
    }
  }

  lemma {:induction false} EndsAppend(a: seq<int>, b: seq<int>)
    ensures Ends(a + b) == Ends(a) + Ends(b)
  {
    if b == [] {
      assert a + b == a;
    } else {
      EndsAppend(a, b[..|b| - 1]);
      assert (a + b)[..|a + b| - 1] == a + b[..|b| - 1];
    }
  }

  /** Values with indices have one for each coordinate index, or for each face that is ended. */
  ghost predicate ForAllCorners(coordIndex: seq<int>, indices: seq<int>, perVertex: bool) {
    indices == [] || (if perVertex then |indices| >= |coordIndex| else |indices| >= Ends(coordIndex))
  }

  lemma FrontLine(org: seq<int>, n: int, faces: seq<Face>, rest: int)
    requires FacesOf(org, n, faces, rest) && faces != []
    ensures FacesOf(org, n, faces[..|faces| - 1], faces[|faces| - 1].top)
  {
    hide FaceOf;
    var front := faces[..|faces| - 1];
    forall i | 0 <= i < |front| ensures InLine(front, i) && front[i] == faces[i] {
      assert InLine(faces, i);
    }
    assert InLine(faces, |faces| - 1);
  }

  lemma {:induction false} FaceCount(org: seq<int>, n: int, faces: seq<Face>, rest: int)
    requires FacesOf(org, n, faces, rest) && 0 <= rest <= |org|
    ensures |faces| == Ends(org[..rest])
    decreases |faces|
  {
    if faces != [] {
      var front, f := faces[..|faces| - 1], faces[|faces| - 1];
      FrontLine(org, n, faces, rest);
      FaceCount(org, n, front, f.top);
      var mid := org[f.top..f.end];
      assert org[..rest] == org[..f.top] + (mid + [org[f.end]]);
      NoEnds(mid);
      EndsAppend(org[..f.top], mid + [org[f.end]]);
      EndsAppend(mid, [org[f.end]]);
      assert [org[f.end]][..0] == [];
    }
  }

  lemma Outcome(org: seq<int>, n: int, faces: seq<Face>, rest: int, ccw: bool)
    requires FacesOf(org, n, faces, rest) && WellCut(faces)
    ensures Grouped(CoordOut(faces, ccw)) && |CoordOut(faces, ccw)| == |PositionOut(faces, ccw)| == 4 * |FaceOut(faces)|
    ensures forall p: nat | p < |PositionOut(faces, ccw)| ::
              OfItsFace(faces, PositionOut(faces, ccw), FaceOut(faces), p)
    ensures AllUnder(org, n) ==> ReadsAt(org, PositionOut(faces, ccw), CoordOut(faces, ccw))
  {
    OutputGrouped(org, n, faces, rest, ccw);
    TrianglesKeepFaces(org, n, faces, rest, ccw);
    if AllUnder(org, n) {
      CornersKeepIndices(org, n, faces, rest, ccw);
    }
  }

  /** The group of triangle j. */
  ghost function GroupOf(values: seq<int>, triangles: seq<int>, j: nat, ccw: bool): (r: seq<int>)
    requires 3 * j + 3 <= |triangles| && AllBelow(triangles, |values|)
    ensures |r| == 4
  {
    var a, b, c := values[triangles[3 * j]], values[triangles[3 * j + 1]], values[triangles[3 * j + 2]];
    if ccw then [a, b, c, -1] else [c, b, a, -1]
  }

  lemma EmitNone(values: seq<int>, triangles: seq<int>, ccw: bool)
    ensures triangles[..0] == [] && Emit(values, [], ccw) == []
  {}

  lemma EmitOneMore(values: seq<int>, triangles: seq<int>, j: nat, ccw: bool)
    requires 3 * j + 3 <= |triangles| && AllBelow(triangles, |values|)
    ensures AllBelow(triangles[..3 * (j + 1)], |values|) && AllBelow(triangles[..3 * j], |values|)
    ensures Emit(values, triangles[..3 * (j + 1)], ccw) == Emit(values, triangles[..3 * j], ccw)
        + GroupOf(values, triangles, j, ccw)
  {
    var t := triangles[..3 * (j + 1)];
    assert t[..|t| - 3] == triangles[..3 * j];
  }

  lemma NoFaces(org: seq<int>, n: int, ccw: bool)
    ensures FacesOf(org, n, [], 0) && WellCut([]) && CoordOut([], ccw) == PositionOut([], ccw) == FaceOut([]) == []
    ensures org[0..0] == [] && Kept([], n) == []
  {}

  lemma KeptNext(org: seq<int>, rest: int, i: int, n: int)
    requires 0 <= rest <= i < |org|
    ensures Kept(org[rest..i + 1], n) == Kept(org[rest..i], n) + if org[i] < n then [org[i]] else []
    ensures org[i + 1..i + 1] == [] && Kept([], n) == []
    ensures (forall k | rest <= k < i :: org[k] >= 0) ==> NoneUnder(org[rest..i], 0)
  {
    var s := org[rest..i + 1];
    assert s[..|s| - 1] == org[rest..i];
  }

  lemma NextFace(org: seq<int>, n: int, faces: seq<Face>, rest: int, f: Face)
    requires FacesOf(org, n, faces, rest) && WellCut(faces) && FaceOf(org, n, f) && f.top == rest
    requires CutsInto(|f.polygon|, f.cut)
    ensures FacesOf(org, n, faces + [f], f.end + 1) && WellCut(faces + [f])
  {
    hide FaceOf, CutsInto;
    var all := faces + [f];
    forall i | 0 <= i < |all|
      ensures FaceOf(org, n, all[i]) && CutsInto(|all[i].polygon|, all[i].cut)
      ensures InLine(all, i)
    {
      assert all[i] == if i < |faces| then faces[i] else f;
      assert i > 0 ==> all[i - 1] == faces[i - 1];
      assert i < |faces| ==> InLine(faces, i);
    }
  }

  lemma OneMoreFace(faces: seq<Face>, f: Face, ccw: bool)
    requires WellCut(faces) && CutsInto(|f.polygon|, f.cut)
    ensures WellCut(faces + [f])
    ensures CoordOut(faces + [f], ccw) == CoordOut(faces, ccw) + Emit(f.polygon, f.cut, ccw)
    ensures PositionOut(faces + [f], ccw) == PositionOut(faces, ccw) + Emit(Positions(f.top, |f.polygon|), f.cut, ccw)
    ensures FaceOut(faces + [f]) == FaceOut(faces) + Repeated(|faces|, |f.cut| / 3)
  {
    assert (faces + [f])[..|faces + [f]| - 1] == faces;
  }
}
