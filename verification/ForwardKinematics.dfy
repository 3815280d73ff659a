/** Positions and velocities of all links from those of a base link, going up and down the tree. */
module ForwardKinematics {
  import opened LinearAlgebra
  import opened Counting
  import opened Links
  import opened Rotation
  import opened RigidLinks
  import opened RigidMotion
  import opened LinkTraverses

  /** A link's velocity follows from its parent's as the traversal computes it. */
  ghost predicate Carried(l: Link, parent: Link)
    reads l`jointType, l`w, l`v, l`sw, l`sv, l`a, l`b, l`d, l`dq, parent`R, parent`w, parent`v
  {
    match l.jointType
    case ROTATIONAL_JOINT =>
      && l.sw == Mul(parent.R, l.a)
      && l.w == Add(parent.w, Scale(l.dq, l.sw))
      && l.v == Add(parent.v, Cross(parent.w, Mul(parent.R, l.b)))
    case SLIDE_JOINT =>
      l.sv == Mul(parent.R, l.d) && l.w == parent.w && l.v == Add(parent.v, Scale(l.dq, l.sv))
    case _ => l.w == parent.w && l.v == parent.v
  }

  /** Where a link's origin is from its parent's, in the world frame. */
  ghost function Arm(l: Link, parent: Link): Vec3
    reads l`jointType, l`b, l`d, l`q, parent`R
  {
    Mul(parent.R, if l.jointType == SLIDE_JOINT then Add(l.b, Scale(l.q, l.d)) else l.b)
  }

  /** A link's acceleration follows from its parent's as the traversal computes it; the turning terms are
      those of `turn`, which is the parent on the way down and the child on the way up. */
  ghost predicate Accelerated(l: Link, parent: Link, turn: Link)
    reads l`jointType, l`dw, l`dv, l`sw, l`sv, l`b, l`d, l`q, l`dq, l`ddq, parent`R, parent`dw, parent`dv
    reads turn`w, turn`dw
  {
    match l.jointType
    case ROTATIONAL_JOINT =>
      && l.dw == Add(Add(parent.dw, Scale(l.dq, Cross(turn.w, l.sw))), Scale(l.ddq, l.sw))
      && l.dv == Add(parent.dv, Swung(turn.w, turn.dw, Arm(l, parent)))
    case SLIDE_JOINT =>
      && l.dw == parent.dw
      && l.dv == Add(Add(Add(parent.dv, Swung(turn.w, turn.dw, Arm(l, parent))),
                         Scale(2.0 * l.dq, Cross(turn.w, l.sv))), Scale(l.ddq, l.sv))
    case _ => l.dw == parent.dw && l.dv == parent.dv
  }

  /** What the traversal is asked to compute beside positions. */
  datatype Wanted = Wanted(velocity: bool, acceleration: bool)

  /** The relation between a link and its parent that the traversal is to establish, crossing the edge
      between them upward or downward. */
  ghost predicate Follows(l: Link, parent: Link, rodrigues: (Vec3, real) -> Mat3, wanted: Wanted, upward: bool)
    reads l`jointType, l`R, l`p, l`q, l`w, l`v, l`dw, l`dv, l`sw, l`sv, l`a, l`b, l`d, l`dq, l`ddq
    reads parent`R, parent`p, parent`w, parent`v, parent`dw, parent`dv
  {
    && PlacedAt(l, parent, rodrigues)
    && (wanted.velocity ==> Carried(l, parent))
    && (wanted.velocity && wanted.acceleration ==> Accelerated(l, parent, if upward then l else parent))
  }

  /** A rotation taken back and done again. */
  lemma Redo(c: Mat3, m: Mat3)
    requires Orthogonal(m)
    ensures MatMul(MatMul(c, Transpose(m)), m) == c
  {
    hide Mul;
    assert Transpose(Transpose(m)) == m;
    assert Mul(Transpose(m), Mul(m, c.r0)) == c.r0;
    assert Mul(Transpose(m), Mul(m, c.r1)) == c.r1;
    assert Mul(Transpose(m), Mul(m, c.r2)) == c.r2;
  }

  lemma TakeAway(a: Vec3, b: Vec3)
    ensures Add(b, Sub(a, b)) == a && Add(Sub(a, b), b) == a
  {}

  lemma TakeAwayTwice(a: Vec3, b: Vec3, c: Vec3)
    ensures Add(Add(Sub(Sub(a, b), c), b), c) == a && Add(Sub(Sub(a, b), c), Add(b, c)) == a
  {}

  lemma TakeAwayAll(a: Vec3, b: Vec3, c: Vec3, d: Vec3, e: Vec3)
    ensures Add(Add(Add(Sub(Sub(Sub(Sub(a, b), c), d), e), Add(b, c)), d), e) == a
  {}

  /** The parent's position and velocity from its child's. */
  method UpwardMotion(link: Link, child: Link, rodrigues: (Vec3, real) -> Mat3, calcVelocity: bool)
    requires link != child && Orthogonal(rodrigues(child.a, child.q))
    modifies link`R, link`p, link`w, link`v, child`sw, child`sv
    ensures PlacedAt(child, link, rodrigues) && (calcVelocity ==> Carried(child, link))
  {
    hide MatMul, Mul, Transpose, Cross, Scale, Add, Sub, Orthogonal;
    match child.jointType {
      case ROTATIONAL_JOINT =>
        link.R := MatMul(child.R, Transpose(rodrigues(child.a, child.q)));
        Redo(child.R, rodrigues(child.a, child.q));
        var arm := Mul(link.R, child.b);
        link.p := Sub(child.p, arm);
        TakeAway(child.p, arm);
        if calcVelocity {
          child.sw := Mul(link.R, child.a);
          link.w := Sub(child.w, Scale(child.dq, child.sw));
          TakeAway(child.w, Scale(child.dq, child.sw));
          link.v := Sub(child.v, Cross(link.w, arm));
          TakeAway(child.v, Cross(link.w, arm));
        }
      case SLIDE_JOINT =>
        link.R := child.R;
        var arm := Mul(link.R, Add(child.b, Scale(child.q, child.d)));
        link.p := Sub(child.p, arm);
        TakeAway(child.p, arm);
        if calcVelocity {
          child.sv := Mul(link.R, child.d);
          link.w := child.w;
          link.v := Sub(child.v, Scale(child.dq, child.sv));
          TakeAway(child.v, Scale(child.dq, child.sv));
        }
      case _ =>
        link.R := child.R;
        link.p := Sub(child.p, Mul(link.R, child.b));
        TakeAway(child.p, Mul(link.R, child.b));
        if calcVelocity {
          link.w := child.w;
          link.v := child.v;
        }
    }
  }

  /** The parent's acceleration from its child's, with the turning of the child. */
  method UpwardAcceleration(link: Link, child: Link)
    requires link != child
    modifies link`dw, link`dv
    ensures Accelerated(child, link, child)
  {
    hide Mul, Cross, Scale, Add, Sub;
    var arm := Mul(link.R, if child.jointType == SLIDE_JOINT then Add(child.b, Scale(child.q, child.d)) else child.b);
    var out, along := Cross(child.w, Cross(child.w, arm)), Cross(child.dw, arm);
    match child.jointType {
      case ROTATIONAL_JOINT =>
        var turned := Scale(child.dq, Cross(child.w, child.sw));
        link.dw := Sub(Sub(child.dw, turned), Scale(child.ddq, child.sw));
        TakeAwayTwice(child.dw, turned, Scale(child.ddq, child.sw));
        link.dv := Sub(Sub(child.dv, out), along);
        TakeAwayTwice(child.dv, out, along);
      case SLIDE_JOINT =>
        var swept := Scale(2.0 * child.dq, Cross(child.w, child.sv));
        link.dw := child.dw;
        link.dv := Sub(Sub(Sub(Sub(child.dv, out), along), swept), Scale(child.ddq, child.sv));
        TakeAwayAll(child.dv, out, along, swept, Scale(child.ddq, child.sv));
      case _ =>
        link.dw := child.dw;
        link.dv := child.dv;
    }
  }

  /** The parent from its child. */
  method Upward(link: Link, child: Link, rodrigues: (Vec3, real) -> Mat3, wanted: Wanted)
    requires link != child && Orthogonal(rodrigues(child.a, child.q))
    modifies link`R, link`p, link`w, link`v, link`dw, link`dv, child`sw, child`sv
    ensures Follows(child, link, rodrigues, wanted, true)
  {
    hide Add, Mul, MatMul, Cross, Scale, Swung, Orthogonal;
    UpwardMotion(link, child, rodrigues, wanted.velocity);
    if wanted.velocity && wanted.acceleration {
      UpwardAcceleration(link, child);
    }
  }

  /** The link's position and velocity from its parent's. */
  method DownwardMotion(link: Link, parent: Link, rodrigues: (Vec3, real) -> Mat3, calcVelocity: bool)
    requires link != parent
    modifies link`R, link`p, link`w, link`v, link`sw, link`sv
    ensures PlacedAt(link, parent, rodrigues) && (calcVelocity ==> Carried(link, parent))
  {
    hide MatMul, Mul, Cross, Scale, Add;
    match link.jointType {
      case ROTATIONAL_JOINT =>
        link.R := MatMul(parent.R, rodrigues(link.a, link.q));
        var arm := Mul(parent.R, link.b);
        link.p := Add(parent.p, arm);
        AddComm(parent.p, arm);
        if calcVelocity {
          link.sw := Mul(parent.R, link.a);
          link.w := Add(parent.w, Scale(link.dq, link.sw));
          link.v := Add(parent.v, Cross(parent.w, arm));
        }
      case SLIDE_JOINT =>
        link.R := parent.R;
        var arm := Mul(parent.R, Add(link.b, Scale(link.q, link.d)));
        link.p := Add(parent.p, arm);
        AddComm(parent.p, arm);
        if calcVelocity {
          link.sv := Mul(parent.R, link.d);
          link.w := parent.w;
          link.v := Add(parent.v, Scale(link.dq, link.sv));
        }
      case _ =>
        link.R := parent.R;
        link.p := Add(Mul(parent.R, link.b), parent.p);
        if calcVelocity {
          link.w := parent.w;
          link.v := parent.v;
        }
    }
  }

  lemma AddInTurn(a: Vec3, b: Vec3, c: Vec3)
    ensures Add(Add(a, b), c) == Add(a, Add(b, c))
  {}

  /** The link's acceleration from its parent's, with the turning of the parent. */
  method DownwardAcceleration(link: Link, parent: Link)
    requires link != parent
    modifies link`dw, link`dv
    ensures Accelerated(link, parent, parent)
  {
    hide Mul, Cross, Scale, Add;
    var arm := Mul(parent.R, if link.jointType == SLIDE_JOINT then Add(link.b, Scale(link.q, link.d)) else link.b);
    var out, along := Cross(parent.w, Cross(parent.w, arm)), Cross(parent.dw, arm);
    AddInTurn(parent.dv, out, along);
    match link.jointType {
      case ROTATIONAL_JOINT =>
        link.dw := Add(Add(parent.dw, Scale(link.dq, Cross(parent.w, link.sw))), Scale(link.ddq, link.sw));
        link.dv := Add(Add(parent.dv, out), along);
      case SLIDE_JOINT =>
        link.dw := parent.dw;
        link.dv := Add(Add(Add(Add(parent.dv, out), along), Scale(2.0 * link.dq, Cross(parent.w, link.sv))),
                       Scale(link.ddq, link.sv));
      case _ =>
        link.dw := parent.dw;
        link.dv := parent.dv;
    }
  }

  /** The link from its parent. */
  method Downward(link: Link, parent: Link, rodrigues: (Vec3, real) -> Mat3, wanted: Wanted)
    requires link != parent
    modifies link`R, link`p, link`w, link`v, link`sw, link`sv, link`dw, link`dv
    ensures Follows(link, parent, rodrigues, wanted, false)
  {
    hide Add, Mul, MatMul, Cross, Scale, Swung;
    DownwardMotion(link, parent, rodrigues, wanted.velocity);
    if wanted.velocity && wanted.acceleration {
      DownwardAcceleration(link, parent);
    }
  }

  // ---- what the relations mean ----

  /** The velocity of a point of the parent at the arm, plus the sliding of the joint. */
  ghost predicate RigidVelocity(l: Link, parent: Link)
    reads l`jointType, l`v, l`b, l`d, l`q, l`dq, parent`R, parent`w, parent`v
  {
    l.v == Add(Add(parent.v, Cross(parent.w, Arm(l, parent))), JointSlide(l, parent))
  }

  /** The velocity that the traversal gives a link is that of a rigid body always at a rotational joint, and
      at any other joint exactly when the parent does not turn its origin. */
  lemma RigidVelocityIff(l: Link, parent: Link)
    requires Carried(l, parent)
    ensures RigidVelocity(l, parent)
       <==> l.jointType == ROTATIONAL_JOINT || Cross(parent.w, Arm(l, parent)) == ZERO3
  {
    hide Mul, Cross, Scale;
  }

  /** The acceleration of a point of the parent at the arm, plus what the joint adds. */
  ghost predicate RigidAcceleration(l: Link, parent: Link)
    reads l`jointType, l`dv, l`dw, l`a, l`b, l`d, l`q, l`dq, l`ddq, parent`R, parent`w, parent`dv, parent`dw
  {
    && l.dv == Add(Add(parent.dv, Swung(parent.w, parent.dw, Arm(l, parent))), JointAdds(l, parent))
    && l.dw == Add(parent.dw, JointTurns(l, parent))
  }

  /** The acceleration that the traversal gives a link on the way down is that of a rigid body always at a moving
      joint, and at a fixed one exactly when the turning of the parent adds nothing at its origin. */
  lemma RigidAccelerationIff(l: Link, parent: Link)
    requires Carried(l, parent) && Accelerated(l, parent, parent)
    ensures RigidAcceleration(l, parent)
       <==> || l.jointType == ROTATIONAL_JOINT || l.jointType == SLIDE_JOINT
            || Swung(parent.w, parent.dw, Arm(l, parent)) == ZERO3
  {
    hide Mul, Cross, Scale, Swung;
  }

  /** Crossed upward, an edge gets the acceleration relation that it gets downward always at a slide or fixed
      joint, and at a rotational one exactly when child and parent swing the arm alike. */
  lemma EitherWayIff(l: Link, parent: Link)
    requires Carried(l, parent) && Accelerated(l, parent, l)
    ensures Accelerated(l, parent, parent)
       <==> l.jointType != ROTATIONAL_JOINT
            || Swung(l.w, l.dw, Arm(l, parent)) == Swung(parent.w, parent.dw, Arm(l, parent))
  {
    hide Mul, Cross, Scale, Swung;
    if l.jointType == ROTATIONAL_JOINT {
      SpinAlongAxis(parent.w, l.dq, l.sw);
    }
  }

  /** Turning about an axis does not turn the axis. */
  lemma SpinAlongAxis(w: Vec3, k: real, s: Vec3)
    ensures Cross(Add(w, Scale(k, s)), s) == Cross(w, s)
  {
    hide Cross, Scale;
    CrossTurns(Add(w, Scale(k, s)), s);
    CrossAdd(s, w, Scale(k, s));
    CrossScale(s, k, s);
    CrossSelf(s);
    CrossTurns(w, s);
    ScaleNothing(k);
  }

  lemma CrossSelf(s: Vec3)
    ensures Cross(s, s) == ZERO3
  {
    hide Product;
    ProductComm(s.x, s.y);
    ProductComm(s.y, s.z);
    ProductComm(s.z, s.x);
  }

  lemma ScaleNothing(k: real)
    ensures Scale(k, ZERO3) == ZERO3
  {
    hide Product;
    ProductUnits(k);
  }

  // ---- all links of a traversal ----

  /** The links visited, and the order as indices. */
  ghost predicate Traversed(links: seq<Link>, n: nat, all: seq<Link>, t: Shape, order: seq<int>)
    reads all`parent, all`child, all`sibling
  {
    && Wired(all, t) && Distinct(order) && UpThenDown(t, order, n)
    && AllLinks(all, order) && links == LinksAt(all, order)
  }

  /** The child and the parent on the edge crossed to reach the k-th link. */
  ghost function EdgeChild(order: seq<int>, n: nat, k: int): int
    requires 0 < k < |order|
  {
    if k <= n then order[k - 1] else order[k]
  }

  ghost predicate EdgeHolds(all: seq<Link>, t: Shape, order: seq<int>, n: nat, k: int, rodrigues: (Vec3, real) -> Mat3,
                            wanted: Wanted)
    requires 0 < k < |order| && t.Valid() && |all| == |t.parent| && 0 < EdgeChild(order, n, k) < |all|
    reads all
  {
    var c := EdgeChild(order, n, k);
    Follows(all[c], all[t.parent[c]], rodrigues, wanted, k <= n)
  }

  /** The edge crossed to reach the k-th link joins it to an earlier link. */
  lemma EdgeFits(links: seq<Link>, n: nat, all: seq<Link>, t: Shape, order: seq<int>, k: int)
    requires Traversed(links, n, all, t, order) && 0 < k < |order|
    ensures |all| == |t.parent| && t.Valid() && |links| == |order| && AllLinks(all, order)
    ensures var c := EdgeChild(order, n, k);
      && 0 < c < |all| && all[c].parent == all[t.parent[c]]
      && (k <= n ==> c == order[k - 1] && t.parent[c] == order[k])
      && (k > n ==> c == order[k] && exists j | 0 <= j < k :: t.parent[c] == order[j])
  {
    if k <= n {
      assert StepUp(t, order, k);
    } else {
      assert ParentEarlier(t, order, k);
      var j :| 0 <= j < k && order[..k][j] == t.parent[order[k]];
      assert order[j] == t.parent[order[k]];
    }
  }

  /** Edges crossed before the k-th do not touch the k-th link, nor, going up, the axis of the link before it. */
  lemma EarlierEdge(links: seq<Link>, n: nat, all: seq<Link>, t: Shape, order: seq<int>, j: int, k: int)
    requires Traversed(links, n, all, t, order) && 0 < j < k < |order|
    ensures |all| == |t.parent| && t.Valid() && |links| == |order|
    ensures var c := EdgeChild(order, n, j);
      && 0 < c < |all| && 0 <= t.parent[c] < |all|
      && all[c] != links[k] && all[t.parent[c]] != links[k]
      && (k <= n ==> all[c] != links[k - 1])
  {
    EdgeFits(links, n, all, t, order, j);
    var c := EdgeChild(order, n, j);
    assert c in order[..k] && t.parent[c] in order[..k] by {
      if j <= n {
        assert order[..k][j - 1] == c && order[..k][j] == t.parent[c];
      } else {
        assert order[..k][j] == c;
        var i :| 0 <= i < j && t.parent[c] == order[i];
        assert order[..k][i] == t.parent[c];
      }
    }
    assert order[k] !in order[..k];
    assert links[k] == all[order[k]] && links[k - 1] == all[order[k - 1]];
  }

  method CrossEdge(links: seq<Link>, n: nat, k: int, rodrigues: (Vec3, real) -> Mat3, wanted: Wanted,
                   ghost all: seq<Link>, ghost t: Shape, ghost order: seq<int>)
    requires Traversed(links, n, all, t, order) && 0 < k < |order| && |all| == |t.parent| && |links| == |order|
    requires forall l | l in links :: Orthogonal(rodrigues(l.a, l.q))
    requires forall j | 0 < j < k ::
               0 < EdgeChild(order, n, j) < |all| && EdgeHolds(all, t, order, n, j, rodrigues, wanted)
    modifies links`R, links`p, links`w, links`v, links`dw, links`dv, links`sw, links`sv
    ensures forall j | 0 < j <= k ::
              0 < EdgeChild(order, n, j) < |all| && EdgeHolds(all, t, order, n, j, rodrigues, wanted)
    ensures links[0].R == old(links[0].R) && links[0].p == old(links[0].p)
    ensures links[0].w == old(links[0].w) && links[0].v == old(links[0].v)
    ensures links[0].dw == old(links[0].dw) && links[0].dv == old(links[0].dv)
  {
    hide Traversed, Follows, Wired, Shape.Valid, Orthogonal;
    EdgeFits(links, n, all, t, order, k);
    forall j | 0 < j < k
      ensures var c := EdgeChild(order, n, j);
        && 0 < c < |all| && 0 <= t.parent[c] < |all|
        && all[c] != links[k] && all[t.parent[c]] != links[k] && (k <= n ==> all[c] != links[k - 1])
    {
      EarlierEdge(links, n, all, t, order, j, k);
    }
    LinksDiffer(links, n, all, t, order, k);
    var link := links[k];
    if k <= n {
      Upward(link, links[k - 1], rodrigues, wanted);
    } else {
      Downward(link, link.parent, rodrigues, wanted);
    }
  }

  lemma LinksDiffer(links: seq<Link>, n: nat, all: seq<Link>, t: Shape, order: seq<int>, k: int)
    requires Traversed(links, n, all, t, order) && 0 < k < |order|
    ensures |links| == |order| && links[k] != links[0] && links[k] != links[k - 1] && links[k] == all[order[k]]
    ensures links[k - 1] == all[order[k - 1]] && links[k].parent != links[k]
  {
    EdgeFits(links, n, all, t, order, k);
    WiresOf(all, t, order[k]);
  }

  /** The link that the upward steps end at comes before all others in the tree. */
  lemma {:induction false} TopIsLeast(t: Shape, order: seq<int>, n: nat, k: int)
    requires t.Valid() && UpThenDown(t, order, n) && 0 <= k < |order|
    ensures order[k] >= order[n]
    decreases if k <= n then n - k else k
  {
    if k < n {
      assert StepUp(t, order, k + 1);
      TopIsLeast(t, order, n, k + 1);
    } else if k > n {
      assert ParentEarlier(t, order, k);
      var j :| 0 <= j < k && order[..k][j] == t.parent[order[k]];
      if order[k] != 0 {
        if j <= n {
          ClimbsFrom(t, order, n, j);
        } else {
          TopIsLeast(t, order, n, j);
        }
      }
    }
  }

  lemma {:induction false} ClimbsFrom(t: Shape, order: seq<int>, n: nat, k: int)
    requires t.Valid() && UpThenDown(t, order, n) && 0 <= k <= n
    ensures order[k] >= order[n]
    decreases n - k
  {
    if k < n {
      assert StepUp(t, order, k + 1);
      ClimbsFrom(t, order, n, k + 1);
    }
  }

  /** Every tree edge between visited links is crossed. */
  lemma EdgesCover(links: seq<Link>, n: nat, all: seq<Link>, t: Shape, order: seq<int>, c: int) returns (k: int)
    requires Traversed(links, n, all, t, order) && c in order && c != 0 && |all| == |t.parent|
    requires 0 <= c < |all| && t.parent[c] in order
    ensures 0 < k < |order| && n < |order| && EdgeChild(order, n, k) == c && (k <= n <==> c in order[..n])
  {
    var i :| 0 <= i < |order| && order[i] == c;
    if i < n {
      k := i + 1;
      assert order[..n][i] == c;
    } else if i > n {
      k := i;
    } else {
      var j :| 0 <= j < |order| && order[j] == t.parent[c];
      TopIsLeast(t, order, n, j);
      k := 0;
      assert false;
    }
  }

  /** Every edge crossed holds. */
  ghost predicate Settled(all: seq<Link>, t: Shape, order: seq<int>, n: nat, i: int, rodrigues: (Vec3, real) -> Mat3,
                          wanted: Wanted)
    requires t.Valid() && |all| == |t.parent|
    reads all
  {
    forall j | 0 < j < i && j < |order| ::
      0 < EdgeChild(order, n, j) < |all| && EdgeHolds(all, t, order, n, j, rodrigues, wanted)
  }

  lemma TraversedSizes(links: seq<Link>, n: nat, all: seq<Link>, t: Shape, order: seq<int>)
    requires Traversed(links, n, all, t, order)
    ensures |links| == |order| && t.Valid() && n < |order|
  {}

  /** Afterwards every link follows from its parent, if both were visited, no matter which way the
      edge between them was crossed; and the base link is where it was. */
  method CalcForwardKinematics(links: seq<Link>, numUpwardConnections: nat, rodrigues: (Vec3, real) -> Mat3,
                               wanted: Wanted,
                               ghost all: seq<Link>, ghost t: Shape, ghost order: seq<int>)
    requires Traversed(links, numUpwardConnections, all, t, order) && |all| == |t.parent|
    requires forall l | l in links :: Orthogonal(rodrigues(l.a, l.q))
    modifies links`R, links`p, links`w, links`v, links`dw, links`dv, links`sw, links`sv
    ensures forall c | c in order && 0 < c < |all| && t.parent[c] in order ::
      && 0 <= t.parent[c] < |all|
      && Follows(all[c], all[t.parent[c]], rodrigues, wanted, c in order[..numUpwardConnections])
    ensures |links| > 0 && links[0].R == old(links[0].R) && links[0].p == old(links[0].p)
    ensures links[0].w == old(links[0].w) && links[0].v == old(links[0].v)
    ensures links[0].dw == old(links[0].dw) && links[0].dv == old(links[0].dv)
  {
    hide Traversed, Follows, Wired, Shape.Valid, Orthogonal, EdgeHolds;
    TraversedSizes(links, numUpwardConnections, all, t, order);
    var i := 1;
    while i <= numUpwardConnections
      invariant 1 <= i <= numUpwardConnections + 1
      invariant Settled(all, t, order, numUpwardConnections, i, rodrigues, wanted)
      invariant links[0].R == old(links[0].R) && links[0].p == old(links[0].p)
      invariant links[0].w == old(links[0].w) && links[0].v == old(links[0].v)
      invariant links[0].dw == old(links[0].dw) && links[0].dv == old(links[0].dv)
    {
      CrossEdge(links, numUpwardConnections, i, rodrigues, wanted, all, t, order);
      i := i + 1;
    }
    var n := |links|;
    while i < n
      invariant 1 <= i <= n && i > numUpwardConnections
      invariant Settled(all, t, order, numUpwardConnections, i, rodrigues, wanted)
      invariant links[0].R == old(links[0].R) && links[0].p == old(links[0].p)
      invariant links[0].w == old(links[0].w) && links[0].v == old(links[0].v)
      invariant links[0].dw == old(links[0].dw) && links[0].dv == old(links[0].dv)
    {
      CrossEdge(links, numUpwardConnections, i, rodrigues, wanted, all, t, order);
      i := i + 1;
    }
    forall c | c in order && 0 < c < |all| && t.parent[c] in order
      ensures 0 <= t.parent[c] < |all|
      ensures Follows(all[c], all[t.parent[c]], rodrigues, wanted, c in order[..numUpwardConnections])
    {
      var k := EdgesCover(links, numUpwardConnections, all, t, order, c);
      EdgeFits(links, numUpwardConnections, all, t, order, k);
      EdgeMeans(all, t, order, numUpwardConnections, k, rodrigues, wanted);
    }
  }

  lemma EdgeMeans(all: seq<Link>, t: Shape, order: seq<int>, n: nat, k: int, rodrigues: (Vec3, real) -> Mat3,
                  wanted: Wanted)
    requires 0 < k < |order| && t.Valid() && |all| == |t.parent| && 0 < EdgeChild(order, n, k) < |all|
    requires EdgeHolds(all, t, order, n, k, rodrigues, wanted)
    ensures var c := EdgeChild(order, n, k);
      0 <= t.parent[c] < |all| && Follows(all[c], all[t.parent[c]], rodrigues, wanted, k <= n)
  {}

  /** The edges crossed upward are those on the way from the base link to the root. */
  lemma UpwardEdges(t: Shape, order: seq<int>, n: nat, i: int)
    requires t.Valid() && t.IsLink(i) && UpThenDown(t, order, n) && n < |order| && order[0] == i && order[n] == 0
    ensures forall c | c > 0 :: c in order[..n] <==> OnPath(t, i, c)
  {
    forall c | c > 0 ensures c in order[..n] <==> OnPath(t, i, c) {
      if c in order[..n] {
        var k :| 0 <= k < n && order[k] == c;
        ClimbOnPath(t, order, n, k);
      }
      if OnPath(t, i, c) {
        PathClimbed(t, order, n, 0, c);
      }
    }
  }

  lemma {:induction false} ClimbOnPath(t: Shape, order: seq<int>, n: nat, k: nat)
    requires t.Valid() && UpThenDown(t, order, n) && k <= n < |order| && t.IsLink(order[0])
    ensures t.IsLink(order[k]) && OnPath(t, order[0], order[k])
  {
    if k > 0 {
      ClimbOnPath(t, order, n, k - 1);
      assert StepUp(t, order, k);
      PathGoesUp(t, order[0], order[k - 1]);
    }
  }

  lemma {:induction false} PathGoesUp(t: Shape, i: int, c: int)
    requires t.Valid() && t.IsLink(i) && 0 < c && OnPath(t, i, c)
    ensures t.IsLink(c) && OnPath(t, i, t.parent[c])
    decreases i
  {
    if i != c {
      PathGoesUp(t, t.parent[i], c);
    }
  }

  lemma {:induction false} PathClimbed(t: Shape, order: seq<int>, n: nat, k: nat, c: int)
    requires t.Valid() && UpThenDown(t, order, n) && k <= n < |order| && t.IsLink(order[k]) && order[n] == 0
    requires c > 0 && OnPath(t, order[k], c)
    ensures c in order[..n]
    decreases n - k
  {
    if k == n {
      PathDescends(t, 0, c);
      assert false;
    } else if order[k] == c {
      assert order[..n][k] == c;
    } else {
      assert StepUp(t, order, k + 1);
      PathClimbed(t, order, n, k + 1, c);
    }
  }

  /** The traversal of a tree from any base link, and the kinematics over it. Going both up and down,
      every link of the tree but the root follows from its parent. */
  method CalcWholeTree(traverse: LinkTraverse, base: Link, rodrigues: (Vec3, real) -> Mat3, wanted: Wanted,
                       ghost all: seq<Link>, ghost t: Shape, ghost i: int)
    requires Wired(all, t) && t.IsLink(i) && base == all[i]
    requires forall l | l in all :: Orthogonal(rodrigues(l.a, l.q))
    modifies traverse, all`R, all`p, all`w, all`v, all`dw, all`dv, all`sw, all`sv
    ensures forall c | 0 < c < |all| ::
              0 <= t.parent[c] < |all| && Follows(all[c], all[t.parent[c]], rodrigues, wanted, OnPath(t, i, c))
    ensures base.R == old(base.R) && base.p == old(base.p) && base.w == old(base.w) && base.v == old(base.v)
    ensures base.dw == old(base.dw) && base.dv == old(base.dv)
  {
    hide Follows, Orthogonal, Shape.Valid, Order, AllLinks, LinksAt, OnPath;
    traverse.Find(base, true, true, all, t, i);
    ghost var order, n := Order(t, i, true, true, -1), Depth(t, i);
    WholeTreeTraversed(traverse.links, all, t, i);
    CalcForwardKinematics(traverse.links, traverse.numUpwardConnections, rodrigues, wanted, all, t, order);
    forall c | 0 < c < |all|
      ensures 0 <= t.parent[c] < |all| && Follows(all[c], all[t.parent[c]], rodrigues, wanted, OnPath(t, i, c))
    {
      assert c in order && t.parent[c] in order;
    }
  }

  /** The traversal of a whole tree visits every link, and goes upward over the edges of the base's root path. */
  lemma WholeTreeTraversed(links: seq<Link>, all: seq<Link>, t: Shape, i: int)
    requires Wired(all, t) && t.IsLink(i) && AllLinks(all, Order(t, i, true, true, -1))
    requires links == LinksAt(all, Order(t, i, true, true, -1))
    ensures |all| == |t.parent| && |links| > 0 && links[0] == all[i] && forall l | l in links :: l in all
    ensures var order := Order(t, i, true, true, -1);
      && Traversed(links, Depth(t, i), all, t, order) && Depth(t, i) < |order|
      && (forall c | 0 <= c < |all| :: c in order)
      && (forall c | 0 < c < |all| :: 0 <= t.parent[c] < |all|)
      && (forall c | 0 < c < |all| :: c in order[..Depth(t, i)] <==> OnPath(t, i, c))
  {
    var order := Order(t, i, true, true, -1);
    OrderVisits(t, i, true, true, -1);
    OrderClimbs(t, i, true, true, -1);
    StartsAtBase(t, i, all);
    hide Order, OnPath, Wired;
    forall c | 0 <= c < |all| ensures c in order {
      assert Visits(t, i, true, true, -1, c);
    }
    DepthDrops(t, order, Depth(t, i), Depth(t, i));
    UpwardEdges(t, order, Depth(t, i), i);
  }

  lemma {:induction false} DepthDrops(t: Shape, order: seq<int>, n: nat, k: nat)
    requires t.Valid() && UpThenDown(t, order, n) && k <= n < |order| && t.IsLink(order[0]) && n == Depth(t, order[0])
    ensures t.IsLink(order[k]) && Depth(t, order[k]) == n - k && (k == n ==> order[k] == 0)
  {
    if k > 0 {
      DepthDrops(t, order, n, k - 1);
      assert StepUp(t, order, k);
    }
  }

  lemma StartsAtBase(t: Shape, i: int, all: seq<Link>)
    requires t.Valid() && t.IsLink(i) && |all| == |t.parent| && AllLinks(all, Order(t, i, true, true, -1))
    ensures Order(t, i, true, true, -1)[0] == i && LinksAt(all, Order(t, i, true, true, -1))[0] == all[i]
    ensures forall l | l in LinksAt(all, Order(t, i, true, true, -1)) :: l in all
    ensures forall c | 0 < c < |all| :: 0 <= t.parent[c] < |all|
  {}
}
