/** What forces that solve the contact problem achieve by the end of the time step: contacts bounce and recover from
    penetration, connections close, and sliding stops or is resisted. */
module AfterStep {
  import opened LinearAlgebra
  import opened Roots
  import opened Sums
  import opened GaussSeidel
  import opened McpSolution
  import opened ContactIndices

  /** The velocity along the direction of row k at the end of a step that it starts with v: the accelerations without
      contact forces and those of the forces x act for the whole of the step. */
  function VelocityAfter(p: Problem, x: seq<real>, an: seq<real>, dtinv: real, v: real, k: nat): real
    requires p.Fits(x) && |an| == |x| && k < |x| && dtinv != 0.0
  {
    v + (SeqDot(p.M[k], x) + an[k]) / dtinv
  }

  /** A row whose constant asks for the velocity -more leaves that velocity and the share of its residual. */
  lemma RowAfter(p: Problem, x: seq<real>, an: seq<real>, dtinv: real, v: real, more: real, k: nat)
    requires p.Fits(x) && |an| == |x| && k < |x| && dtinv != 0.0 && p.b[k] == an[k] + Product(v + more, dtinv)
    ensures VelocityAfter(p, x, an, dtinv, v, k) == Residual(p, x, k) / dtinv - more
  {
    hide SeqDot;
    Over(SeqDot(p.M[k], x) + an[k], v + more, dtinv);
  }

  lemma Over(a: real, b: real, d: real)
    requires d != 0.0
    ensures (a + Product(b, d)) / d == a / d + b
  {
    assert (a + b * d) / d == a / d + (b * d) / d;
  }

  lemma OverSign(a: real, d: real)
    requires d > 0.0
    ensures (a >= 0.0 ==> a / d >= 0.0) && (a == 0.0 ==> a / d == 0.0)
  {}

  /** Contact k of owner restitution e: its points do not go on approaching faster than they are to, and where they
      push they part at exactly the speed that restitution and recovery from penetration ask for. */
  ghost predicate Bounces(p: Problem, x: seq<real>, an: seq<real>, dtinv: real, c: ConstraintPoint, e: real,
                          allowedDepth: real, ratio: real, k: nat)
    requires p.Fits(x) && |an| == |x| && k < |p.mu| && dtinv != 0.0
  {
    var v := c.normalProjectionOfRelVelocityOn0;
    var target := -e * v - ratio * (allowedDepth - c.depth);
    var after := VelocityAfter(p, x, an, dtinv, v, k);
    after >= target && (x[k] > 0.0 ==> after == target)
  }

  lemma SolvedBounces(p: Problem, x: seq<real>, an: seq<real>, step: Step, c: ConstraintPoint, e: real, k: nat)
    requires p.Fits(x) && |an| == |x| && k < |p.mu| && step.dtinv > 0.0 && NormalSolved(p, x, k)
    requires p.b[k] == ContactConstant(c, e, an[k], step)
    ensures Bounces(p, x, an, step.dtinv, c, e, step.allowedPenetrationDepth,
                    step.negativeVelocityRatioForPenetration, k)
  {
    hide SeqDot, Residual, VelocityAfter;
    var v, allowed := c.normalProjectionOfRelVelocityOn0, step.allowedPenetrationDepth;
    var more := e * v + step.negativeVelocityRatioForPenetration * (allowed - c.depth);
    OneMoreTime(e, v);
    RowAfter(p, x, an, step.dtinv, v, more, k);
    OverSign(Residual(p, x, k), step.dtinv);
    assert -e * v == -(e * v);
  }

  lemma OneMoreTime(e: real, v: real)
    ensures Product(1.0 + e, v) == v + e * v
  {}

  /** What the connection is to do with an offset along its axis: less of it, at a speed below a tenth, and nothing
      where there is none. */
  ghost predicate Closes(depth: real, after: real) {
    && (depth > 0.0 ==> 0.0 < after < 0.1)
    && (depth < 0.0 ==> -0.1 < after < 0.0)
    && (depth == 0.0 ==> after == 0.0)
  }

  /** What is used of the exponential function. */
  ghost predicate IsExp(exp: real -> real) {
    exp(0.0) == 1.0 && forall y :: y < 0.0 ==> 0.0 < exp(y) < 1.0
  }

  lemma SolvedCloses(p: Problem, x: seq<real>, an: seq<real>, step: Step, c: ConstraintPoint, k: nat)
    requires p.Fits(x) && |an| == |x| && k < |x| && step.dtinv > 0.0 && ConnectionSolved(p, x, k) && IsExp(step.exp)
    requires p.b[k] == ConnectionConstant(c, an[k], step)
    ensures Closes(c.depth, VelocityAfter(p, x, an, step.dtinv, c.normalProjectionOfRelVelocityOn0, k))
  {
    hide SeqDot, Residual, VelocityAfter, Product;
    var d := c.depth;
    var more := if d >= 0.0 then 0.1 * (-1.0 + step.exp(-d * 20.0)) else 0.1 * (1.0 - step.exp(d * 20.0));
    RowAfter(p, x, an, step.dtinv, c.normalProjectionOfRelVelocityOn0, more, k);
    OverSign(0.0, step.dtinv);
    assert d > 0.0 ==> -d * 20.0 < 0.0;
    assert d == 0.0 ==> -d * 20.0 == 0.0;
  }

  /** Contact k at the end of the step: it does not slide, or has no friction, or its friction is as large as the cone
      allows and, each component weighed by its own diagonal entry, against the sliding. */
  ghost predicate Resists(p: Problem, x: seq<real>, an: seq<real>, dtinv: real, c: ConstraintPoint, k: nat)
    requires p.Fits(x) && |an| == |x| && k < |p.mu| && dtinv != 0.0
  {
    var i, fmax := p.n + 2 * k, Limit(p, x, k);
    var u0 := VelocityAfter(p, x, an, dtinv, Dot(c.FrictionVector(0), c.relVelocityOn0), i);
    var u1 := VelocityAfter(p, x, an, dtinv, Dot(c.FrictionVector(1), c.relVelocityOn0), i + 1);
    && InCone(p, x, k)
    && ((u0 == 0.0 && u1 == 0.0) || fmax == 0.0
        || (Product(x[i], x[i]) + Product(x[i + 1], x[i + 1]) == Product(fmax, fmax)
            && exists w: real :: w > 0.0 && Against(p, x, i, u0, w) && Against(p, x, i + 1, u1, w)))
  }

  ghost predicate Against(p: Problem, x: seq<real>, i: nat, u: real, w: real)
    requires p.Fits(x) && i < |x|
  {
    u == -Product(w, Product(p.M[i][i], x[i]))
  }

  lemma SolvedResists(p: Problem, x: seq<real>, an: seq<real>, step: Step, c: ConstraintPoint, k: nat)
    requires p.Fits(x) && |an| == |x| && k < |p.mu| && step.dtinv > 0.0 && FrictionSolved(p, x, k)
    requires c.globalIndex == k && step.n == p.n && FrictionSet(c, 0, p.b, an, step) && FrictionSet(c, 1, p.b, an, step)
    ensures Resists(p, x, an, step.dtinv, c, k)
  {
    hide SeqDot, Residual, VelocityAfter, Product, Dot, InCone, Limit;
    var i := p.n + 2 * k;
    var v0, v1 := Dot(c.FrictionVector(0), c.relVelocityOn0), Dot(c.FrictionVector(1), c.relVelocityOn0);
    RowAfter(p, x, an, step.dtinv, v0, 0.0, i);
    RowAfter(p, x, an, step.dtinv, v1, 0.0, i + 1);
    OverSign(0.0, step.dtinv);
    if w :| Slides(p, x, k, w) {
      ShareOfStep(w, Product(p.M[i][i], x[i]), step.dtinv);
      ShareOfStep(w, Product(p.M[i + 1][i + 1], x[i + 1]), step.dtinv);
      assert Against(p, x, i, VelocityAfter(p, x, an, step.dtinv, v0, i), w / step.dtinv);
      assert Against(p, x, i + 1, VelocityAfter(p, x, an, step.dtinv, v1, i + 1), w / step.dtinv);
    }
  }

  lemma ShareOfStep(w: real, a: real, d: real)
    requires w > 0.0 && d > 0.0
    ensures w / d > 0.0 && -Product(w, a) / d == -Product(w / d, a)
  {
    assert (w / d) * d == w;
    assert ((w / d) * a) * d == w * a;
  }

  /** The rows of the points by their place: contacts first, each with its friction rows, then connections. */
  ghost predicate InOrder(points: seq<ConstraintPoint>, owners: seq<LinkPair>, contacts: nat)
    reads owners`connected
  {
    && |owners| == |points| && NumberedPoints(points, contacts)
    && forall k | 0 <= k < |owners| :: owners[k].connected <==> contacts <= k
  }

  /** What a step with the forces x does at all contacts and connections. */
  ghost predicate Achieves(p: Problem, x: seq<real>, an: seq<real>, dtinv: real, points: seq<ConstraintPoint>,
                           owners: seq<LinkPair>, allowedDepth: real, ratio: real)
    requires p.Fits(x) && |an| == |x| && |points| == |owners| == p.n && dtinv != 0.0
    reads owners`restitution
  {
    && (forall k | 0 <= k < |p.mu| ::
          && Bounces(p, x, an, dtinv, points[k], owners[k].restitution, allowedDepth, ratio, k)
          && Resists(p, x, an, dtinv, points[k], k))
    && (forall k | |p.mu| <= k < p.n ::
          Closes(points[k].depth, VelocityAfter(p, x, an, dtinv, points[k].normalProjectionOfRelVelocityOn0, k)))
  }

  lemma SolvedAchieves(p: Problem, x: seq<real>, an: seq<real>, step: Step, points: seq<ConstraintPoint>,
                       owners: seq<LinkPair>)
    requires p.Fits(x) && |an| == |x| && |points| == |owners| == p.n == step.n && step.dtinv > 0.0 && IsExp(step.exp)
    requires InOrder(points, owners, |p.mu|) && ConstantsUpTo(points, owners, p.b, an, step, p.n) && Solved(p, x)
    ensures Achieves(p, x, an, step.dtinv, points, owners, step.allowedPenetrationDepth,
                     step.negativeVelocityRatioForPenetration)
  {
    hide Bounces, Resists, Closes, VelocityAfter, NormalSolved, ConnectionSolved, FrictionSolved, FrictionSet,
      ContactConstant, ConnectionConstant, IsExp;
    forall k | 0 <= k < |p.mu|
      ensures Bounces(p, x, an, step.dtinv, points[k], owners[k].restitution, step.allowedPenetrationDepth,
                      step.negativeVelocityRatioForPenetration, k)
      ensures Resists(p, x, an, step.dtinv, points[k], k)
    {
      assert NumberedPoint(points, |p.mu|, k);
      assert ConstantsOf(points[k], owners[k].connected, owners[k].restitution, p.b, an, step);
      SolvedBounces(p, x, an, step, points[k], owners[k].restitution, k);
      SolvedResists(p, x, an, step, points[k], k);
    }
    forall k | |p.mu| <= k < p.n
      ensures Closes(points[k].depth,
                     VelocityAfter(p, x, an, step.dtinv, points[k].normalProjectionOfRelVelocityOn0, k))
    {
      assert NumberedPoint(points, |p.mu|, k);
      assert ConstantsOf(points[k], owners[k].connected, owners[k].restitution, p.b, an, step);
      SolvedCloses(p, x, an, step, points[k], k);
    }
  }
}
