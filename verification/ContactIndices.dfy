/** Where each contact and each connection finds its rows in the contact problem: contact i is row i
    and owns friction rows 2i and 2i + 1, whatever points the culling of dense contacts removes. */
module ContactIndices {
  import opened LinearAlgebra
  import opened Links
  import opened Counting
  import opened Roots
  import opened FrictionVectors

  /** VEL_THRESH_OF_DYNAMIC_FRICTION, squared */
  const SLIP_THRESHOLD: real := 0.00000001

  /** A reported contact: where, with what normal, and how deep. */
  datatype CollisionPoint = CollisionPoint(position: Vec3, normal: Vec3, idepth: real)

  /** A constraint point. The normal and the friction vectors are those that its second link sees. */
  datatype ConstraintPoint = ConstraintPoint(
    point: Vec3, normal: Vec3, depth: real, mu: real, relVelocityOn0: Vec3, normalProjectionOfRelVelocityOn0: real,
    friction0: Vec3, friction1: Vec3, globalIndex: int, globalFrictionIndex: int, numFrictionVectors: nat) {

    function FrictionVector(l: int): Vec3 { if l == 0 then friction0 else friction1 }
  }

  /** The velocity of the point of a body that is at p, from the spatial velocity of the body. */
  function PointVelocity(vel: Spatial, p: Vec3): Vec3 { Add(vel.v, Cross(vel.w, p)) }

  /** The track of a crawler: the world axis of its wheels, and its speed. */
  datatype Track = NoTrack | Track(axis: Vec3, speed: real)

  /** What the track adds to the velocity of a point, along the ground and across its axis. */
  function OnTrack(v: Vec3, track: Track, normal: Vec3, side: real, sqrt: real -> real): Vec3 {
    if track.NoTrack? then v
    else Add(v, Scale(track.speed, Normalized(Scale(side, Cross(track.axis, normal)), sqrt)))
  }

  /** What a contact takes from the pair of links that it is between: the ends, the coefficients of friction,
      the spatial velocities and the tracks of the links (none for a fixed root), the depth that is allowed,
      and the square root. */
  datatype Surroundings = Surroundings(end0: End, end1: End, muStatic: real, muDynamic: real,
                                       velocityOf: End -> Spatial, trackOf: End -> Track,
                                       allowedPenetrationDepth: real, sqrt: real -> real) {

    /** How fast the surface of end1 moves at p, seen from that of end0. */
    function RelVelocity(p: Vec3, normal: Vec3): Vec3 {
      Sub(OnTrack(PointVelocity(velocityOf(end1), p), trackOf(end1), normal, -1.0, sqrt),
          OnTrack(PointVelocity(velocityOf(end0), p), trackOf(end0), normal, 1.0, sqrt))
    }

    /** Under a crawler no depth counts beyond twice the allowed one. */
    function DepthOf(depth: real): real {
      if (trackOf(end0).Track? || trackOf(end1).Track?) && depth > allowedPenetrationDepth * 2.0
      then allowedPenetrationDepth * 2.0 else depth
    }
  }

  /** The part of a velocity across a normal. */
  function Tangent(v: Vec3, normal: Vec3): Vec3 { Sub(v, Scale(Dot(normal, v), normal)) }

  /** The contact that is made of a reported one, with rows g and f, f + 1. */
  function ContactOf(at: Surroundings, c: CollisionPoint, g: int, f: int): ConstraintPoint {
    var v := at.RelVelocity(c.position, c.normal);
    var slip := Tangent(v, c.normal);
    var t := FrictionPair(Neg(c.normal), at.sqrt);
    ConstraintPoint(c.position, c.normal, at.DepthOf(c.idepth),
                    if Dot(slip, slip) > SLIP_THRESHOLD then at.muDynamic else at.muStatic,
                    v, Dot(c.normal, v), Neg(t.0), Neg(t.1), g, f, 2)
  }

  /** What a contact has to do with its normal, where that has length one: its velocity is the approach along the
      normal and the slip across it, the slip decides about the friction, and friction acts across the normal, along two
      directions of length one that are across each other. */
  lemma ContactFaces(at: Surroundings, c: CollisionPoint, g: int, f: int)
    requires IsSqrt(at.sqrt) && Dot(c.normal, c.normal) == 1.0
    ensures var k := ContactOf(at, c, g, f);
      && k.point == c.position && k.normal == c.normal && k.relVelocityOn0 == at.RelVelocity(c.position, c.normal)
      && exists slip: Vec3 ::
           && Across(k.normal, slip)
           && k.relVelocityOn0 == Add(Scale(k.normalProjectionOfRelVelocityOn0, k.normal), slip)
           && k.mu == if Dot(slip, slip) > SLIP_THRESHOLD then at.muDynamic else at.muStatic
    ensures var k := ContactOf(at, c, g, f); Frame(k.normal, k.FrictionVector(0), k.FrictionVector(1))
  {
    hide Dot, Cross, Scale, OnTrack, PointVelocity;
    var v := at.RelVelocity(c.position, c.normal);
    var slip := Tangent(v, c.normal);
    DotSub(c.normal, v, Scale(Dot(c.normal, v), c.normal));
    DotScale(c.normal, Dot(c.normal, v), c.normal);
    ProductUnits(Dot(c.normal, v));
    assert Across(c.normal, slip);
    DotZero(ZERO3);
    FrictionPairFrames(Neg(c.normal), at.sqrt);
    var t := FrictionPair(Neg(c.normal), at.sqrt);
    NegDots(c.normal, t.0, t.1);
  }

  ghost predicate Across(n: Vec3, a: Vec3) { Dot(n, a) == 0.0 }

  lemma NegDots(n: Vec3, a: Vec3, b: Vec3)
    ensures Frame(Neg(n), a, b) ==> Frame(n, Neg(a), Neg(b))
  {
    hide Dot;
    NegDot(n, a);
    NegDot(n, b);
    DotNeg(n, a);
    DotNeg(n, b);
    NegDot(a, Neg(a));
    DotNeg(a, a);
    NegDot(b, Neg(b));
    DotNeg(b, b);
    NegDot(a, Neg(b));
    DotNeg(a, b);
  }

  /** Where nothing is a crawler, the velocity of a contact is that of the point of the one link less that of the point
      of the other, and links that move alike do not move against each other. */
  lemma ContactMoves(at: Surroundings, p: Vec3, normal: Vec3)
    requires at.trackOf(at.end0).NoTrack? && at.trackOf(at.end1).NoTrack?
    ensures at.RelVelocity(p, normal)
         == Sub(PointVelocity(at.velocityOf(at.end1), p), PointVelocity(at.velocityOf(at.end0), p))
    ensures at.velocityOf(at.end0) == at.velocityOf(at.end1) ==> at.RelVelocity(p, normal) == ZERO3
  {
    hide PointVelocity;
  }

  /** Each contact is made of a reported one. */
  ghost predicate AllMade(kept: seq<ConstraintPoint>, at: Surroundings, reported: seq<CollisionPoint>) {
    forall i | 0 <= i < |kept| :: Made(kept[i], at, reported)
  }

  ghost predicate Made(k: ConstraintPoint, at: Surroundings, reported: seq<CollisionPoint>) {
    exists j | 0 <= j < |reported| :: k == ContactOf(at, reported[j], k.globalIndex, k.globalFrictionIndex)
  }

  /** The speed of approach above which a contact is an impact. */
  const IMPACT_SPEED: real := 0.000001

  predicate Impact(c: ConstraintPoint) { c.normalProjectionOfRelVelocityOn0 < -IMPACT_SPEED }

  predicate AnyImpact(points: seq<ConstraintPoint>) { exists i | 0 <= i < |points| :: Impact(points[i]) }

  /** Where the two ends of a connection hold, and along which axes, in the world frame. */
  datatype Pose = Pose(point0: Vec3, point1: Vec3, axes: seq<Vec3>) {
    function MidPoint(): Vec3 { Scale(0.5, Add(point0, point1)) }
    function Error(): Vec3 { Sub(MidPoint(), point0) }

    /** Too far apart to be held together. */
    predicate Apart() { Dot(Error(), Error()) > 0.0016 }
  }

  class LinkPair {
    const end0: End
    const end1: End
    var connected: bool
    var culling_thresh: real
    var muStatic: real
    var muDynamic: real
    var restitution: real
    var constraintPoints: seq<ConstraintPoint>

    constructor (end0: End, end1: End) {
      this.end0, this.end1 := end0, end1;
      connected, culling_thresh, muStatic, muDynamic, restitution := false, 0.0, 0.0, 0.0, 0.0;
      constraintPoints := [];
    }
  }

  /** Closer than the culling threshold, which only counts when positive. */
  predicate Near(a: Vec3, b: Vec3, thresh: real) {
    thresh > 0.0 && Dot(Sub(a, b), Sub(a, b)) < Product(thresh, thresh)
  }

  predicate Crowded(kept: seq<ConstraintPoint>, position: Vec3, thresh: real) {
    exists k | 0 <= k < |kept| :: Near(kept[k].point, position, thresh)
  }

  predicate Kept(kept: seq<ConstraintPoint>, position: Vec3) {
    exists i | 0 <= i < |kept| :: kept[i].point == position
  }

  predicate Reported(reported: seq<CollisionPoint>, position: Vec3) {
    exists j | 0 <= j < |reported| :: reported[j].position == position
  }

  /** Kept points are pairwise apart. */
  ghost predicate Apart(kept: seq<ConstraintPoint>, thresh: real) {
    forall i, j | 0 <= i < j < |kept| :: !Near(kept[i].point, kept[j].point, thresh)
  }

  ghost predicate AllReported(kept: seq<ConstraintPoint>, reported: seq<CollisionPoint>) {
    forall i | 0 <= i < |kept| :: Reported(reported, kept[i].point)
  }

  /** Each reported point is kept or near a kept one. */
  ghost predicate Covered(kept: seq<ConstraintPoint>, reported: seq<CollisionPoint>, thresh: real) {
    forall j | 0 <= j < |reported| :: Kept(kept, reported[j].position) || Crowded(kept, reported[j].position, thresh)
  }

  /** What culling leaves of a collision report. */
  ghost predicate Thinned(kept: seq<ConstraintPoint>, reported: seq<CollisionPoint>, thresh: real) {
    Apart(kept, thresh) && AllReported(kept, reported) && Covered(kept, reported, thresh)
  }

  ghost predicate OneMore(kept: seq<ConstraintPoint>, more: seq<ConstraintPoint>, position: Vec3) {
    |more| == |kept| + 1 && more[..|kept|] == kept && more[|kept|].point == position
  }

  /** Point i of the list holds rows c + i and, for a contact, friction rows from f + 2i. */
  ghost predicate ContactRows(points: seq<ConstraintPoint>, c: int, f: int) {
    forall i | 0 <= i < |points| ::
      && points[i].globalIndex == c + i
      && points[i].globalFrictionIndex == f + 2 * i
      && points[i].numFrictionVectors == 2
  }

  /** Points for the axes of a connection. */
  ghost predicate AxisPoints(points: seq<ConstraintPoint>) {
    points != [] && forall i | 0 <= i < |points| :: points[i].numFrictionVectors == 0
  }

  /** Point i holds the ends of a connection together along axis i. */
  ghost predicate OnAxes(points: seq<ConstraintPoint>, pose: Pose, velocity: Vec3) {
    && |points| == |pose.axes|
    && forall i | 0 <= i < |points| ::
         && points[i].point == pose.MidPoint() && points[i].normal == Neg(pose.axes[i])
         && points[i].depth == Dot(pose.axes[i], pose.Error())
         && points[i].normalProjectionOfRelVelocityOn0 == Dot(points[i].normal, velocity)
  }

  /** Twice the depth of a point is how far the second end of the connection is ahead of the first along its axis, and
      its velocity is how fast that gets less. */
  lemma AxisOffset(points: seq<ConstraintPoint>, pose: Pose, velocity: Vec3, i: nat)
    requires OnAxes(points, pose, velocity) && i < |points|
    ensures 2.0 * points[i].depth == Dot(pose.axes[i], Sub(pose.point1, pose.point0))
    ensures points[i].normalProjectionOfRelVelocityOn0 == -Dot(pose.axes[i], velocity)
  {
    hide Dot, Product;
    var d := Sub(pose.point1, pose.point0);
    HalfApart(pose);
    DotScale(pose.axes[i], 0.5, d);
    HalfProduct(Dot(pose.axes[i], d));
    NegDot(pose.axes[i], velocity);
  }

  lemma HalfApart(pose: Pose)
    ensures pose.Error() == Scale(0.5, Sub(pose.point1, pose.point0))
  {}

  lemma HalfProduct(a: real)
    ensures 2.0 * Product(0.5, a) == a
  {}

  ghost predicate ConnectionRows(points: seq<ConstraintPoint>, c: int) {
    forall i | 0 <= i < |points| :: points[i].globalIndex == c + i && points[i].numFrictionVectors == 0
  }

  ghost function AllPoints(pairs: seq<LinkPair>): (r: seq<ConstraintPoint>)
    reads pairs`constraintPoints
  {
    if pairs == [] then [] else AllPoints(pairs[..|pairs| - 1]) + pairs[|pairs| - 1].constraintPoints
  }

  lemma AllPointsAppend(pairs: seq<LinkPair>, p: LinkPair)
    ensures AllPoints(pairs + [p]) == AllPoints(pairs) + p.constraintPoints
  {
    assert (pairs + [p])[..|pairs|] == pairs;
  }

  lemma {:induction false} AllPointsPrefix(pairs: seq<LinkPair>, i: nat)
    requires i <= |pairs|
    ensures |AllPoints(pairs[..i])| <= |AllPoints(pairs)|
    ensures AllPoints(pairs)[..|AllPoints(pairs[..i])|] == AllPoints(pairs[..i])
  {
    if i == |pairs| {
      assert pairs[..i] == pairs;
    } else {
      var front := pairs[..|pairs| - 1];
      AllPointsPrefix(front, i);
      assert front[..i] == pairs[..i];
    }
  }

  function Lesser(a: int, b: int): (r: int)
    ensures r <= a && r <= b && (r == a || r == b)
  {
    if a < b then a else b
  }

  /** What the constants of all rows take from the step: the number of normal and connection rows, the inverse of
      the time step, the settings against penetration, and the exponential function. */
  datatype Step = Step(n: nat, dtinv: real, allowedPenetrationDepth: real, negativeVelocityRatioForPenetration: real,
                       exp: real -> real)

  /** A contact is to reverse its approach, scaled by the restitution, and to recover from penetration. */
  function ContactConstant(c: ConstraintPoint, restitution: real, a: real, step: Step): real {
    var recovery := Product(step.negativeVelocityRatioForPenetration, step.allowedPenetrationDepth - c.depth);
    a + Product(Product(1.0 + restitution, c.normalProjectionOfRelVelocityOn0) + recovery, step.dtinv)
  }

  /** A connection is to stop its ends from moving apart, and to bring them together at a bounded speed. */
  function ConnectionConstant(c: ConstraintPoint, a: real, step: Step): real {
    var recovery := if c.depth >= 0.0 then 0.1 * (-1.0 + step.exp(-c.depth * 20.0))
                    else 0.1 * (1.0 - step.exp(c.depth * 20.0));
    a + Product(c.normalProjectionOfRelVelocityOn0 + recovery, step.dtinv)
  }

  /** Friction is to stop the sliding along its direction. */
  function FrictionConstant(c: ConstraintPoint, l: int, a: real, step: Step): real {
    a + Product(Dot(c.FrictionVector(l), c.relVelocityOn0), step.dtinv)
  }

  /** The rows of a point: its own, and for a contact its two friction rows. */
  predicate RowsOf(c: ConstraintPoint, connected: bool, n: nat, k: int) {
    k == c.globalIndex || (!connected && n + 2 * c.globalIndex <= k < n + 2 * c.globalIndex + 2)
  }

  /** The constants of the rows of a point. */
  ghost predicate ConstantsOf(c: ConstraintPoint, connected: bool, restitution: real, b: seq<real>, an: seq<real>,
                              step: Step)
  {
    && 0 <= c.globalIndex < |b| == |an|
    && (if connected then b[c.globalIndex] == ConnectionConstant(c, an[c.globalIndex], step)
        else
          && b[c.globalIndex] == ContactConstant(c, restitution, an[c.globalIndex], step)
          && step.n + 2 * c.globalIndex + 2 <= |b|
          && forall l | 0 <= l < 2 :: FrictionSet(c, l, b, an, step))
  }

  ghost predicate FrictionSet(c: ConstraintPoint, l: nat, b: seq<real>, an: seq<real>, step: Step) {
    var k := step.n + 2 * c.globalIndex + l;
    0 <= k < |b| == |an| && b[k] == FrictionConstant(c, l, an[k], step)
  }

  /** The pair of each point, in the order of all points. */
  ghost function Owners(pairs: seq<LinkPair>): (r: seq<LinkPair>)
    reads pairs`constraintPoints
  {
    if pairs == [] then []
    else
      var last := pairs[|pairs| - 1];
      Owners(pairs[..|pairs| - 1]) + seq(|last.constraintPoints|, k => last)
  }

  lemma {:induction false} OwnersMatch(pairs: seq<LinkPair>)
    ensures |Owners(pairs)| == |AllPoints(pairs)|
  {
    if pairs != [] {
      OwnersMatch(pairs[..|pairs| - 1]);
    }
  }

  lemma {:induction false} OwnersAmong(pairs: seq<LinkPair>)
    ensures forall p | p in Owners(pairs) :: p in pairs
  {
    if pairs != [] {
      OwnersAmong(pairs[..|pairs| - 1]);
    }
  }

  /** Where contact pairs come first, so do the points that they own. */
  lemma {:induction false} OwnersInOrder(pairs: seq<LinkPair>, contactPairs: nat)
    requires contactPairs <= |pairs| && forall k | 0 <= k < |pairs| :: pairs[k].connected <==> contactPairs <= k
    ensures forall k | 0 <= k < |Owners(pairs)| ::
              Owners(pairs)[k].connected <==> |AllPoints(pairs[..contactPairs])| <= k
  {
    if pairs != [] {
      var front := pairs[..|pairs| - 1];
      if contactPairs < |pairs| {
        OwnersInOrder(front, contactPairs);
        assert front[..contactPairs] == pairs[..contactPairs];
        AllPointsPrefix(front, contactPairs);
        OwnersMatch(front);
      } else {
        OwnersInOrder(front, |front|);
        assert front[..|front|] == front && pairs[..contactPairs] == pairs;
        OwnersMatch(front);
        OwnersMatch(pairs);
      }
    }
  }

  lemma OwnersAppend(pairs: seq<LinkPair>, p: LinkPair)
    ensures Owners(pairs + [p]) == Owners(pairs) + seq(|p.constraintPoints|, k => p)
  {
    assert (pairs + [p])[..|pairs|] == pairs;
  }

  lemma {:induction false} OwnersPrefix(pairs: seq<LinkPair>, i: nat)
    requires i <= |pairs|
    ensures |Owners(pairs[..i])| <= |Owners(pairs)|
    ensures Owners(pairs)[..|Owners(pairs[..i])|] == Owners(pairs[..i])
  {
    if i == |pairs| {
      assert pairs[..i] == pairs;
    } else {
      var front := pairs[..|pairs| - 1];
      OwnersPrefix(front, i);
      assert front[..i] == pairs[..i];
    }
  }

  /** The points of pair i among all points. */
  lemma PointsOfPair(pairs: seq<LinkPair>, i: nat)
    requires i < |pairs|
    ensures var all, owners, points := AllPoints(pairs), Owners(pairs), pairs[i].constraintPoints;
      var base := |AllPoints(pairs[..i])|;
      && |owners| == |all| && base + |points| == |AllPoints(pairs[..i + 1])| <= |all|
      && all[base..base + |points|] == points && forall k | base <= k < base + |points| :: owners[k] == pairs[i]
  {
    var all, owners, points := AllPoints(pairs), Owners(pairs), pairs[i].constraintPoints;
    var base := |AllPoints(pairs[..i])|;
    assert pairs[..i + 1] == pairs[..i] + [pairs[i]];
    AllPointsAppend(pairs[..i], pairs[i]);
    OwnersAppend(pairs[..i], pairs[i]);
    OwnersMatch(pairs[..i]);
    OwnersMatch(pairs);
    AllPointsPrefix(pairs, i + 1);
    OwnersPrefix(pairs, i + 1);
    hide AllPoints, Owners;
    assert all[base..base + |points|] == all[..base + |points|][base..];
    forall k | base <= k < base + |points| ensures owners[k] == pairs[i] {
      assert owners[k] == owners[..base + |points|][k];
    }
  }

  /** Point k has row k, and friction rows 2k and 2k + 1 if it is a contact. */
  ghost predicate NumberedPoint(points: seq<ConstraintPoint>, contacts: nat, k: nat)
    requires k < |points|
  {
    && points[k].globalIndex == k
    && (k < contacts ==> points[k].globalFrictionIndex == 2 * k && points[k].numFrictionVectors == 2)
  }

  ghost predicate NumberedPoints(points: seq<ConstraintPoint>, contacts: nat) {
    contacts <= |points| && forall k | 0 <= k < |points| :: NumberedPoint(points, contacts, k)
  }

  /** The points of a pair are at base and after among all points, before or after the last contact. */
  ghost predicate PairInPlace(pair: LinkPair, points: seq<ConstraintPoint>, owners: seq<LinkPair>, base: nat,
                              contacts: nat)
    reads pair`connected, pair`constraintPoints
  {
    && NumberedPoints(points, contacts) && |owners| == |points| && base + |pair.constraintPoints| <= |points|
    && (if pair.connected then contacts <= base else base + |pair.constraintPoints| <= contacts)
    && points[base..base + |pair.constraintPoints|] == pair.constraintPoints
    && (forall k | base <= k < base + |pair.constraintPoints| :: owners[k] == pair)
  }

  ghost predicate PlacedAmong(pairs: seq<LinkPair>, i: nat, contacts: nat)
    requires i < |pairs|
    reads pairs`connected, pairs`constraintPoints
  {
    var base := |AllPoints(pairs[..i])|;
    && base + |pairs[i].constraintPoints| == |AllPoints(pairs[..i + 1])| <= |AllPoints(pairs)|
    && PairInPlace(pairs[i], AllPoints(pairs), Owners(pairs), base, contacts)
  }

  /** The constants of the rows of the first n points. */
  ghost predicate ConstantsUpTo(points: seq<ConstraintPoint>, owners: seq<LinkPair>, b: seq<real>, an: seq<real>,
                                step: Step, n: nat)
    reads owners`connected, owners`restitution
  {
    && n <= |points| == |owners|
    && forall k | 0 <= k < n :: ConstantsOf(points[k], owners[k].connected, owners[k].restitution, b, an, step)
  }

  /** Connections as they are kept between frames: a point for each axis. */
  ghost predicate Ready(connections: seq<LinkPair>, poses: seq<Pose>)
    reads connections`connected, connections`constraintPoints
  {
    && |poses| == |connections| && Distinct(connections)
    && forall i | 0 <= i < |connections| ::
         && connections[i].connected && AxisPoints(connections[i].constraintPoints)
         && |poses[i].axes| == |connections[i].constraintPoints|
  }

  ghost function PointsReported(reported: seq<seq<CollisionPoint>>): nat {
    if reported == [] then 0 else PointsReported(reported[..|reported| - 1]) + |reported[|reported| - 1]|
  }

  ghost function AxesHeld(poses: seq<Pose>): nat {
    if poses == [] then 0 else AxesHeld(poses[..|poses| - 1]) + |poses[|poses| - 1].axes|
  }

  /** How fast the ends of a connection move apart. */
  function EndsVelocity(pair: LinkPair, pose: Pose, velocityOf: End -> Spatial): Vec3 {
    Sub(PointVelocity(velocityOf(pair.end1), pose.point1), PointVelocity(velocityOf(pair.end0), pose.point0))
  }

  /** Of the first n connections those are constrained whose ends are close, along their axes. */
  ghost predicate Held(connections: seq<LinkPair>, poses: seq<Pose>, constrained: seq<LinkPair>, n: nat,
                       velocityOf: End -> Spatial)
    requires n <= |connections| == |poses|
    reads connections`constraintPoints
  {
    forall i | 0 <= i < n ::
      && (connections[i] in constrained <==> !poses[i].Apart())
      && (connections[i] in constrained ==>
            OnAxes(connections[i].constraintPoints, poses[i], EndsVelocity(connections[i], poses[i], velocityOf)))
  }

  class ContactSolver {
    var globalNumConstraintVectors: nat
    var globalNumFrictionVectors: nat
    var globalNumContactNormalVectors: nat
    var globalNumConnectionVectors: nat
    var prevGlobalNumConstraintVectors: nat
    var prevGlobalNumFrictionVectors: nat
    var constrainedLinkPairs: seq<LinkPair>
    var contactIndexToMu: array<real>
    var frictionIndexToContactIndex: array<int>
    var mcpHi: array<real>
    var solution: array<real>
    var areThereImpacts: bool
    var velocityOf: End -> Spatial
    var trackOf: End -> Track
    var allowedPenetrationDepth: real
    var negativeVelocityRatioForPenetration: real
    const sqrt: real -> real

    constructor (sqrt: real -> real)
      ensures Sized() && this.sqrt == sqrt
    {
      this.sqrt := sqrt;
      areThereImpacts, velocityOf, trackOf := false, e => ZERO6, e => NoTrack;
      allowedPenetrationDepth, negativeVelocityRatioForPenetration := 0.0001, 10.0;
      globalNumConstraintVectors, globalNumFrictionVectors := 0, 0;
      globalNumContactNormalVectors, globalNumConnectionVectors := 0, 0;
      prevGlobalNumConstraintVectors, prevGlobalNumFrictionVectors := 0, 0;
      constrainedLinkPairs := [];
      contactIndexToMu := new real[0];
      frictionIndexToContactIndex := new int[0];
      mcpHi := new real[0];
      solution := new real[0];
    }

    /** The rows given out so far, `contacts` of them to contacts. */
    ghost predicate Indexed(contacts: nat)
      reads `globalNumConstraintVectors, `globalNumFrictionVectors, `constrainedLinkPairs
      reads constrainedLinkPairs`constraintPoints
    {
      var points := AllPoints(constrainedLinkPairs);
      && |points| == globalNumConstraintVectors && contacts <= |points|
      && globalNumFrictionVectors == 2 * contacts
      && ContactRows(points[..contacts], 0, 0)
      && ConnectionRows(points[contacts..], contacts)
      && (forall p | p in constrainedLinkPairs :: p.constraintPoints != [])
    }

    /** What contacts of a pair take from it. */
    function Around(pair: LinkPair): Surroundings
      reads `velocityOf, `trackOf, `allowedPenetrationDepth, pair`muStatic, pair`muDynamic
    {
      Surroundings(pair.end0, pair.end1, pair.muStatic, pair.muDynamic, velocityOf, trackOf,
                   allowedPenetrationDepth, sqrt)
    }

    /** The velocity of one side of a contact, and the depth that counts there. */
    method SurfaceVelocity(end: End, side: real, c: CollisionPoint, depth0: real) returns (v: Vec3, depth: real)
      ensures v == OnTrack(PointVelocity(velocityOf(end), c.position), trackOf(end), c.normal, side, sqrt)
      ensures depth == if trackOf(end).Track? && depth0 > allowedPenetrationDepth * 2.0
                       then allowedPenetrationDepth * 2.0 else depth0
    {
      hide Dot, Cross, Sub, Scale, Add, Normalized;
      depth := depth0;
      v := PointVelocity(velocityOf(end), c.position);
      if trackOf(end).Track? {
        if depth > allowedPenetrationDepth * 2.0 {
          depth := allowedPenetrationDepth * 2.0;
        }
        var dir := Normalized(Scale(side, Cross(trackOf(end).axis, c.normal)), sqrt);
        v := Add(v, Scale(trackOf(end).speed, dir));
      }
    }

    /** The velocities at a contact, its friction coefficient and its friction directions. */
    method MakeContact(pair: LinkPair, c: CollisionPoint, globalIndex: int, globalFrictionIndex: int)
      returns (contact: ConstraintPoint)
      ensures contact == ContactOf(Around(pair), c, globalIndex, globalFrictionIndex)
    {
      hide Dot, Cross, Sub, Scale, Add, Neg, OnTrack, PointVelocity, FrictionPair, Frame, IsSqrt;
      var v0, depth0 := SurfaceVelocity(pair.end0, 1.0, c, c.idepth);
      var v1, depth := SurfaceVelocity(pair.end1, -1.0, c, depth0);
      ghost var at := Around(pair);
      assert depth == at.DepthOf(c.idepth);
      var relVelocityOn0 := Sub(v1, v0);
      assert relVelocityOn0 == at.RelVelocity(c.position, c.normal);
      var projection := Dot(c.normal, relVelocityOn0);
      var v_tangent := Sub(relVelocityOn0, Scale(projection, c.normal));
      var mu := if Dot(v_tangent, v_tangent) > SLIP_THRESHOLD then pair.muDynamic else pair.muStatic;
      var t1, t2 := SetFrictionVectors(Neg(c.normal), sqrt);
      contact := ConstraintPoint(c.position, c.normal, depth, mu, relVelocityOn0, projection, Neg(t1), Neg(t2),
                                 globalIndex, globalFrictionIndex, 2);
    }

    /** One contact kept: its row, its velocities, its friction coefficient and its two friction rows. */
    method AddContact(pair: LinkPair, c: CollisionPoint)
      modifies pair`constraintPoints, `globalNumConstraintVectors, `globalNumFrictionVectors, `areThereImpacts
      ensures globalNumConstraintVectors == old(globalNumConstraintVectors) + 1
      ensures globalNumFrictionVectors == old(globalNumFrictionVectors) + 2
      ensures var contact :=
                ContactOf(Around(pair), c, old(globalNumConstraintVectors), old(globalNumFrictionVectors));
              && pair.constraintPoints == old(pair.constraintPoints) + [contact]
              && areThereImpacts == (old(areThereImpacts) || Impact(contact))
    {
      hide ContactOf;
      PositionOf(Around(pair), c);
      var contact := MakeContact(pair, c, globalNumConstraintVectors, globalNumFrictionVectors);
      globalNumConstraintVectors := globalNumConstraintVectors + 1;
      if !areThereImpacts {
        if contact.normalProjectionOfRelVelocityOn0 < -IMPACT_SPEED {
          areThereImpacts := true;
        }
      }
      pair.constraintPoints := pair.constraintPoints + [contact];
      globalNumFrictionVectors := globalNumFrictionVectors + contact.numFrictionVectors;
    }

    /** Whether a kept point is nearby. */
    method IsNeighborhood(kept: seq<ConstraintPoint>, position: Vec3, thresh: real) returns (near: bool)
      ensures near <==> Crowded(kept, position, thresh)
    {
      near := false;
      if thresh > 0.0 {
        for k := 0 to |kept|
          invariant !near && !Crowded(kept[..k], position, thresh)
        {
          if Dot(Sub(kept[k].point, position), Sub(kept[k].point, position)) < Product(thresh, thresh) {
            assert Near(kept[k].point, position, thresh);
            near := true;
            break;
          }
        }
        assert !near ==> kept[..|kept|] == kept;
      }
    }

    /** The contact points of a pair are its reported points, culled, with all that follows for them. */
    ghost predicate Extracted(pair: LinkPair, reported: seq<CollisionPoint>)
      reads `velocityOf, `trackOf, `allowedPenetrationDepth
      reads pair`muStatic, pair`muDynamic, pair`culling_thresh, pair`constraintPoints
    {
      && Thinned(pair.constraintPoints, reported, pair.culling_thresh)
      && AllMade(pair.constraintPoints, Around(pair), reported)
    }

    method SetContactConstraintPoints(pair: LinkPair, reported: seq<CollisionPoint>)
      modifies pair`constraintPoints, `globalNumConstraintVectors, `globalNumFrictionVectors, `areThereImpacts
      ensures ContactRows(pair.constraintPoints, old(globalNumConstraintVectors), old(globalNumFrictionVectors))
      ensures globalNumConstraintVectors == old(globalNumConstraintVectors) + |pair.constraintPoints|
      ensures globalNumFrictionVectors == old(globalNumFrictionVectors) + 2 * |pair.constraintPoints|
      ensures Extracted(pair, reported)
      ensures areThereImpacts == (old(areThereImpacts) || AnyImpact(pair.constraintPoints))
      ensures reported != [] ==> pair.constraintPoints != []
      ensures |pair.constraintPoints| <= |reported|
    {
      hide Near, Thinned, Crowded, ContactOf, Impact;
      pair.constraintPoints := [];
      ThinnedStart(reported, pair.culling_thresh);
      assert reported[..0] == [];
      var j := 0;
      while j < |reported|
        invariant 0 <= j <= |reported|
        invariant ContactRows(pair.constraintPoints, old(globalNumConstraintVectors), old(globalNumFrictionVectors))
        invariant globalNumConstraintVectors == old(globalNumConstraintVectors) + |pair.constraintPoints|
        invariant globalNumFrictionVectors == old(globalNumFrictionVectors) + 2 * |pair.constraintPoints|
        invariant Thinned(pair.constraintPoints, reported[..j], pair.culling_thresh)
        invariant AllMade(pair.constraintPoints, Around(pair), reported[..j])
        invariant areThereImpacts == (old(areThereImpacts) || AnyImpact(pair.constraintPoints))
        invariant (j > 0 ==> pair.constraintPoints != []) && |pair.constraintPoints| <= j
      {
        ghost var kept := pair.constraintPoints;
        var crowded := IsNeighborhood(pair.constraintPoints, reported[j].position, pair.culling_thresh);
        if !crowded {
          AddContact(pair, reported[j]);
          ImpactStep(kept, pair.constraintPoints);
          PositionOf(Around(pair), reported[j]);
        }
        ThinnedStep(kept, pair.constraintPoints, reported[..j], reported[j], pair.culling_thresh);
        MadeStep(kept, pair.constraintPoints, Around(pair), reported[..j], reported[j]);
        assert reported[..j + 1] == reported[..j] + [reported[j]];
        j := j + 1;
      }
      assert reported[..j] == reported;
    }

    /** Rows for the axes of a connection, unless its two ends are too far apart. */
    method SetConnectionConstraintPoints(pair: LinkPair, pose: Pose) returns (ok: bool)
      requires AxisPoints(pair.constraintPoints) && |pose.axes| == |pair.constraintPoints|
      modifies pair`constraintPoints, `globalNumConstraintVectors
      ensures ok == !pose.Apart() && AxisPoints(pair.constraintPoints)
      ensures |pair.constraintPoints| == |old(pair.constraintPoints)|
      ensures !ok ==> globalNumConstraintVectors == old(globalNumConstraintVectors)
      ensures !ok ==> pair.constraintPoints == old(pair.constraintPoints)
      ensures ok ==> ConnectionRows(pair.constraintPoints, old(globalNumConstraintVectors))
      ensures ok ==> OnAxes(pair.constraintPoints, pose, EndsVelocity(pair, pose, velocityOf))
      ensures ok ==> globalNumConstraintVectors == old(globalNumConstraintVectors) + |pair.constraintPoints|
    {
      hide Dot, Scale, Sub, Neg, PointVelocity;
      var midPoint := Scale(0.5, Add(pose.point0, pose.point1));
      var error := Sub(midPoint, pose.point0);
      if Dot(error, error) > 0.04 * 0.04 {
        return false;
      }
      var relVelocityOn0 := Sub(PointVelocity(velocityOf(pair.end1), pose.point1),
                                PointVelocity(velocityOf(pair.end0), pose.point0));
      ghost var n := |pair.constraintPoints|;
      var i := 0;
      while i < |pair.constraintPoints|
        invariant 0 <= i <= n == |pair.constraintPoints|
        invariant globalNumConstraintVectors == old(globalNumConstraintVectors) + i
        invariant ConnectionRows(pair.constraintPoints[..i], old(globalNumConstraintVectors))
        invariant OnAxes(pair.constraintPoints[..i], pose.(axes := pose.axes[..i]), relVelocityOn0)
        invariant forall k | 0 <= k < n :: pair.constraintPoints[k].numFrictionVectors == 0
      {
        var axis := pose.axes[i];
        var constraint := pair.constraintPoints[i].(point := midPoint, normal := Neg(axis), depth := Dot(axis, error),
                                                    globalIndex := globalNumConstraintVectors,
                                                    normalProjectionOfRelVelocityOn0 := Dot(Neg(axis), relVelocityOn0));
        OnNextAxis(pair.constraintPoints, constraint, pose, i, relVelocityOn0);
        pair.constraintPoints := pair.constraintPoints[i := constraint];
        globalNumConstraintVectors := globalNumConstraintVectors + 1;
        i := i + 1;
      }
      assert pair.constraintPoints[..i] == pair.constraintPoints && pose.axes[..i] == pose.axes;
      ok := true;
    }

    lemma OnNextAxis(points: seq<ConstraintPoint>, c: ConstraintPoint, pose: Pose, i: nat, v: Vec3)
      requires i < |points| == |pose.axes| && OnAxes(points[..i], pose.(axes := pose.axes[..i]), v)
      requires c.point == pose.MidPoint() && c.normal == Neg(pose.axes[i]) && c.depth == Dot(pose.axes[i], pose.Error())
      requires c.normalProjectionOfRelVelocityOn0 == Dot(c.normal, v)
      ensures OnAxes(points[i := c][..i + 1], pose.(axes := pose.axes[..i + 1]), v)
    {
      hide Dot, Scale, Sub, Neg;
      var front, all := pose.(axes := pose.axes[..i]), pose.(axes := pose.axes[..i + 1]);
      assert all.MidPoint() == front.MidPoint() == pose.MidPoint() && all.Error() == front.Error() == pose.Error();
      forall k | 0 <= k < i ensures points[i := c][..i + 1][k] == points[..i][k] && all.axes[k] == front.axes[k] {}
    }

    /** The pairs whose points hold rows: contact pairs first, then connections. */
    ghost predicate Ordered(contactPairs: nat)
      reads `globalNumContactNormalVectors, `constrainedLinkPairs
      reads constrainedLinkPairs`constraintPoints, constrainedLinkPairs`connected
    {
      && contactPairs <= |constrainedLinkPairs|
      && (forall k | 0 <= k < |constrainedLinkPairs| :: constrainedLinkPairs[k].connected <==> k >= contactPairs)
      && |AllPoints(constrainedLinkPairs[..contactPairs])| == globalNumContactNormalVectors
    }

    method AddContactPair(pair: LinkPair, reported: seq<CollisionPoint>)
      requires Indexed(globalNumConstraintVectors) && pair !in constrainedLinkPairs && reported != []
      modifies pair`constraintPoints, `globalNumConstraintVectors, `globalNumFrictionVectors, `constrainedLinkPairs,
          `areThereImpacts
      ensures constrainedLinkPairs == old(constrainedLinkPairs) + [pair]
      ensures Indexed(globalNumConstraintVectors)
      ensures Extracted(pair, reported)
      ensures globalNumConstraintVectors <= old(globalNumConstraintVectors) + |reported|
    {
      hide Extracted;
      ghost var before, points, c := constrainedLinkPairs, AllPoints(constrainedLinkPairs), globalNumConstraintVectors;
      constrainedLinkPairs := constrainedLinkPairs + [pair];
      SetContactConstraintPoints(pair, reported);
      AllPointsAppend(before, pair);
      assert AllPoints(before) == points;
      var all := points + pair.constraintPoints;
      assert all[..globalNumConstraintVectors] == all && points[..c] == points;
      assert all[globalNumConstraintVectors..] == [];
    }

    method AddConnectedPair(pair: LinkPair, pose: Pose, ghost contacts: nat)
      requires Indexed(contacts) && pair !in constrainedLinkPairs
      requires AxisPoints(pair.constraintPoints) && |pose.axes| == |pair.constraintPoints|
      modifies pair`constraintPoints, `globalNumConstraintVectors, `constrainedLinkPairs
      ensures constrainedLinkPairs == old(constrainedLinkPairs) + if pose.Apart() then [] else [pair]
      ensures Indexed(contacts) && AxisPoints(pair.constraintPoints) && |pose.axes| == |pair.constraintPoints|
      ensures !pose.Apart() ==> OnAxes(pair.constraintPoints, pose, EndsVelocity(pair, pose, velocityOf))
      ensures globalNumConstraintVectors <= old(globalNumConstraintVectors) + |pose.axes|
    {
      ghost var before, points, c := constrainedLinkPairs, AllPoints(constrainedLinkPairs), globalNumConstraintVectors;
      constrainedLinkPairs := constrainedLinkPairs + [pair];
      var ok := SetConnectionConstraintPoints(pair, pose);
      assert AllPoints(before) == points;
      if !ok {
        constrainedLinkPairs := constrainedLinkPairs[..|constrainedLinkPairs| - 1];
        assert constrainedLinkPairs == before;
      } else {
        AllPointsAppend(before, pair);
        var all := points + pair.constraintPoints;
        assert all[..contacts] == points[..contacts];
        assert all[contacts..] == points[contacts..] + pair.constraintPoints;
      }
    }

    /** Of the first n pairs those are constrained that reported a collision, with their contact points. */
    ghost predicate ContactsHeld(pairs: seq<LinkPair>, reported: seq<seq<CollisionPoint>>, n: nat)
      requires n <= |pairs| == |reported|
      reads `velocityOf, `trackOf, `allowedPenetrationDepth, `constrainedLinkPairs
      reads pairs`muStatic, pairs`muDynamic, pairs`culling_thresh, pairs`constraintPoints
    {
      forall k | 0 <= k < n ::
        && (pairs[k] in constrainedLinkPairs <==> reported[k] != [])
        && (reported[k] != [] ==> Extracted(pairs[k], reported[k]))
    }

    /** The first n pairs have been gone through, and those that reported a collision have their rows. */
    ghost predicate ContactsSet(pairs: seq<LinkPair>, reported: seq<seq<CollisionPoint>>, n: nat)
      requires n <= |pairs| == |reported|
      reads `velocityOf, `trackOf, `allowedPenetrationDepth, `constrainedLinkPairs, `globalNumConstraintVectors
      reads pairs`muStatic, pairs`muDynamic, pairs`culling_thresh, pairs`constraintPoints
    {
      && (forall k | 0 <= k < |constrainedLinkPairs| :: constrainedLinkPairs[k] in pairs[..n])
      && ContactsHeld(pairs, reported, n)
      && globalNumConstraintVectors <= PointsReported(reported[..n])
    }

    method SetContactPair(pairs: seq<LinkPair>, reported: seq<seq<CollisionPoint>>, i: nat)
      requires i < |pairs| == |reported| && Distinct(pairs)
      requires Indexed(globalNumConstraintVectors) && ContactsSet(pairs, reported, i)
      modifies pairs`constraintPoints, `globalNumConstraintVectors, `globalNumFrictionVectors,
          `constrainedLinkPairs, `areThereImpacts
      ensures Indexed(globalNumConstraintVectors) && ContactsSet(pairs, reported, i + 1)
    {
      hide Extracted, Indexed;
      assert pairs[i] !in pairs[..i];
      assert reported[..i + 1][..i] == reported[..i];
      if |reported[i]| > 0 {
        AddContactPair(pairs[i], reported[i]);
      }
    }

    /** The contact pairs that reported a collision, each with its rows. */
    method SetContactPairs(pairs: seq<LinkPair>, reported: seq<seq<CollisionPoint>>)
      requires |reported| == |pairs| && Distinct(pairs)
      requires forall p | p in pairs :: !p.connected
      requires globalNumConstraintVectors == globalNumFrictionVectors == 0 && constrainedLinkPairs == []
      modifies pairs`constraintPoints, `globalNumConstraintVectors, `globalNumFrictionVectors, `constrainedLinkPairs,
          `areThereImpacts
      ensures Indexed(globalNumConstraintVectors)
      ensures forall p | p in constrainedLinkPairs :: p in pairs
      ensures forall k | 0 <= k < |constrainedLinkPairs| :: !constrainedLinkPairs[k].connected
      ensures ContactsHeld(pairs, reported, |pairs|)
      ensures globalNumConstraintVectors <= PointsReported(reported)
    {
      assert Indexed(0) && ContactsSet(pairs, reported, 0);
      hide Indexed, ContactsSet;
      var i := 0;
      while i < |pairs|
        invariant 0 <= i <= |pairs|
        invariant Indexed(globalNumConstraintVectors) && ContactsSet(pairs, reported, i)
      {
        SetContactPair(pairs, reported, i);
        i := i + 1;
      }
      AllContactsSet(pairs, reported);
    }

    lemma AllContactsSet(pairs: seq<LinkPair>, reported: seq<seq<CollisionPoint>>)
      requires |pairs| == |reported| && ContactsSet(pairs, reported, |pairs|)
      ensures forall p | p in constrainedLinkPairs :: p in pairs
      ensures ContactsHeld(pairs, reported, |pairs|)
      ensures globalNumConstraintVectors <= PointsReported(reported)
    {
      assert pairs[..|pairs|] == pairs && reported[..|pairs|] == reported;
    }

    /** The first n connections have been gone through, after the contacts. */
    ghost predicate ConnectionsSet(connections: seq<LinkPair>, poses: seq<Pose>, contacts: seq<LinkPair>, n: nat)
      requires n <= |connections| == |poses|
      reads `velocityOf, `constrainedLinkPairs, connections`constraintPoints
    {
      && contacts <= constrainedLinkPairs
      && (forall k | |contacts| <= k < |constrainedLinkPairs| :: constrainedLinkPairs[k] in connections[..n])
      && Held(connections, poses, constrainedLinkPairs, n, velocityOf)
    }

    method SetConnectedPair(connections: seq<LinkPair>, poses: seq<Pose>, ghost contacts: seq<LinkPair>, i: nat)
      requires i < |connections| && Ready(connections, poses) && connections[i] !in contacts
      requires Indexed(globalNumContactNormalVectors) && ConnectionsSet(connections, poses, contacts, i)
      modifies connections`constraintPoints, `globalNumConstraintVectors, `constrainedLinkPairs
      ensures Indexed(globalNumContactNormalVectors) && ConnectionsSet(connections, poses, contacts, i + 1)
      ensures Ready(connections, poses)
      ensures globalNumConstraintVectors <= old(globalNumConstraintVectors) + |poses[i].axes|
    {
      hide Indexed;
      assert connections[i] !in connections[..i];
      AddConnectedPair(connections[i], poses[i], globalNumContactNormalVectors);
    }

    /** The connections whose ends have not drifted apart, each with its rows. */
    method SetConnectedPairs(connections: seq<LinkPair>, poses: seq<Pose>)
      requires Ready(connections, poses)
      requires forall k | 0 <= k < |constrainedLinkPairs| :: !constrainedLinkPairs[k].connected
      requires Indexed(globalNumContactNormalVectors)
      modifies connections`constraintPoints, `globalNumConstraintVectors, `constrainedLinkPairs
      ensures Indexed(globalNumContactNormalVectors)
      ensures old(constrainedLinkPairs) <= constrainedLinkPairs
      ensures forall k | |old(constrainedLinkPairs)| <= k < |constrainedLinkPairs| ::
                constrainedLinkPairs[k] in connections
      ensures Held(connections, poses, constrainedLinkPairs, |connections|, velocityOf)
      ensures globalNumConstraintVectors <= old(globalNumConstraintVectors) + AxesHeld(poses)
    {
      ghost var contacts, c := constrainedLinkPairs, globalNumConstraintVectors;
      forall k | 0 <= k < |connections| ensures connections[k] !in contacts {
        assert connections[k].connected;
      }
      assert ConnectionsSet(connections, poses, contacts, 0);
      hide Indexed, ConnectionsSet;
      var i := 0;
      while i < |connections|
        invariant 0 <= i <= |connections| && Ready(connections, poses)
        invariant Indexed(globalNumContactNormalVectors) && ConnectionsSet(connections, poses, contacts, i)
        invariant globalNumConstraintVectors <= c + AxesHeld(poses[..i])
      {
        assert poses[..i + 1][..i] == poses[..i];
        SetConnectedPair(connections, poses, contacts, i);
        i := i + 1;
      }
      assert poses[..i] == poses;
      AllConnectionsSet(connections, poses, contacts);
    }

    lemma AllConnectionsSet(connections: seq<LinkPair>, poses: seq<Pose>, contacts: seq<LinkPair>)
      requires |connections| == |poses| && ConnectionsSet(connections, poses, contacts, |connections|)
      ensures contacts <= constrainedLinkPairs
      ensures Held(connections, poses, constrainedLinkPairs, |connections|, velocityOf)
      ensures forall k | |contacts| <= k < |constrainedLinkPairs| :: constrainedLinkPairs[k] in connections
    {
      hide Held;
      assert connections[..|connections|] == connections;
    }

    lemma EnoughRows(contacts: nat)
      requires Indexed(contacts)
      ensures contacts <= globalNumConstraintVectors == |AllPoints(constrainedLinkPairs)|
    {}

    /** The rows after the contacts: all of them contact normals so far. */
    method SetContacts(pairs: seq<LinkPair>, reported: seq<seq<CollisionPoint>>) returns (ghost contactPairs: nat)
      requires |reported| == |pairs| && Distinct(pairs)
      requires forall p | p in pairs :: !p.connected
      requires globalNumConstraintVectors == globalNumFrictionVectors == 0 && constrainedLinkPairs == []
      modifies pairs`constraintPoints, `globalNumConstraintVectors, `globalNumFrictionVectors, `constrainedLinkPairs,
          `globalNumContactNormalVectors, `areThereImpacts
      ensures Indexed(globalNumContactNormalVectors) && globalNumContactNormalVectors == globalNumConstraintVectors
      ensures Ordered(contactPairs) && contactPairs == |constrainedLinkPairs|
      ensures forall p | p in constrainedLinkPairs :: p in pairs
      ensures ContactsHeld(pairs, reported, |pairs|)
      ensures globalNumConstraintVectors <= PointsReported(reported)
    {
      hide ContactsHeld, Extracted, ContactRows, ConnectionRows, Indexed, Distinct, PointsReported;
      SetContactPairs(pairs, reported);
      EnoughRows(globalNumConstraintVectors);
      globalNumContactNormalVectors := globalNumConstraintVectors;
      contactPairs := |constrainedLinkPairs|;
      assert constrainedLinkPairs[..contactPairs] == constrainedLinkPairs;
    }

    /** The rows after the connections. */
    method SetConnections(connections: seq<LinkPair>, poses: seq<Pose>, ghost contactPairs: nat)
      requires Ready(connections, poses)
      requires Indexed(globalNumContactNormalVectors) && Ordered(contactPairs) && contactPairs == |constrainedLinkPairs|
      modifies connections`constraintPoints, `globalNumConstraintVectors, `constrainedLinkPairs,
          `globalNumConnectionVectors
      ensures Indexed(globalNumContactNormalVectors) && Ordered(contactPairs)
      ensures globalNumConnectionVectors + globalNumContactNormalVectors == globalNumConstraintVectors
      ensures old(constrainedLinkPairs) <= constrainedLinkPairs
      ensures forall p | p in constrainedLinkPairs :: p in old(constrainedLinkPairs) || p in connections
      ensures Held(connections, poses, constrainedLinkPairs, |connections|, velocityOf)
      ensures globalNumConstraintVectors <= old(globalNumConstraintVectors) + AxesHeld(poses)
    {
      hide ContactRows, ConnectionRows, Indexed, Distinct, AxisPoints, AllPoints, AxesHeld;
      ghost var contacts, points := constrainedLinkPairs, AllPoints(constrainedLinkPairs);
      assert contacts[..contactPairs] == contacts && forall p | p in contacts :: p !in connections;
      SetConnectedPairs(connections, poses);
      EnoughRows(globalNumContactNormalVectors);
      globalNumConnectionVectors := globalNumConstraintVectors - globalNumContactNormalVectors;
      assert constrainedLinkPairs[..contactPairs] == contacts && AllPoints(contacts) == points;
    }

    /** Rows for all the reported contacts, then for all the connections. */
    method SetConstraintPoints(pairs: seq<LinkPair>, reported: seq<seq<CollisionPoint>>, connections: seq<LinkPair>,
                               poses: seq<Pose>)
      returns (ghost contactPairs: nat)
      requires |reported| == |pairs| && Distinct(pairs)
      requires forall p | p in pairs :: !p.connected
      requires Ready(connections, poses)
      requires globalNumConstraintVectors == globalNumFrictionVectors == 0 && constrainedLinkPairs == []
      modifies pairs`constraintPoints, connections`constraintPoints
      modifies `globalNumConstraintVectors, `globalNumFrictionVectors, `constrainedLinkPairs,
          `globalNumContactNormalVectors, `globalNumConnectionVectors, `areThereImpacts
      ensures Indexed(globalNumContactNormalVectors) && Ordered(contactPairs)
      ensures globalNumConnectionVectors + globalNumContactNormalVectors == globalNumConstraintVectors
      ensures forall p | p in constrainedLinkPairs :: p in pairs || p in connections
      ensures ContactsHeld(pairs, reported, |pairs|)
      ensures Held(connections, poses, constrainedLinkPairs, |connections|, velocityOf)
      ensures globalNumConstraintVectors <= PointsReported(reported) + AxesHeld(poses)
    {
      hide Extracted, Indexed, Ordered, Distinct, AxisPoints, PointsReported, AxesHeld;
      contactPairs := SetContacts(pairs, reported);
      assert forall p | p in pairs :: p !in connections;
      SetConnections(connections, poses, contactPairs);
    }

    /** The tables and the forces have the size of the last frame that had any constraint. */
    ghost predicate Sized()
      reads `prevGlobalNumConstraintVectors, `prevGlobalNumFrictionVectors, `contactIndexToMu,
          `frictionIndexToContactIndex, `mcpHi, `solution
    {
      && (prevGlobalNumConstraintVectors > 0 ==>
            && prevGlobalNumFrictionVectors == frictionIndexToContactIndex.Length == 2 * contactIndexToMu.Length
            && mcpHi.Length == contactIndexToMu.Length
            && solution.Length == prevGlobalNumConstraintVectors + prevGlobalNumFrictionVectors)
      && contactIndexToMu != mcpHi && mcpHi != solution && solution != contactIndexToMu
    }

    /** What the tables say of the first n contacts. */
    ghost predicate Tabled(points: seq<ConstraintPoint>, n: nat)
      reads `contactIndexToMu, `frictionIndexToContactIndex, contactIndexToMu, frictionIndexToContactIndex
    {
      && n <= |points| && n <= contactIndexToMu.Length && 2 * n <= frictionIndexToContactIndex.Length
      && (forall i | 0 <= i < n :: contactIndexToMu[i] == points[i].mu)
      && (forall f | 0 <= f < 2 * n :: frictionIndexToContactIndex[f] == f / 2)
    }

    ghost function Arrays(): set<object>
      reads `contactIndexToMu, `frictionIndexToContactIndex, `mcpHi, `solution
    {
      {contactIndexToMu as object, frictionIndexToContactIndex as object, mcpHi as object, solution as object}
    }

    /** The tables have an entry for each contact and each friction row, and there is a force for each row. */
    ghost predicate TablesFit()
      reads `globalNumConstraintVectors, `globalNumContactNormalVectors, `globalNumFrictionVectors
      reads `contactIndexToMu, `frictionIndexToContactIndex, `mcpHi, `solution
    {
      && contactIndexToMu.Length == mcpHi.Length == globalNumContactNormalVectors
      && frictionIndexToContactIndex.Length == globalNumFrictionVectors
      && solution.Length == globalNumConstraintVectors + globalNumFrictionVectors
      && contactIndexToMu != mcpHi && mcpHi != solution && solution != contactIndexToMu
    }

    method InitMatrices()
      requires globalNumFrictionVectors == 2 * globalNumContactNormalVectors
      modifies `contactIndexToMu, `frictionIndexToContactIndex, `mcpHi, `solution
      ensures fresh(contactIndexToMu) && fresh(frictionIndexToContactIndex) && fresh(mcpHi) && fresh(solution)
      ensures TablesFit()
    {
      solution := new real[globalNumConstraintVectors + globalNumFrictionVectors];
      frictionIndexToContactIndex := new int[globalNumFrictionVectors];
      contactIndexToMu := new real[globalNumContactNormalVectors];
      mcpHi := new real[globalNumContactNormalVectors];
    }

    /** One friction row of a contact: its constant, and the contact it belongs to. */
    method SetFrictionRow(c: ConstraintPoint, k: nat, b: array<real>, an: seq<real>, step: Step)
      requires 0 <= c.globalIndex && k < 2 && step.n + 2 * c.globalIndex + k < b.Length == |an|
      requires 2 * c.globalIndex + k < frictionIndexToContactIndex.Length
      modifies b, frictionIndexToContactIndex
      ensures FrictionSet(c, k, b[..], an, step)
      ensures forall l | 0 <= l < b.Length && l != step.n + 2 * c.globalIndex + k :: b[l] == old(b[l])
      ensures frictionIndexToContactIndex[2 * c.globalIndex + k] == c.globalIndex
      ensures forall l | 0 <= l < frictionIndexToContactIndex.Length && l != 2 * c.globalIndex + k ::
                frictionIndexToContactIndex[l] == old(frictionIndexToContactIndex[l])
    {
      hide Dot, Product;
      var row := step.n + 2 * c.globalIndex + k;
      var tangential := Dot(c.FrictionVector(k), c.relVelocityOn0);
      b[row] := an[row];
      b[row] := b[row] + Product(tangential, step.dtinv);
      frictionIndexToContactIndex[2 * c.globalIndex + k] := c.globalIndex;
    }

    /** The friction rows of a contact. */
    method SetFrictionRows(c: ConstraintPoint, b: array<real>, an: seq<real>, step: Step)
      requires 0 <= c.globalIndex && c.numFrictionVectors == 2 && step.n + 2 * c.globalIndex + 2 <= b.Length == |an|
      requires 2 * c.globalIndex + 2 <= frictionIndexToContactIndex.Length
      modifies b, frictionIndexToContactIndex
      ensures FrictionSet(c, 0, b[..], an, step) && FrictionSet(c, 1, b[..], an, step)
      ensures forall l | 0 <= l < b.Length && !(0 <= l - step.n - 2 * c.globalIndex < 2) :: b[l] == old(b[l])
      ensures forall f | 0 <= f < frictionIndexToContactIndex.Length ::
        var own := 0 <= f - 2 * c.globalIndex < 2;
        frictionIndexToContactIndex[f] == if own then c.globalIndex else old(frictionIndexToContactIndex[f])
    {
      hide FrictionConstant;
      var k := 0;
      while k < c.numFrictionVectors
        invariant 0 <= k <= 2
        invariant k > 0 ==> FrictionSet(c, 0, b[..], an, step)
        invariant k > 1 ==> FrictionSet(c, 1, b[..], an, step)
        invariant forall l | 0 <= l < b.Length && !(0 <= l - step.n - 2 * c.globalIndex < 2) :: b[l] == old(b[l])
        invariant forall f | 0 <= f < frictionIndexToContactIndex.Length ::
          var own := 0 <= f - 2 * c.globalIndex < k;
          frictionIndexToContactIndex[f] == if own then c.globalIndex else old(frictionIndexToContactIndex[f])
      {
        SetFrictionRow(c, k, b, an, step);
        k := k + 1;
      }
    }

    /** The rows of a contact: constants, coefficient of friction, and the contact of its friction rows. */
    method SetRowsOfContact(c: ConstraintPoint, restitution: real, b: array<real>, an: seq<real>, step: Step,
                            ghost points: seq<ConstraintPoint>)
      requires 0 <= c.globalIndex < step.n && c.numFrictionVectors == 2 && c.globalFrictionIndex == 2 * c.globalIndex
      requires step.n == |points| && points[c.globalIndex] == c && step.n + 2 * c.globalIndex + 2 <= b.Length == |an|
      requires c.globalIndex < contactIndexToMu.Length
      requires 2 * contactIndexToMu.Length == frictionIndexToContactIndex.Length
      requires b != contactIndexToMu && Tabled(points, c.globalIndex)
      modifies b, contactIndexToMu, frictionIndexToContactIndex
      ensures Tabled(points, c.globalIndex + 1) && ConstantsOf(c, false, restitution, b[..], an, step)
      ensures forall k | 0 <= k < b.Length && !RowsOf(c, false, step.n, k) :: b[k] == old(b[k])
    {
      hide FrictionConstant, ContactConstant;
      SetNormalRow(c, restitution, b, an, step);
      SetFrictionRows(c, b, an, step);
    }

    /** The normal row of a contact: its constant, and its coefficient of friction. */
    method SetNormalRow(c: ConstraintPoint, restitution: real, b: array<real>, an: seq<real>, step: Step)
      requires 0 <= c.globalIndex < b.Length == |an| && c.globalIndex < contactIndexToMu.Length && b != contactIndexToMu
      modifies b, contactIndexToMu
      ensures b[c.globalIndex] == ContactConstant(c, restitution, an[c.globalIndex], step)
      ensures contactIndexToMu[c.globalIndex] == c.mu
      ensures forall k | 0 <= k < b.Length && k != c.globalIndex :: b[k] == old(b[k])
      ensures forall k | 0 <= k < contactIndexToMu.Length && k != c.globalIndex ::
                contactIndexToMu[k] == old(contactIndexToMu[k])
    {
      hide Product;
      var newDepth := step.allowedPenetrationDepth - c.depth;
      var extraNegativeVel := Product(step.negativeVelocityRatioForPenetration, newDepth);
      b[c.globalIndex] := an[c.globalIndex]
        + Product(Product(1.0 + restitution, c.normalProjectionOfRelVelocityOn0) + extraNegativeVel, step.dtinv);
      contactIndexToMu[c.globalIndex] := c.mu;
    }

    /** The row of an axis of a connection. */
    method SetRowOfConnection(c: ConstraintPoint, b: array<real>, an: seq<real>, step: Step)
      requires 0 <= c.globalIndex < b.Length == |an|
      modifies b
      ensures ConstantsOf(c, true, 0.0, b[..], an, step)
      ensures forall k | 0 <= k < b.Length && k != c.globalIndex :: b[k] == old(b[k])
    {
      hide Product;
      var error := c.depth;
      var v := if error >= 0.0 then 0.1 * (-1.0 + step.exp(-error * 20.0)) else 0.1 * (1.0 - step.exp(error * 20.0));
      b[c.globalIndex] := an[c.globalIndex] + Product(c.normalProjectionOfRelVelocityOn0 + v, step.dtinv);
    }

    /** The rows of one pair. */
    method SetRowsOfPair(pair: LinkPair, b: array<real>, an: seq<real>, step: Step, ghost points: seq<ConstraintPoint>,
                         ghost owners: seq<LinkPair>, ghost base: nat, ghost contacts: nat)
      requires PairInPlace(pair, points, owners, base, contacts)
      requires step.n == |points| && b.Length == |an| == |points| + 2 * contacts && b != contactIndexToMu
      requires contacts == contactIndexToMu.Length && 2 * contacts == frictionIndexToContactIndex.Length
      requires Tabled(points, Lesser(base, contacts)) && ConstantsUpTo(points, owners, b[..], an, step, base)
      modifies b, contactIndexToMu, frictionIndexToContactIndex
      ensures Tabled(points, Lesser(base + |pair.constraintPoints|, contacts))
      ensures ConstantsUpTo(points, owners, b[..], an, step, base + |pair.constraintPoints|)
    {
      hide Tabled, ConstantsOf;
      var j := 0;
      while j < |pair.constraintPoints|
        invariant 0 <= j <= |pair.constraintPoints|
        invariant Tabled(points, Lesser(base + j, contacts))
        invariant ConstantsUpTo(points, owners, b[..], an, step, base + j)
      {
        var c := pair.constraintPoints[j];
        ghost var was := b[..];
        PointInPlace(pair, points, owners, base, contacts, j);
        if pair.connected {
          SetRowOfConnection(c, b, an, step);
          SameRestitution(c, pair.restitution, b[..], an, step);
        } else {
          SetRowsOfContact(c, pair.restitution, b, an, step, points);
        }
        OneMoreConstant(points, owners, was, b[..], an, step, base + j, contacts);
        j := j + 1;
      }
    }

    /** The constants of all rows, the friction coefficient of each contact and the contact of each friction row. */
    method SetConstantVectorAndMuBlock(b: array<real>, an: seq<real>, dtinv: real, exp: real -> real,
                                       ghost contactPairs: nat)
      requires Indexed(globalNumContactNormalVectors) && Ordered(contactPairs) && TablesFit()
      requires b.Length == |an| == globalNumConstraintVectors + globalNumFrictionVectors && b != contactIndexToMu
      modifies b, contactIndexToMu, frictionIndexToContactIndex
      ensures Tabled(AllPoints(constrainedLinkPairs), globalNumContactNormalVectors)
      ensures ConstantsUpTo(AllPoints(constrainedLinkPairs), Owners(constrainedLinkPairs), b[..], an,
                            StepOf(dtinv, exp), globalNumConstraintVectors)
    {
      var step := Step(globalNumConstraintVectors, dtinv, allowedPenetrationDepth, negativeVelocityRatioForPenetration,
                       exp);
      ghost var points, contacts := AllPoints(constrainedLinkPairs), globalNumContactNormalVectors;
      EnoughRows(contacts);
      OwnersMatch(constrainedLinkPairs);
      assert constrainedLinkPairs[..0] == [] && Tabled(points, 0);
      hide Tabled, AllPoints, Owners, ConstantsOf, Indexed, Ordered;
      forall i | 0 <= i < |constrainedLinkPairs| ensures PlacedAmong(constrainedLinkPairs, i, contacts) {
        PairsInPlace(contactPairs, i);
      }
      SetRowsOfPairs(constrainedLinkPairs, b, an, step, points, Owners(constrainedLinkPairs), contacts);
    }

    /** The rows of all pairs, one after the other. */
    method SetRowsOfPairs(pairs: seq<LinkPair>, b: array<real>, an: seq<real>, step: Step,
                          ghost points: seq<ConstraintPoint>, ghost owners: seq<LinkPair>, ghost contacts: nat)
      requires points == AllPoints(pairs) && owners == Owners(pairs) && |owners| == |points| == step.n
      requires forall i | 0 <= i < |pairs| :: PlacedAmong(pairs, i, contacts)
      requires b.Length == |an| == |points| + 2 * contacts && b != contactIndexToMu && Tabled(points, 0)
      requires contacts == contactIndexToMu.Length && 2 * contacts == frictionIndexToContactIndex.Length
      requires contacts <= |points|
      modifies b, contactIndexToMu, frictionIndexToContactIndex
      ensures Tabled(points, contacts) && ConstantsUpTo(points, owners, b[..], an, step, |points|)
    {
      hide Tabled, Owners, ConstantsOf, PairInPlace, ConstantsUpTo, Lesser;
      NoConstants(points, owners, b[..], an, step);
      ghost var base := 0;
      var i := 0;
      assert pairs[..0] == [];
      while i < |pairs|
        invariant 0 <= i <= |pairs| && base == |AllPoints(pairs[..i])| <= |points|
        invariant Tabled(points, Lesser(base, contacts)) && ConstantsUpTo(points, owners, b[..], an, step, base)
      {
        assert PlacedAmong(pairs, i, contacts);
        SetRowsOfPair(pairs[i], b, an, step, points, owners, base, contacts);
        base := base + |pairs[i].constraintPoints|;
        i := i + 1;
      }
      assert pairs[..i] == pairs;
    }

    function StepOf(dtinv: real, exp: real -> real): Step
      reads `globalNumConstraintVectors, `allowedPenetrationDepth, `negativeVelocityRatioForPenetration
    {
      Step(globalNumConstraintVectors, dtinv, allowedPenetrationDepth, negativeVelocityRatioForPenetration, exp)
    }

    /** Where the points of pair i are among all points. */
    lemma PairsInPlace(contactPairs: nat, i: nat)
      requires Indexed(globalNumContactNormalVectors) && Ordered(contactPairs) && i < |constrainedLinkPairs|
      ensures PlacedAmong(constrainedLinkPairs, i, globalNumContactNormalVectors)
    {
      var pairs, contacts := constrainedLinkPairs, globalNumContactNormalVectors;
      RowNumbers(contacts);
      hide ContactRows, ConnectionRows, Indexed, NumberedPoints, AllPoints, Owners;
      PointsOfPair(pairs, i);
      if i < contactPairs {
        assert pairs[..contactPairs][..i + 1] == pairs[..i + 1];
        AllPointsPrefix(pairs[..contactPairs], i + 1);
        assert |AllPoints(pairs[..i + 1])| <= contacts && !pairs[i].connected;
      } else {
        assert pairs[..i][..contactPairs] == pairs[..contactPairs];
        AllPointsPrefix(pairs[..i], contactPairs);
        assert contacts <= |AllPoints(pairs[..i])| && pairs[i].connected;
      }
      var base := |AllPoints(pairs[..i])|;
      assert if pairs[i].connected then contacts <= base else base + |pairs[i].constraintPoints| <= contacts;
      PlaceOf(pairs[i], AllPoints(pairs), Owners(pairs), base, contacts);
    }

    /** The rows of the points, by their place. */
    lemma RowNumbers(contacts: nat)
      requires Indexed(contacts)
      ensures NumberedPoints(AllPoints(constrainedLinkPairs), contacts)
    {
      var all := AllPoints(constrainedLinkPairs);
      forall k | 0 <= k < |all| ensures NumberedPoint(all, contacts, k) {
        if k < contacts {
          assert all[k] == all[..contacts][k];
        } else {
          assert all[k] == all[contacts..][k - contacts];
        }
      }
    }

    /** The rows of the frame before are forgotten, and those of this one set. */
    method RenewRows(pairs: seq<LinkPair>, reported: seq<seq<CollisionPoint>>, connections: seq<LinkPair>,
                     poses: seq<Pose>)
      returns (ghost contactPairs: nat)
      requires |reported| == |pairs| && Distinct(pairs) && forall p | p in pairs :: !p.connected
      requires Ready(connections, poses)
      modifies pairs`constraintPoints, connections`constraintPoints
      modifies `globalNumConstraintVectors, `globalNumFrictionVectors, `globalNumContactNormalVectors,
          `globalNumConnectionVectors, `constrainedLinkPairs, `areThereImpacts
      ensures Indexed(globalNumContactNormalVectors) && Ordered(contactPairs)
      ensures globalNumFrictionVectors == 2 * globalNumContactNormalVectors
      ensures forall p | p in constrainedLinkPairs :: p in pairs || p in connections
      ensures ContactsHeld(pairs, reported, |pairs|)
      ensures Held(connections, poses, constrainedLinkPairs, |connections|, velocityOf)
      ensures globalNumConstraintVectors <= PointsReported(reported) + AxesHeld(poses)
    {
      hide Indexed, Ready, Held, ContactsHeld, Ordered, PointsReported, AxesHeld, Distinct;
      globalNumConstraintVectors, globalNumFrictionVectors, constrainedLinkPairs := 0, 0, [];
      areThereImpacts := false;
      contactPairs := SetConstraintPoints(pairs, reported, connections, poses);
      FrictionRowsOf(globalNumContactNormalVectors);
    }

    lemma FrictionRowsOf(contacts: nat)
      requires Indexed(contacts)
      ensures globalNumFrictionVectors == 2 * contacts
    {}

    /** The rows of one simulation frame. If the numbers of rows are those of the frame before, so is
        the number of contacts, and the tables are rightly kept. */
    method SetRows(pairs: seq<LinkPair>, reported: seq<seq<CollisionPoint>>, connections: seq<LinkPair>,
                   poses: seq<Pose>)
      returns (constraintsSizeChanged: bool, ghost contactPairs: nat)
      requires Sized() && |reported| == |pairs| && Distinct(pairs)
      requires forall p | p in pairs :: !p.connected
      requires Ready(connections, poses)
      modifies pairs`constraintPoints, connections`constraintPoints
      modifies `globalNumConstraintVectors, `globalNumFrictionVectors, `globalNumContactNormalVectors,
          `globalNumConnectionVectors, `constrainedLinkPairs, `areThereImpacts
      modifies `contactIndexToMu, `frictionIndexToContactIndex, `mcpHi, `solution,
          `prevGlobalNumConstraintVectors, `prevGlobalNumFrictionVectors
      ensures Sized() && Indexed(globalNumContactNormalVectors) && Ordered(contactPairs)
      ensures forall p | p in constrainedLinkPairs :: p in pairs || p in connections
      ensures globalNumConstraintVectors > 0 ==> TablesFit()
      ensures ContactsHeld(pairs, reported, |pairs|)
      ensures Held(connections, poses, constrainedLinkPairs, |connections|, velocityOf)
      ensures globalNumConstraintVectors <= PointsReported(reported) + AxesHeld(poses)
      ensures fresh(Arrays() - old(Arrays()))
      ensures !constraintsSizeChanged ==> solution == old(solution)
    {
      hide Indexed, Ready, Held, ContactsHeld, Ordered, PointsReported, AxesHeld, Distinct;
      contactPairs := RenewRows(pairs, reported, connections, poses);
      constraintsSizeChanged := KeepTables();
    }

    /** Tables of other sizes if the frame has constraints, but not as many as the frame before. */
    method KeepTables() returns (constraintsSizeChanged: bool)
      requires Sized() && globalNumFrictionVectors == 2 * globalNumContactNormalVectors
      modifies `contactIndexToMu, `frictionIndexToContactIndex, `mcpHi, `solution,
          `prevGlobalNumConstraintVectors, `prevGlobalNumFrictionVectors
      ensures Sized() && (globalNumConstraintVectors > 0 ==> TablesFit())
      ensures fresh(Arrays() - old(Arrays()))
      ensures !constraintsSizeChanged ==> solution == old(solution)
    {
      constraintsSizeChanged := false;
      if globalNumConstraintVectors > 0 {
        constraintsSizeChanged := globalNumFrictionVectors != prevGlobalNumFrictionVectors
                                  || globalNumConstraintVectors != prevGlobalNumConstraintVectors;
        if constraintsSizeChanged {
          InitMatrices();
        }
      }
      prevGlobalNumConstraintVectors := globalNumConstraintVectors;
      prevGlobalNumFrictionVectors := globalNumFrictionVectors;
    }
  }

  lemma PointInPlace(pair: LinkPair, points: seq<ConstraintPoint>, owners: seq<LinkPair>, base: nat, contacts: nat,
                     j: nat)
    requires PairInPlace(pair, points, owners, base, contacts) && j < |pair.constraintPoints|
    ensures contacts <= |points| && base + j < |points| == |owners| && owners[base + j] == pair
    ensures var c := pair.constraintPoints[j];
      && points[base + j] == c && c.globalIndex == base + j
      && (pair.connected ==> contacts <= base + j)
      && (!pair.connected ==>
            base + j < contacts && c.globalFrictionIndex == 2 * c.globalIndex && c.numFrictionVectors == 2)
  {
    assert NumberedPoint(points, contacts, base + j);
    assert points[base..base + |pair.constraintPoints|][j] == points[base + j];
  }

  lemma PlaceOf(pair: LinkPair, points: seq<ConstraintPoint>, owners: seq<LinkPair>, base: nat, contacts: nat)
    requires NumberedPoints(points, contacts) && |owners| == |points| && base + |pair.constraintPoints| <= |points|
    requires if pair.connected then contacts <= base else base + |pair.constraintPoints| <= contacts
    requires points[base..base + |pair.constraintPoints|] == pair.constraintPoints
    requires forall k | base <= k < base + |pair.constraintPoints| :: owners[k] == pair
    ensures PairInPlace(pair, points, owners, base, contacts)
  {
    hide NumberedPoints;
  }

  lemma NoConstants(points: seq<ConstraintPoint>, owners: seq<LinkPair>, b: seq<real>, an: seq<real>, step: Step)
    requires |owners| == |points|
    ensures ConstantsUpTo(points, owners, b, an, step, 0)
  {}

  lemma SameRestitution(c: ConstraintPoint, restitution: real, b: seq<real>, an: seq<real>, step: Step)
    requires ConstantsOf(c, true, 0.0, b, an, step)
    ensures ConstantsOf(c, true, restitution, b, an, step)
  {}

  /** The rows of point k do not disturb those of earlier points. */
  lemma OneMoreConstant(points: seq<ConstraintPoint>, owners: seq<LinkPair>, was: seq<real>, b: seq<real>,
                        an: seq<real>, step: Step, k: nat, contacts: nat)
    requires NumberedPoints(points, contacts) && k < |points| == |owners| && step.n == |points|
    requires |was| == |b| == |an|
    requires ConstantsUpTo(points, owners, was, an, step, k)
    requires ConstantsOf(points[k], owners[k].connected, owners[k].restitution, b, an, step)
    requires forall l | 0 <= l < |b| && !RowsOf(points[k], owners[k].connected, step.n, l) :: b[l] == was[l]
    ensures ConstantsUpTo(points, owners, b, an, step, k + 1)
  {
    hide ConnectionConstant, ContactConstant, FrictionConstant;
    assert NumberedPoint(points, contacts, k);
    forall i | 0 <= i < k
      ensures ConstantsOf(points[i], owners[i].connected, owners[i].restitution, b, an, step)
    {
      assert NumberedPoint(points, contacts, i);
      assert ConstantsOf(points[i], owners[i].connected, owners[i].restitution, was, an, step);
      if !owners[i].connected {
        assert FrictionSet(points[i], 0, was, an, step) && FrictionSet(points[i], 1, was, an, step);
        forall l | 0 <= l < 2 ensures FrictionSet(points[i], l, b, an, step) {
          assert FrictionSet(points[i], l, was, an, step);
        }
      }
    }
  }

  lemma ThinnedStart(reported: seq<CollisionPoint>, thresh: real)
    ensures Thinned([], [], thresh)
  {}

  lemma ThinnedStep(kept: seq<ConstraintPoint>, more: seq<ConstraintPoint>, reported: seq<CollisionPoint>,
                    c: CollisionPoint, thresh: real)
    requires Thinned(kept, reported, thresh)
    requires if Crowded(kept, c.position, thresh) then more == kept else OneMore(kept, more, c.position)
    ensures Thinned(more, reported + [c], thresh) && more != []
  {
    hide Apart, AllReported, Covered;
    assert kept <= more;
    ApartStep(kept, more, c.position, thresh);
    ReportedStep(kept, more, reported, c);
    CoveredStep(kept, more, reported, c, thresh);
  }

  lemma PositionOf(at: Surroundings, c: CollisionPoint)
    ensures forall g, f :: ContactOf(at, c, g, f).point == c.position && ContactOf(at, c, g, f).numFrictionVectors == 2
    ensures forall g, f :: ContactOf(at, c, g, f).globalIndex == g && ContactOf(at, c, g, f).globalFrictionIndex == f
  {}

  lemma ImpactStep(kept: seq<ConstraintPoint>, more: seq<ConstraintPoint>)
    requires |more| == |kept| + 1 && more[..|kept|] == kept
    ensures AnyImpact(more) <==> AnyImpact(kept) || Impact(more[|kept|])
  {
    hide Impact;
    assert forall i | 0 <= i < |kept| :: more[i] == kept[i];
  }

  lemma MadeStep(kept: seq<ConstraintPoint>, more: seq<ConstraintPoint>, at: Surroundings,
                 reported: seq<CollisionPoint>, c: CollisionPoint)
    requires AllMade(kept, at, reported) && kept <= more
    requires more == kept || (|more| == |kept| + 1 && exists g, f :: more[|kept|] == ContactOf(at, c, g, f))
    ensures AllMade(more, at, reported + [c])
  {
    hide ContactOf;
    var all := reported + [c];
    PositionOf(at, c);
    forall i | 0 <= i < |more| ensures Made(more[i], at, all) {
      if i < |kept| {
        assert Made(kept[i], at, reported);
        var j :| 0 <= j < |reported|
          && kept[i] == ContactOf(at, reported[j], kept[i].globalIndex, kept[i].globalFrictionIndex);
        assert all[j] == reported[j];
      } else {
        assert all[|reported|] == c;
      }
    }
  }

  lemma ApartStep(kept: seq<ConstraintPoint>, more: seq<ConstraintPoint>, position: Vec3, thresh: real)
    requires Apart(kept, thresh) && kept <= more
    requires more == kept || (!Crowded(kept, position, thresh) && OneMore(kept, more, position))
    ensures Apart(more, thresh)
  {
    hide Near;
  }

  lemma ReportedStep(kept: seq<ConstraintPoint>, more: seq<ConstraintPoint>, reported: seq<CollisionPoint>,
                     c: CollisionPoint)
    requires AllReported(kept, reported) && kept <= more
    requires more == kept || OneMore(kept, more, c.position)
    ensures AllReported(more, reported + [c])
  {
    var all := reported + [c];
    forall i | 0 <= i < |more| ensures Reported(all, more[i].point) {
      if i < |kept| {
        assert Reported(reported, kept[i].point);
        var j :| 0 <= j < |reported| && reported[j].position == kept[i].point;
        assert all[j] == reported[j];
      } else {
        assert all[|reported|] == c;
      }
    }
  }

  lemma CoveredStep(kept: seq<ConstraintPoint>, more: seq<ConstraintPoint>, reported: seq<CollisionPoint>,
                    c: CollisionPoint, thresh: real)
    requires Covered(kept, reported, thresh) && kept <= more
    requires Kept(more, c.position) || Crowded(more, c.position, thresh)
    ensures Covered(more, reported + [c], thresh)
  {
    hide Near;
    forall j | 0 <= j < |reported|
      ensures Kept(more, reported[j].position) || Crowded(more, reported[j].position, thresh)
    {
      if Kept(kept, reported[j].position) {
        var i :| 0 <= i < |kept| && kept[i].point == reported[j].position;
        assert more[i] == kept[i];
      } else {
        var k :| 0 <= k < |kept| && Near(kept[k].point, reported[j].position, thresh);
        assert more[k] == kept[k];
      }
    }
  }
}
