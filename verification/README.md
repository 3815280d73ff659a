# Proofs for the OpenHRP core library

This project models the numerical and combinatorial core of `hrplib` in Dafny and proves what that core is
for. Six parts are covered, each from the data structures of the original up to its main promise:

1. **Articulated-body forward dynamics.** The three phases over the link tree, in one piece and split in two,
   leave accelerations that satisfy the Newton-Euler balance at every link of every tree; inverse dynamics
   undoes them; and for a body whose links have mass no joint divides by zero.
2. **The constraint force solver.** One frame, from culled contact points to the solved forces: which rows each
   contact gets, which links the outbound pass may skip, why a test force needs only one walk to the root, why the
   matrix that is measured that way is symmetric, what the projected Gauss-Seidel iteration reaches, and that the
   forces, put on the links, make forward dynamics move the contacts as the constants of the rows ask.
3. **Path planning.** Sampled motions, a strided collision check, random trees, a roadmap with depth-first
   search, shortening, and the claim that the final interpolated path is collision-free.
4. **Link tree traversal.** Traversal from any base link, forward kinematics up and down, and path search.
5. **Bounding-volume trees.** Branch and bound over two trees against the minimum over all pairs of primitives,
   and the box counts per depth.
6. **Mesh and scene text.** Ear clipping, the conversion of polygon faces to triangles, and writing and reading
   back VRML97 (ISO/IEC 14772-1:1997, section 6.23 for IndexedFaceSet and Annex A for the grammar).

Classes with fields that the original updates in place are Dafny classes, and its loops are loops: each method is
proved against a function or predicate over values, and the theorems are about those. Modules follow the source
files; a long function of the original is split into methods for the parts of its body. `LinearAlgebra`, `Roots`,
`Sums`, `Counting` and `Rotation` hold what several parts need.

Arithmetic is over exact reals and unbounded integers. Square roots, Rodrigues matrices and the 6x6 solver are
function parameters with stated contracts (`IsSqrt`, `Orthogonal`, `SolvedExactly` and `Exact`), and of the exponential
`IsExp` says what is used; the flatness test of a corner, primitive distances, collision tests of a configuration and
the random samples are parameters without any. Links are numbered so that a parent comes before its children, which is
the order `Body::updateLinkTree` (hrplib/hrpModel/Body.cpp:208-250) produces.

## Findings

What the proofs show to be otherwise than one would expect of the code. Each is stated exactly.

- The contact solver is meant to oppose sliding, but a contact can slide with friction that is not along its
  residual (`ContactEnergy.SolvedButAskew` gives the numbers). For a given matrix, friction limits and contact it
  is along the residual, whatever the rest of the problem, if and only if the two friction rows of the contact have
  the same diagonal entry or its friction coefficient is zero (`ContactEnergy.FrictionOpposesIff`).
- `OmniWheel` lets a mobility declare its motions reversible. With a joint that turns without bound and is to turn by
  exactly half a turn, the way back goes round the other side (`Mobility.UnboundedMayBeDishonest`). For each pair of
  configurations, reachability is the same both ways under all obstacles if and only if no unbounded joint turns by
  exactly half a turn or the two ends are the only samples (`Mobility.BothWaysIff`); a reversible mobility is right
  about all motions if and only if this holds of all pairs (`Mobility.HonestIff`). That is so exactly of the spaces
  without unbounded joints, or whose half turns with nothing else to move are all too short for a sample in between
  (`HalfTurns.HonestSpaceIff`).
- `ColdetModelSharedDataSet::build` never clears its counts. The counts are right if and only if nothing had been
  counted before (`ColdetModels.ColdetModelSharedDataSet.Build`); a second build adds to them.
- Colours or normals given one per face may be too few. `remapDirectMapObjectsPerFaces` notices, but its answer is
  dropped and success is reported (`TriangleMeshShapers.SuccessWithoutColors` gives a face set). The values are
  carried over if and only if no face that has no value is cut into triangles
  (`TriangleMeshShapers.TriangleMeshShaper.TooFewIff`); as many values as faces always suffice.
- An index out of range is passed over, and shifts the positions of all later indices of its face. The corners of a
  face keep their positions if and only if no index in range follows one out of range
  (`TriangleMeshShapers.KeptInPlaceIff`; `TriangleMeshShapers.OutOfRangeShifts` gives a face).
- The writer prints a face set that is a direct child of a group, and the parser refuses the whole group
  (`VrmlRoundTrip.FaceSetAsChildIsRefused`). What is written is read back if and only if every node is where the
  parser wants its kind and no rotation axis is shorter than 1e-6, and it is read back as it was if and only if,
  besides, the writer had nothing to omit and rotation axes have unit length (`VrmlRoundTrip.WriteThenRead`).
- Clearing the singular rows of the contact matrix clears columns only. The result is symmetric if and only if the
  singular rows were zero against the others already (`SingularRows.ClearedSymmetricIff`; `SingularRows.ClearedAskew`
  gives a matrix).
- In `calcForwardKinematics` the arm between two links turns with the parent only at rotational joints. At the others
  the child has the velocity of a rigid body if and only if the parent's rotation leaves the arm where it is
  (`ForwardKinematics.RigidVelocityIff`). At rotational joints the acceleration of an edge that is crossed upward is
  taken with the motion of the child instead of the parent's; the two agree if and only if both links swing the arm
  alike (`ForwardKinematics.EitherWayIff`).
- Shortening may leave a waypoint that its neighbours could pass by (`Waypoints.SpareWaypointLeft` gives a path): a
  later waypoint that is dropped can open a way past an earlier one that was kept. None is left, over whatever of the
  waypoints the path leads, if and only if no four of them make a detour (`Shortcuts.TightIff`).
- With an iteration limit of -10 or less the contact solver does nothing at all
  (`GaussSeidelSolver.SolveMCPByProjectedGaussSeidel`).

Choices of the code that the model keeps and that a reader may trip over: the collision check of a path needs a path
with at least one configuration (on an empty one the original wraps around and divides by zero); a path of a single
waypoint is returned without any collision check; polygon indices after the last negative one are dropped; the result
of `setTexCoordIndex` is not looked at; a bounding box with a negative first size is not written; and the parser keeps
the first of two nodes defined under one name.

## Model

| member | source | states |
|---|---|---|
| `RigidLinks.PlaceLink` | hrplib/hrpModel/ForwardDynamicsABM.cpp:230-268 | a link is placed against its parent as its joint type says, and its spatial velocity is its parent's plus the joint rate along its axis; what that makes of its motion is the matter of `RigidMotion.MovesRigidly` |
| `RigidLinks.SetRigidTerms` | hrplib/hrpModel/ForwardDynamicsABM.cpp:271-300 | the inertia blocks are the rigid inertia about the world origin, and the bias is the rate at which the velocity carries the momentum along, less gravity |
| `RigidLinks.RigidMomentum` | hrplib/hrpModel/ForwardDynamicsABM.cpp:290-292 | the rigid inertia applied to the velocity is the momentum P, L of the source |
| `RigidLinks.CalcABMPhase1` | hrplib/hrpModel/ForwardDynamicsABM.cpp:221-302 | after the pass every link of the tree is placed, moves and has its rigid terms relative to its parent's final state, and the root is where it was |
| `RigidMotion.Phase1MovesRigidly` | hrplib/hrpModel/ForwardDynamicsABM.cpp:221-302 | after the pass the origin of every link moves as a point of its parent, and slides along the joint's direction at slide joints only; it turns with its parent, and at rotational joints by the joint rate about the joint axis besides |
| `RigidMotion.MovesRigidly` | hrplib/hrpModel/ForwardDynamicsABM.cpp:230-268 | the same for one link, from the terms of the pass alone: its linear velocity is its parent's plus the parent's rotation across the arm, plus the slide |
| `RigidMotion.AcceleratesRigidly` | hrplib/hrpModel/ForwardDynamicsABM.cpp:230-268 | with the link acceleration of the outbound pass the origin accelerates as a point of a rigid parent does, swing included, with the slide's own and its Coriolis part at slide joints |
| `RigidMotion.RelativePose` | hrplib/hrpModel/ForwardDynamicsABM.cpp:230-268 | seen from its parent a link is at its offset, slid along its joint's direction or turned by the joint's matrix |
| `RigidMotion.HingeKeepsAxis` | hrplib/hrpModel/ForwardDynamicsABM.cpp:230-250 | turning a rotational joint leaves its axis where it is |
| `RigidMotion.RigidForce` | hrplib/hrpModel/ForwardDynamicsABM.cpp:271-300 | the force that the rigid terms ask for is Newton's and Euler's: mass times the acceleration of the mass centre less gravity, and the rate of the angular momentum about it |
| `RigidMotion.CalcABMFirstHalf` | hrplib/hrpModel/ForwardDynamicsABM.cpp:54-58 | both passes that need no forces leave sound bodies ready for the second half, and every link moving with its parent |
| `RigidMotion.CalcABM` | hrplib/hrpModel/ForwardDynamicsABM.cpp:47-66 | the whole computation, from positions, rates and masses: every link then accelerates with its parent and by its joint, and the forces through the joints obey Newton and Euler |
| `RigidLinks.Phase1Prepares` | hrplib/hrpModel/ForwardDynamicsABM.cpp:221-302 | the pass leaves symmetric inertias and no cross term at fixed joints, which the dynamics passes need |
| `RigidLinks.Phase1MakesRegular` | hrplib/hrpModel/ForwardDynamicsABM.cpp:221-354 | for positive masses and tensors, real axes and an orthogonal root attitude, the inbound pass that follows divides by no zero |
| `RigidLinks.RigidPositive` | hrplib/hrpModel/ForwardDynamicsABM.cpp:275-288 | the rigid inertia of a link with mass is positive definite |
| `Rotation.RodriguesOrthogonal` | hrplib/hrpUtil/Eigen3d.cpp:19-57 | the matrix built for a unit axis is orthogonal: its transpose undoes it from either side |
| `Rotation.RodriguesRotates` | hrplib/hrpUtil/Eigen3d.cpp:19-57 | it keeps its axis, and turns what is across the axis by its angle, the right way round |
| `PositiveInertia.MassiveIsRegular` | hrplib/hrpModel/ForwardDynamicsABM.cpp:313-351 | positive link inertias make dd non-zero at every moving joint of every tree |
| `PositiveInertia.ArticulatedPositive` | hrplib/hrpModel/ForwardDynamicsABM.cpp:313-351 | articulated inertias stay positive definite inward, and dd is positive |
| `ForwardDynamicsABM.CalcABMPhase2` | hrplib/hrpModel/ForwardDynamicsABM.cpp:305-354 | the index loop leaves every link in the state that the tree recursion gives, from the states before |
| `ForwardDynamicsABM.CalcABMPhase2Part1` | hrplib/hrpModel/ForwardDynamicsABM.cpp:358-393 | the part that needs no forces leaves every link as its own recursion gives |
| `ForwardDynamicsABM.CalcABMPhase2Part2` | hrplib/hrpModel/ForwardDynamicsABM.cpp:397-424 | the part that needs forces leaves every link as its own recursion gives |
| `SplitPasses.HalvesAgree` | hrplib/hrpModel/ForwardDynamicsABM.cpp:358-424 | the two parts leave every field of every link as the single pass does with the torques and external forces supplied in between |
| `ForwardDynamicsABM.CalcABMPhase3` | hrplib/hrpModel/ForwardDynamicsABM.cpp:427-470 | joint rates and accelerations outward from the root are those of the recursion, with the root solved or at rest by its type |
| `ArticulatedBody.NewtonEuler` | hrplib/hrpModel/ForwardDynamicsABM.cpp:305-470 | under the accelerations of the two passes every joint of every tree is balanced: links move only as joints allow and moving joints do the commanded torque; the root carries no force exactly when its six equations are solved |
| `ArticulatedBody.LinkBalance` | hrplib/hrpModel/ForwardDynamicsABM.cpp:313-342 | each link's transmitted force is its articulated inertia times its acceleration plus its articulated bias |
| `ArticulatedBody.InboundSymmetric` | hrplib/hrpModel/ForwardDynamicsABM.cpp:314-327 | rank-one updates keep articulated inertias symmetric |
| `ForwardDynamicsABM.CalcABMPhases2And3` | hrplib/hrpModel/ForwardDynamicsABM.cpp:305-470 | after the loops the accelerations stored in the links satisfy Newton-Euler for the states before them, and a free root carries no force |
| `ForwardDynamicsABM.CalcABMLastHalf` | hrplib/hrpModel/ForwardDynamicsABM.cpp:61-65 | the same for the second part and the outbound pass, when the first part ran earlier and forces and torques were replaced since; the accelerations are those of the recursion |
| `InverseDynamics.CalcInverseDynamics` | hrplib/hrpModel/ForwardDynamicsCBM.cpp:552-583 | the recursion over child and sibling returns the forces that the link and its later siblings need, sets accelerations and torques on their branches, and touches no other link |
| `InverseDynamics.InverseUndoesForward` | hrplib/hrpModel/ForwardDynamicsCBM.cpp:552-583 | from the joint rates of forward dynamics it finds the same accelerations and, at every moving joint, the commanded torque less what the rotor absorbs |
| `ConstraintForces.InitABMForceElementsWithNoExtForce` | hrplib/hrpModel/ConstraintForceSolver.cpp:1165-1202 | every link's data hold the bias and joint term that the second part of the inbound pass computes |
| `ConstraintForces.CalcABMForceElementsWithTestForce` | hrplib/hrpModel/ConstraintForceSolver.cpp:1205-1228 | the walk pays each joint on the path what the force owes it, pays no other joint, and adds what arrives at the root |
| `TestForce.WalkMatchesRerun` | hrplib/hrpModel/ConstraintForceSolver.cpp:1205-1228 | rerunning the whole pass with the force on one link changes every bias and joint term by exactly what the walk computes |
| `TestForce.ForcesSuperpose` | hrplib/hrpModel/ConstraintForceSolver.cpp:1116-1123 | two test forces on one body change every bias and joint term by the sum of their changes |
| `SkipNumbers.MarkToRoot` | hrplib/hrpModel/ConstraintForceSolver.cpp:1014-1022 | the loop that breaks at a lower number still lowers every link up to the root |
| `SkipNumbers.SetAccelCalcSkipInformation` | hrplib/hrpModel/ConstraintForceSolver.cpp:994-1025 | every link's number is the least first constraint index over its subtree |
| `SkipNumbers.LeastIsMinimum` | hrplib/hrpModel/ConstraintForceSolver.cpp:1006-1024 | that least index is below no constraint in the subtree and is one of them, if there is any |
| `SkippingPass.CalcAccelsABM` | hrplib/hrpModel/ConstraintForceSolver.cpp:1231-1289 | links that are not skipped get the accelerations of the full pass and their joint term back; skipped links keep everything |
| `SkippingPass.ConstrainedAreReached` | hrplib/hrpModel/ConstraintForceSolver.cpp:994-1025 | a link with a constraint is never skipped, and numbers grow outward |
| `SkippingPass.ApplyTestForce` | hrplib/hrpModel/ConstraintForceSolver.cpp:1116-1123 | one test force gives every link that is not skipped the acceleration of a complete rerun with it, and every joint term is restored |
| `SkippingPass.ApplyTestForcePair` | hrplib/hrpModel/ConstraintForceSolver.cpp:1103-1125 | the two forces of a pair within one body, walked one after the other before one pass, give the accelerations of a rerun with both |
| `Reciprocity.Reciprocal` | hrplib/hrpModel/ConstraintForceSolver.cpp:1082-1162 | the work of one set of forces along the motion another causes is the work of the other along the motion of the first |
| `Reciprocity.ReciprocalLinks` | hrplib/hrpModel/ConstraintForceSolver.cpp:1082-1162 | the response of one link to a force on another equals the response of the other to a force on the first |
| `Reciprocity.ResponseYields` | hrplib/hrpModel/ConstraintForceSolver.cpp:1082-1162 | forces never work against the motion they cause, and do no work only when no link moves |
| `Reciprocity.AddedForcesRespond` | hrplib/hrpModel/ForwardDynamicsABM.cpp:305-470 | what the passes give with added forces less what they give without is the response to those forces |
| `ConstraintMatrix.EntriesReciprocal` | hrplib/hrpModel/ConstraintForceSolver.cpp:1354-1386 | one row answers the force of another, over any bodies, as the other answers the force of the first |
| `ConstraintMatrix.MeasuredIsSymmetric` | hrplib/hrpModel/ConstraintForceSolver.cpp:1082-1162 | a measured matrix is symmetric; where all links have mass it has no negative diagonal entry, and a zero one exactly where the row's force moves nothing |
| `AccelerationMatrix.MeasuredAt` | hrplib/hrpModel/ConstraintForceSolver.cpp:1231-1289 | the data of a link that is not skipped hold its default acceleration plus the response to the test forces |
| `AccelerationMatrix.ExtractRelAccel` | hrplib/hrpModel/ConstraintForceSolver.cpp:1354-1445 | in all three cases of tested and untested bodies the entry is the work of the row's unit force along the change of motion |
| `AccelerationMatrix.ApplyRow` | hrplib/hrpModel/ConstraintForceSolver.cpp:1103-1125 | the moving bodies of the row, and no others, are flagged and accelerate as under its force, and all bodies are at rest for the next one |
| `AccelerationMatrix.SetDefaultAccelerationVector` | hrplib/hrpModel/ConstraintForceSolver.cpp:1028-1079 | bodies are brought to rest and every direction gets its default relative acceleration, bodies that cannot move contributing none |
| `AccelerationMatrix.SetAccelerationMatrix` | hrplib/hrpModel/ConstraintForceSolver.cpp:1082-1162 | every entry holds what its column's force does to its row, and the matrix is symmetric, whatever the masses; where all links have mass it has no negative diagonal entry, and a zero one exactly where the force moves nothing |
| `AccelerationMatrix.MassiveIsTaken` | hrplib/hrpModel/ConstraintForceSolver.cpp:1082-1162 | bodies whose links all have mass can be measured: no joint divides by zero and the root can be solved |
| `ContactIndices.ContactSolver.SetContactConstraintPoints` | hrplib/hrpModel/ConstraintForceSolver.cpp:724-832 | kept points are reported, pairwise apart and near every dropped one; they get consecutive rows and two friction rows each, the velocity of one side seen from the other, crawler tracks included, the coefficient and the friction directions that follow from it, and an impact is noted exactly if one approaches fast enough |
| `ContactIndices.ContactFaces` | hrplib/hrpModel/ConstraintForceSolver.cpp:755-832 | for a normal of length one the velocity of a contact is the approach along the normal and the slip across it, the slip alone chooses the coefficient, and the friction directions are unit vectors across the normal and each other |
| `ContactIndices.ContactMoves` | hrplib/hrpModel/ConstraintForceSolver.cpp:755-790 | without crawlers it is the velocity of the point of one link less that of the other, and zero between links that move alike |
| `ContactIndices.ContactSolver.SetConnectionConstraintPoints` | hrplib/hrpModel/ConstraintForceSolver.cpp:879-922 | a connection gets a point for each axis with consecutive rows and the axis's share of offset and velocity, unless its ends are too far apart, and then nothing changes |
| `ContactIndices.AxisOffset` | hrplib/hrpModel/ConstraintForceSolver.cpp:879-922 | twice the depth of a connection's point is how far its second end is ahead of the first along the axis, and its velocity how fast that gets less |
| `FrictionVectors.SetFrictionVectors` | hrplib/hrpModel/ConstraintForceSolver.cpp:836-876 | for a normal that is not zero the two friction directions have length one and are across the normal and each other |
| `ContactIndices.ContactSolver.SetConstraintPoints` | hrplib/hrpModel/ConstraintForceSolver.cpp:630-721 | contact i is row i and owns friction rows 2i and 2i+1; connections follow; a pair takes part exactly if a collision was reported for it, a connection exactly if its ends are close |
| `ContactIndices.ContactSolver.SetConstantVectorAndMuBlock` | hrplib/hrpModel/ConstraintForceSolver.cpp:1500-1571 | every row of every pair gets its constant from its default acceleration, velocity, depth and restitution, none is overwritten, and the tables give each contact its coefficient and each friction row its contact; what solving with them achieves is `AfterStep.SolvedAchieves` |
| `AfterStep.SolvedBounces` | hrplib/hrpModel/ConstraintForceSolver.cpp:1533-1544 | the row of a contact whose forces are solved: after the step the contact approaches no faster than restitution and recovery from penetration allow, and parts at exactly that speed where it pushes |
| `AfterStep.SolvedCloses` | hrplib/hrpModel/ConstraintForceSolver.cpp:1519-1531 | the row of a connection whose forces are solved: after the step its offset shrinks, at a speed below a tenth, and not at all if there is none |
| `AfterStep.SolvedResists` | hrplib/hrpModel/ConstraintForceSolver.cpp:1548-1558 | the friction rows of a contact whose forces are solved: after the step it does not slide, or its friction is as large as its cone allows and against the sliding, each component weighed by its diagonal entry |
| `AfterStep.SolvedAchieves` | hrplib/hrpModel/ConstraintForceSolver.cpp:1500-1571 | all of this for all rows of a problem that is solved with these constants |
| `ContactIndices.ContactSolver.SetRows` | hrplib/hrpModel/ConstraintForceSolver.cpp:545-602 | over any sequence of frames the tables and the forces fit the frame, although they are only resized when the number of rows changes |
| `ContactFrame.SolveFrame` | hrplib/hrpModel/ConstraintForceSolver.cpp:531-627 | one frame as a whole: the rows pose a problem with the measured matrix less its singular rows, the constants over the measured default accelerations and each contact's own coefficient; the forces are feasible, and if the last check reports no error they solve it, so that contacts bounce, connections close and sliding stops or is resisted; put on the links, they move every row by its default acceleration and its row of the measured matrix times the forces |
| `ConstraintLoads.ForceOfPair` | hrplib/hrpModel/ConstraintForceSolver.cpp:1588-1618 | the loops over points and friction directions sum the force on one end and its torque around the world origin: of every direction its share of the solution |
| `ConstraintLoads.AddConstraintForceToLinks` | hrplib/hrpModel/ConstraintForceSolver.cpp:1574-1630 | every link of every body gets, on top of the external force it had, its share of all directions that act on it, and links that none acts on keep theirs |
| `Superposition.Superposes` | hrplib/hrpModel/ConstraintForceSolver.cpp:1082-1162 | a row answers all the forces together by the sum of its answers to each alone, over any bodies |
| `Superposition.ForcesMove` | hrplib/hrpModel/ConstraintForceSolver.cpp:1574-1630 | with all the forces added to the links, every row's relative acceleration is its default one plus its row of the measured matrix times the forces, although the matrix was measured one force at a time |
| `WorldStep.SolveAndAccelerate` | hrplib/hrpModel/ForwardDynamicsABM.cpp:61-65 | a frame, and then the second half of forward dynamics for every body that can move: the accelerations stored in the links are those that the contact problem counted on |
| `WorldStep.LinksReach` | hrplib/hrpModel/ConstraintForceSolver.cpp:1500-1571 | for every row that no singular row disturbs, the velocity after the step that the constants aim at is the one that the accelerations of the links lead to |
| `WorldStep.ContactsBounce` | hrplib/hrpModel/ConstraintForceSolver.cpp:531-627 | so a contact of a frame without error bounces as its links really move: never approaching faster than it is to, and parting at exactly the speed asked for where it pushes |
| `MatrixRows.IndexedPlaces` | hrplib/hrpModel/ConstraintForceSolver.cpp:1092-1151 | the directions of all points fill the rows of the matrix, one each |
| `ContactProblem.SetSkipNumbers` | hrplib/hrpModel/ConstraintForceSolver.cpp:994-1025 | from the rows of the frame, no end of a row is skipped and numbers grow outward |
| `ContactProblem.MeasureMatrix` | hrplib/hrpModel/ConstraintForceSolver.cpp:572-577 | from the indexed rows alone: skip numbers, default accelerations and test forces yield the default accelerations and the symmetric matrix |
| `ContactProblem.SetUpMatrix` | hrplib/hrpModel/ConstraintForceSolver.cpp:572-579 | the solver gets the measured matrix with singular columns cleared, with a positive diagonal, and unchanged when no row is singular |
| `ContactProblem.PointOfLink` | hrplib/hrpModel/ConstraintForceSolver.cpp:1060-1068 | the velocity and acceleration taken for a point of a link are those of a rigid body's point, from those of the link's origin, the centripetal part included |
| `SingularRows.ClearSingularPointConstraintsOfClosedLoopConnections` | hrplib/hrpModel/ConstraintForceSolver.cpp:1487-1497 | in place, the columns of singular rows are cleared and marked |
| `SingularRows.ClearedIsDivisible` | hrplib/hrpModel/ConstraintForceSolver.cpp:1487-1497 | whatever the matrix, the cleared diagonal is positive |
| `SingularRows.SingularForceIsInert` | hrplib/hrpModel/ConstraintForceSolver.cpp:1487-1497 | a force on a singular row shows in no other row |
| `SingularRows.ClearedSymmetricIff` | hrplib/hrpModel/ConstraintForceSolver.cpp:1487-1497 | a symmetric matrix stays symmetric exactly when singular rows were zero against the others |
| `SingularRows.ClearedAskew` | hrplib/hrpModel/ConstraintForceSolver.cpp:1487-1497 | a symmetric matrix that is not symmetric when cleared |
| `SingularRows.ClearedActs` | hrplib/hrpModel/ConstraintForceSolver.cpp:1487-1497 | a row that is not singular acts as measured when no singular row's force shows in it |
| `GaussSeidel.PassFeasible` | hrplib/hrpModel/ConstraintForceSolver.cpp:1785-1891 | after a pass all contact normals are non-negative and each friction pair is inside the cone of its own contact |
| `McpSolution.RowStepSolves` | hrplib/hrpModel/ConstraintForceSolver.cpp:1785-1819 | one row step solves its own row, the others held: complementary for a contact, no residual for a connection, and no force on a row marked singular |
| `McpSolution.PairStepReaches` | hrplib/hrpModel/ConstraintForceSolver.cpp:1821-1889 | one step of a friction pair: where it is not clipped, each residual vanishes at its entry's new value; where it is, both entries are taken back in proportion to the cone |
| `GaussSeidelSolver.SolveMCPByProjectedGaussSeidelMain` | hrplib/hrpModel/ConstraintForceSolver.cpp:1785-1891 | the in-place loops compute the stated number of passes, of row steps and pair steps as above |
| `GaussSeidelSolver.SolveMCPByProjectedGaussSeidelErrorCheck` | hrplib/hrpModel/ConstraintForceSolver.cpp:1894-2001 | one more pass and the greatest relative change; the error is zero exactly when the forces solved the problem |
| `GaussSeidelSolver.NoChangeReported` | hrplib/hrpModel/ConstraintForceSolver.cpp:1894-2001 | no relative change is reported exactly when no entry changed |
| `McpSolution.FixedIffSolved` | hrplib/hrpModel/ConstraintForceSolver.cpp:1894-2001 | a pass changes nothing exactly when normals are complementary, connections have no residual, and friction stops sliding or opposes it on the cone, row by row weighed by the diagonal |
| `McpSolution.PairFixed` | hrplib/hrpModel/ConstraintForceSolver.cpp:1923-1975 | the same for one friction pair |
| `GaussSeidelSolver.SolveMCPByProjectedGaussSeidel` | hrplib/hrpModel/ConstraintForceSolver.cpp:1631-1666 | the result is feasible whatever the iteration count above -10, solves the problem if the last check reports no error, and is untouched otherwise |
| `GaussSeidelSolver.BlocksArePasses` | hrplib/hrpModel/ConstraintForceSolver.cpp:1631-1666 | where no row is marked, the solver makes as many blocks of passes as it was asked for, or stops after the first block whose last pass changed little |
| `ContactEnergy.RowDescends` | hrplib/hrpModel/ConstraintForceSolver.cpp:1792-1819 | for a symmetric matrix, relaxing a normal or connection row lowers the energy by at least half the diagonal times the square of the change |
| `ContactEnergy.SweepDescends` | hrplib/hrpModel/ConstraintForceSolver.cpp:1792-1819 | a sweep never raises the energy, and lowers it unless it changes nothing |
| `ContactEnergy.MainSweepDescends` | hrplib/hrpModel/ConstraintForceSolver.cpp:1792-1819 | the same for the sweep of the main loop, which heeds the mark of singular rows, when no row is marked |
| `ContactEnergy.AlongResidualIff` | hrplib/hrpModel/ConstraintForceSolver.cpp:1821-1889 | friction of a sliding contact is along the residual exactly when its diagonals agree or it acts along one axis |
| `ContactEnergy.FrictionOpposesIff` | hrplib/hrpModel/ConstraintForceSolver.cpp:1821-1889 | it is so for all solved problems with this matrix exactly when the diagonals agree or the coefficient is zero |
| `ContactEnergy.SolvedButAskew` | hrplib/hrpModel/ConstraintForceSolver.cpp:1821-1889 | a problem whose forces pass the check with friction that is not along the residual |
| `OmniWheel.ThetaLimit` | hrplib/hrpPlanner/OmniWheel.cpp:8-13 | the angle from 0 up to a full turn that differs by whole turns |
| `OmniWheel.InterpolateConfiguration` | hrplib/hrpPlanner/OmniWheel.cpp:15-34 | each degree of freedom is the given share of the way, unbounded ones by the shorter rotation |
| `OmniWheel.DistanceSymmetric` | hrplib/hrpPlanner/OmniWheel.cpp:36-50 | distance is the same both ways, unbounded joints included |
| `OmniWheel.DistanceAlongAxis` | hrplib/hrpPlanner/OmniWheel.cpp:36-50 | configurations that differ in one degree of freedom are as far apart as it is, the shorter way round if it turns without bound, by its weight |
| `OmniWheel.DistanceOnWay` | hrplib/hrpPlanner/OmniWheel.cpp:15-50 | distance along an interpolated way is proportional to the share covered, also across a full turn |
| `Mobility.GetPath` | hrplib/hrpPlanner/Mobility.cpp:26-40 | the loop yields the samples of the way, both ends included |
| `Mobility.IsReachable` | hrplib/hrpPlanner/Mobility.cpp:8-24 | true exactly when no sample collides or no check is asked for |
| `Mobility.SamplesClose` | hrplib/hrpPlanner/Mobility.cpp:26-40 | adjacent samples are closer than the interpolation distance |
| `Mobility.StepsLeast` | hrplib/hrpPlanner/Mobility.cpp:26-40 | no smaller number of steps keeps them that close |
| `Mobility.TurnsBackIff` | hrplib/hrpPlanner/Mobility.cpp:26-40 | the samples back are those there reversed exactly when no unbounded joint turns by half a turn, or there are no samples in between |
| `Mobility.BothWaysIff` | hrplib/hrpPlanner/Mobility.cpp:8-40 | reachability is the same both ways under all obstacles exactly under that condition |
| `Mobility.HonestIff` | hrplib/hrpPlanner/Roadmap.cpp:115-127 | adding the way back unchecked is right under all obstacles exactly when all pairs meet that condition |
| `HalfTurns.AllTurnBackIff` | hrplib/hrpPlanner/Mobility.cpp:26-40 | all pairs meet that condition exactly when the space holds no half turn that is long enough for a sample in between |
| `HalfTurns.HonestSpaceIff` | hrplib/hrpPlanner/Roadmap.cpp:115-127 | adding the way back unchecked is right under all obstacles exactly when that is so of the space |
| `Mobility.BoundedIsHonest` | hrplib/hrpPlanner/Roadmap.cpp:115-127 | with bounded degrees of freedom adding the way back unchecked is right |
| `Mobility.UnboundedMayBeDishonest` | hrplib/hrpPlanner/Roadmap.cpp:115-127 | half a circle where it is wrong |
| `PathCheck.CheckCollision` | hrplib/hrpPlanner/PathPlanner.cpp:697-726 | true exactly when some configuration collides; each is tested at most once, all are unless one collides, and that one is the last |
| `Roadmaps.Roadmap.AddEdge` | hrplib/hrpPlanner/Roadmap.cpp:23-28 | one child, one parent and one edge more |
| `Roadmaps.Roadmap.FindNearestNode` | hrplib/hrpPlanner/Roadmap.cpp:45-65 | the first of the nearest nodes, and none only if there is none |
| `Roadmaps.Roadmap.DFS` | hrplib/hrpPlanner/Roadmap.cpp:81-113 | a non-empty result is a route without repetition from start to goal; an empty one means that there is no route at all |
| `Roadmaps.Roadmap.TryConnection` | hrplib/hrpPlanner/Roadmap.cpp:115-127 | an edge exactly where there is a motion, and back exactly where there is one back or, with a reversible mobility, unchecked where there is one there |
| `RRTs.AdvanceCuts` | hrplib/hrpPlanner/RRT.cpp:42-44 | a step of eps towards a configuration leaves eps less to go |
| `RRTs.Extend` | hrplib/hrpPlanner/RRT.cpp:29-95 | the tree stays a tree; the answer is that of the nearest node: trapped, and unchanged, exactly if the tree is empty or there is no motion between that node and the aim, which is the configuration itself if it is within eps and eps of the way otherwise; reached exactly if there is one and it was within eps; otherwise a node is gained that is eps nearer |
| `RRTs.Connect` | hrplib/hrpPlanner/RRT.cpp:97-108 | the loop ends with the configuration as last node, or trapped, and then the nearest node of the final tree has no way on; so in free space a tree that is not empty always gets there |
| `RRTs.ExtendThenConnect` | hrplib/hrpPlanner/RRT.cpp:173-191 | the trees are joined, or the first had no way on towards the sample or the second none towards where the first got; in free space they are always joined |
| `RRTs.ClimbToRoot` | hrplib/hrpPlanner/RRT.cpp:119-125 | waypoints from a root to the last node, each leading to the next |
| `RRTs.DescendToGoal` | hrplib/hrpPlanner/RRT.cpp:127-133 | waypoints from the last node to a root, each leading to the next |
| `RRTs.RRT.CalcPath` | hrplib/hrpPlanner/RRT.cpp:140-214 | on success the path leads from the start to a goal, each waypoint reachable from the one before, the doubled meeting node included; in free space it succeeds at the first trial; it gives up only after all trials or when stopped; the final tree holds the start and all goals |
| `Waypoints.Optimize` | hrplib/hrpPlanner/ShortcutOptimizer.cpp:7-22 | what is left is what greedy shortening gives, a subsequence with both ends, and still linked if the path was |
| `Shortcuts.TightIff` | hrplib/hrpPlanner/ShortcutOptimizer.cpp:7-22 | no waypoint that its neighbours could pass by is left, over whatever of the waypoints the path leads, exactly when no four of them in turn make a detour: the first does not lead to the third, and the second leads to the fourth |
| `Waypoints.SpareWaypointLeft` | hrplib/hrpPlanner/ShortcutOptimizer.cpp:7-22 | a path on which one is left |
| `Waypoints.GetFinalPath` | hrplib/hrpPlanner/PathPlanner.cpp:777-790 | the final path leads from the first waypoint to the last; if two waypoints or more were linked, nothing on it collides and adjacent samples are close |
| `PRM.BuildRoadmap` | hrplib/hrpPlanner/PRM.cpp:20-64 | nodes at the first collision-free samples, joined exactly by the motions between near ones, whether or not the mobility is right to call itself reversible |
| `PRM.JoinEnds` | hrplib/hrpPlanner/PRM.cpp:86-97 | start and goal are joined exactly by the motions, there and back, between each of them and the nodes near it |
| `PRM.CalcPath` | hrplib/hrpPlanner/PRM.cpp:66-113 | a roadmap is built if there is none, start and goal are added and joined exactly to the nodes near them; a path found leads from start to goal over edges that were taken for motions, and is linked if the mobility is right about its way back; none found means no route over the roadmap |
| `PathPlanner.TryDirectConnection` | hrplib/hrpPlanner/Algorithm.cpp:48-59 | the two ends, exactly when the direct motion is free |
| `PathPlanner.PlanByTrees` | hrplib/hrpPlanner/PathPlanner.cpp:727-790 | with random trees, shortening and interpolation: on success a collision-free path from the start to a goal, and no failure where the direct motion is free |
| `PathPlanner.PlanByRoadmap` | hrplib/hrpPlanner/PathPlanner.cpp:727-790 | the same over a roadmap, collision-free if the mobility is right about its way back |
| `LinkTraverses.LinkTraverse.Find` | hrplib/hrpModel/LinkTraverse.cpp:51-76 | the links in the order of the recursion, and one upward connection for each link up to the root |
| `LinkTraverses.OrderVisits` | hrplib/hrpModel/LinkTraverse.cpp:59-76 | each link that is to be visited is visited exactly once, and no other |
| `LinkTraverses.OrderClimbs` | hrplib/hrpModel/LinkTraverse.cpp:59-76 | the counted steps go to the parent, and every later link comes after its parent |
| `ForwardKinematics.Upward` | hrplib/hrpModel/LinkTraverse.cpp:83-141 | placing and moving the parent from the child, accelerations included, makes the child follow from it |
| `ForwardKinematics.Downward` | hrplib/hrpModel/LinkTraverse.cpp:143-202 | the child follows from its parent, accelerations included |
| `ForwardKinematics.RigidVelocityIff` | hrplib/hrpModel/LinkTraverse.cpp:143-202 | the child moves with its parent as a rigid body would, plus the joint's own motion, exactly when the joint is rotational or the parent's rotation leaves the arm where it is |
| `ForwardKinematics.RigidAccelerationIff` | hrplib/hrpModel/LinkTraverse.cpp:143-202 | on the way down the child accelerates with its parent as a rigid body would, plus the joint's own acceleration, always at rotational and slide joints, and at others exactly when the parent's turning adds nothing at its origin |
| `ForwardKinematics.EitherWayIff` | hrplib/hrpModel/LinkTraverse.cpp:83-202 | the acceleration of an edge is the same both ways exactly when the joint is not rotational or both links swing the arm alike |
| `ForwardKinematics.CalcForwardKinematics` | hrplib/hrpModel/LinkTraverse.cpp:79-203 | every edge between visited links satisfies the same position and velocity relation, whichever way it was crossed, and the acceleration relation of the way it was crossed; the base link stays |
| `ForwardKinematics.CalcWholeTree` | hrplib/hrpModel/LinkTraverse.cpp:51-203 | from any base link, up and down, this holds of every link of the tree but the root, and the edges crossed upward are those from the base to the root |
| `LinkPaths.LinkPath.FindPathSub` | hrplib/hrpModel/LinkPath.cpp:62-94 | found exactly when the end is ahead; otherwise links and counter are restored |
| `LinkPaths.LinkPath.Find` | hrplib/hrpModel/LinkPath.cpp:50-59 | succeeds exactly when both links are in one tree, with the path between them and its number of upward steps |
| `LinkPaths.LinkPath.FindFromRoot` | hrplib/hrpModel/LinkPath.cpp:98-113 | the path from the root |
| `LinkPaths.PathUnique` | hrplib/hrpModel/LinkPath.cpp:50-94 | there is no other simple path |
| `LinkPaths.PathIsSimple` | hrplib/hrpModel/LinkPath.cpp:50-94 | the path is simple, its counted first steps go to the parent and all later ones to a child |
| `LinkPaths.Backwards` | hrplib/hrpModel/LinkPath.cpp:50-94 | the path back is the path reversed |
| `SSVTreeColliders.SSVTreeCollider.DistanceSub` | hrplib/hrpCollision/SSVTreeCollider.cpp:166-203 | the gap has a witness, is no greater than before and below that of every pair of leaves beneath |
| `SSVTreeColliders.SSVTreeCollider.Distance` | hrplib/hrpCollision/SSVTreeCollider.cpp:30-70 | the least primitive distance over all pairs of leaves, with ids and points of a pair that has it |
| `SSVTreeColliders.SSVTreeCollider.Collide` | hrplib/hrpCollision/SSVTreeCollider.cpp:205-240 | true exactly when some pair of leaves is within the tolerance, with ids of such a pair |
| `SSVTreeColliders.SSVTreeCollider.CollidesIffNear` | hrplib/hrpCollision/SSVTreeCollider.cpp:30-108 | the two agree: collision exactly when the least distance is within the tolerance |
| `ColdetModels.ColdetModelSharedDataSet.ComputeDepth` | hrplib/hrpCollision/ColdetModel.cpp:228-254 | nodes and leaves of the subtree are added to the counts of their depths, and the deepest depth returned |
| `ColdetModels.ColdetModelSharedDataSet.Build` | hrplib/hrpCollision/ColdetModel.cpp:157-186 | the counts are right exactly when nothing was counted before |
| `ColdetModels.ShownCount` | hrplib/hrpCollision/ColdetModel.cpp:204-218 | the boxes emitted at a depth are its nodes and the leaves above it |
| `ColdetModels.ShownPartition` | hrplib/hrpCollision/ColdetModel.cpp:204-218 | their subtrees hold each leaf exactly once, in order |
| `ColdetModels.ShownGrows` | hrplib/hrpCollision/ColdetModel.cpp:204-218 | deeper never shows fewer, and at full depth the leaves |
| `ColdetModels.ColdetModelSharedDataSet.LeastSufficientDepth` | hrplib/hrpCollision/ColdetModel.cpp:188-193 | the least depth that shows enough boxes, or the number of depths exactly when there are fewer leaves |
| `ColdetModels.GetBoundingBoxData` | hrplib/hrpCollision/ColdetModel.cpp:204-225 | the boxes emitted at a depth are as many as counted |
| `Triangulators.CutCorner` | hrplib/hrpUtil/Triangulator.cpp:79-82 | cutting a corner takes exactly the edges of its triangle out of the boundary |
| `Triangulators.Triangulator.CheckIfEarContainsOtherVertices` | hrplib/hrpUtil/Triangulator.cpp:110-146 | true exactly when another vertex lies in the ear, and the mask is cleared again |
| `Triangulators.Triangulator.InsideIff` | hrplib/hrpUtil/Triangulator.cpp:110-146 | a point in the plane of a corner that turns with the polygon counts as inside exactly if it is a mean of the three with positive weights |
| `Triangulators.Triangulator.FindEar` | hrplib/hrpUtil/Triangulator.cpp:59-75 | the first corner that is flat, or turns with the polygon and has no other corner inside, every earlier one being neither |
| `Triangulators.Triangulator.Apply` | hrplib/hrpUtil/Triangulator.cpp:20-86 | triangles, flat ears and what is left cancel to the polygon's boundary and every ear is a vertex of its own; every triangle turns the way of the polygon's area vector, which the sum of cross products is; run to the end they number n-2, otherwise every corner that is left turns against it or has another inside; a convex polygon is always cut to the end |
| `Triangulators.Triangulator.ConvexNotStuck` | hrplib/hrpUtil/Triangulator.cpp:20-86 | of a convex polygon some corner can always be cut |
| `Triangulators.AreasAddUp` | hrplib/hrpUtil/Triangulator.cpp:20-86 | area vectors of triangles and flat ears add up to ccs when the polygon is cut up |
| `TriangleMeshShapers.TriangleMeshShaper.ConvertFaces` | hrplib/hrpUtil/TriangleMeshShaper.cpp:265-318 | the faces ended by a negative index lie one after the other, each cut as its own polygon as far as its corners allow, and indices, positions and face numbers are those of the cut |
| `TriangleMeshShapers.OutputGrouped` | hrplib/hrpUtil/TriangleMeshShaper.cpp:299-310 | the output is groups of three indices and -1 |
| `TriangleMeshShapers.OutputTurns` | hrplib/hrpUtil/TriangleMeshShaper.cpp:283-312 | the triangles go round as the corners of their faces do if those are counter-clockwise, and the other way round if not |
| `TriangleMeshShapers.CornersKeepIndices` | hrplib/hrpUtil/TriangleMeshShaper.cpp:265-318 | with indices in place every corner reads the coordinate index of the polygon corner it was |
| `TriangleMeshShapers.TrianglesKeepFaces` | hrplib/hrpUtil/TriangleMeshShaper.cpp:265-318 | every triangle is listed with the face it was cut from |
| `TriangleMeshShapers.KeptInPlaceIff` | hrplib/hrpUtil/TriangleMeshShaper.cpp:292-314 | the indices of a face keep their positions exactly when none in range follows one out of range |
| `TriangleMeshShapers.OutOfRangeShifts` | hrplib/hrpUtil/TriangleMeshShaper.cpp:292-314 | a face whose indices do not keep their positions |
| `TriangleMeshShapers.TriangleMeshShaper.RemapDirectMapObjectsPerFaces` | hrplib/hrpUtil/TriangleMeshShaper.cpp:345-361 | values follow their faces, unless there are too few, which is reported |
| `TriangleMeshShapers.TriangleMeshShaper.CheckAndRemapIndices` | hrplib/hrpUtil/TriangleMeshShaper.cpp:364-432 | success exactly when indices and numbers fit; then values are carried over unless there are too few per face, and never if there are |
| `TriangleMeshShapers.TriangleMeshShaper.SetTexCoordIndex` | hrplib/hrpUtil/TriangleMeshShaper.cpp:435-466 | texture coordinates in range follow their corners, or the coordinate indices when they have none |
| `TriangleMeshShapers.TriangleMeshShaper.ConvertIndexedFaceSet` | hrplib/hrpUtil/TriangleMeshShaper.cpp:265-342 | all of this for the face set in place: coordinates, colours, normals, texture coordinates and flipped orientation; when it reports success; that too few values are never carried over, and that a value for every face is enough |
| `TriangleMeshShapers.TriangleMeshShaper.TooFewIff` | hrplib/hrpUtil/TriangleMeshShaper.cpp:345-361 | values per face are too few exactly when a face beyond them is cut into triangles |
| `TriangleMeshShapers.SuccessWithoutColors` | hrplib/hrpUtil/TriangleMeshShaper.cpp:380-393 | a face set on which success is reported and the colours are not carried over |
| `VrmlWriters.VrmlWriter.WriteNodeIter` | hrplib/hrpUtil/VrmlWriter.cpp:133-298 | the output grows by the printed form of the node, or by nothing for a kind it does not know, and the indent is restored |
| `VrmlWriters.VrmlWriter.WriteMFInt32SeparatedByMinusValue` | hrplib/hrpUtil/VrmlWriter.cpp:68-87 | all indices, in order, whatever the line breaks |
| `VrmlParsers.VrmlParserImpl.ReadNode` | hrplib/hrpUtil/VrmlParser.cpp:502-599 | in front of a printed node: accepted exactly when it is where its kind belongs, and then read back with its name, and nothing more consumed |
| `VrmlParsers.VrmlParserImpl.ReadSpecificNode` | hrplib/hrpUtil/VrmlParser.cpp:602-679 | the fields of one node, accepted exactly when every value is, set over the defaults |
| `VrmlParsers.VrmlParserImpl.ReadMFNode` | hrplib/hrpUtil/VrmlParser.cpp:2500-2526 | a printed list of nodes, accepted exactly when each is |
| `VrmlParsers.VrmlParserImpl.ReadMFInt32` | hrplib/hrpUtil/VrmlParser.cpp:2146-2164 | a printed list of integers is read back |
| `VrmlParsers.VrmlParserImpl.ReadMFVec3f` | hrplib/hrpUtil/VrmlParser.cpp:2277-2295 | a printed list of vectors is read back |
| `VrmlParsers.VrmlParserImpl.ReadSFRotation` | hrplib/hrpUtil/VrmlParser.cpp:2321-2348 | a printed rotation is accepted exactly when its axis is not too short, and its axis normalised |
| `VrmlRoundTrip.FaithfulIsSame` | hrplib/hrpUtil/VrmlWriter.cpp:133-298 | where the writer omits nothing and axes have unit length, the node read is the node written |
| `VrmlFaithful.SameIsFaithful` | hrplib/hrpUtil/VrmlWriter.cpp:133-298 | and no other node is read back as it was written |
| `VrmlRoundTrip.FaceSetAsChildIsRefused` | hrplib/hrpUtil/VrmlParser.cpp:1063-1088 | a group with a face set as child is refused |
| `VrmlRoundTrip.WriteThenRead` | hrplib/hrpUtil/VrmlParser.cpp:502-679 | writing and reading any tree succeeds exactly when its nodes are in place, and gives the same tree up to what the writer omits: exactly the same one if and only if the writer omits nothing and axes have unit length |

## Left out

- Rounding, overflow and the finite range of floating point; integer widths, except that constraint indices must stay
  below the largest int, which marks a link without constraints.
- `ForwardDynamicsMM`'s mass matrix and its unknown accelerations, Runge-Kutta and Euler integration, and force sensors.
- Friction modes other than two static constraints per contact (the compile-time settings at
  hrplib/hrpModel/ConstraintForceSolver.cpp:56-76), the pivoting solver, and the initial iterations that are off by
  default.
- The random turn of the friction directions, which is off by default.
- The nested loops over pairs, points and directions in `setAccelerationMatrix` run over the list of all directions.
- Bodies moved by `ForwardDynamicsMM` in the constraint solver, and the symmetric-matrix shortcut that is switched off.
- `ContactFrame.SolveFrame`: the velocities, tracks and poses of the links and the reported collisions are given with
  the frame, and the list of single forces that is kept for display is not.
- Where `GaussSeidelSolver` ends with a small error that is not zero nothing is said beyond feasibility.
- The random stream of the planners is any function or list of configurations, and stopping from outside is any answer.
- `RRTs.RRT.CalcPath`: needs fresh trees and a positive eps, as the constructor leaves them.
- `Roadmap::integrate` with its edge count, the TGT mobility and the random shortcut optimizer.
- The volume distance of `SSVTreeCollider` is any function that is a lower bound for the leaves beneath; LSS pairs use
  their sphere distance as the code does. Opcode trees are values.
- Negative depths, neighbour tables and primitive parameters in `ColdetModel`.
- The flatness threshold in `calcConvexity`, normal generation, primitive shapes, extrusion and texture mapping.
- `TriangleMeshShapers.TriangleMeshShaper.ConvertIndexedFaceSet`: needs index lists that are long enough; on shorter
  ones the original reads past their end.
- Reading PROTO, USE, ROUTE, Inline, Script and other node kinds; the parser of the model answers with an error there.
  The scanner and number formatting: the text is a list of tokens.
- The field readers of the seven node kinds are one table of field types and setters.
- CORBA services, plug-ins, files, images and sample scripts.
