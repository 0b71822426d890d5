# OpenVRML: geometry kernel, event cascade and embedded browser protocols

This project models, in Dafny 4.11, those parts of OpenVRML whose correctness is
not visible from any single function, and proves what they keep, undo and
preserve:

- **Bounding spheres and culling.** `Balls.dfy` has the mathematics of balls
  (what it means for one to cover another, how one grows by a point or by
  another ball, and that no smaller ball would do), `Enclosure.dfy` the sphere
  around a list of points, `BallTransforms.dfy` what a matrix does to a ball,
  `Frustum.dfy` and `Culling.dfy` the view volume and its planes, and
  `BoundingSphere.dfy` the mutable sphere that uses them all.
- **Transform nodes.** `TransformNode.dfy` is the scene-graph node with its cached
  matrix and bounding sphere, from field event to culling decision
  (`src/node/vrml97/transform.cpp:597-719`; the table cites what it shares with all
  grouping nodes and what it calls); `TransformSpheres.dfy` says exactly when that
  decision can be trusted, and `HiddenPoint.dfy` how it fails otherwise.
- **Matrices, rotations and quaternions.** `Vectors.dfy`, `Matrices.dfy`,
  `AffineInverse.dfy`, `TransformBuilder.dfy`, `Quaternions.dfy`,
  `MatrixToQuaternion.dfy`, `AxisQuaternions.dfy`, `RotationBetween.dfy`,
  `Slerp.dfy`, `Decomposition.dfy` and `RoundTrip.dfy`.
- **Colours and images.** `Hsv.dfy` and `Image.dfy`, over the bytes of `Bytes.dfy`.
- **The event cascade.** `EventCascade.dfy`: fields that pass events on to each
  other over a graph of routes.
- **The stream protocol and host lifetime.** `StreamProtocol.dfy` is the protocol
  by which downloads are handed to a browser, as a state machine whose steps curl
  and the browser choose; `StreamHistory.dfy` tells what every run leads to from its
  steps alone; `CurlHost.dfy` is the code that implements it, and
  `PollList.dfy` its list of polled files. `HostLifetime.dfy` and
  `BrowserFactory.dfy` say which controls a browser process has and when it ends.

What changes state step by step in the source is a class or a method with loops
here, and is tied to a specification function by its `ensures` clauses; what the
source promises is then proved of that function.

## How the model stands for the source

`float` and `double` are `real`, and `fequal` and `fless_equal`
(`src/libopenvrml/openvrml/local/float.h:30-85`) are exact comparisons. The square
root, sine, cosine and arc cosine are parameters of the operations that use them:
all that is assumed of them is `Vectors.IsRoot`, `TransformBuilder.IsTrig`,
`AxisQuaternions.DoublesAngles`, `Slerps.AddsAngles` and
`AxisQuaternions.IsArcCosine`. A field of view enters as the tangent of its half.
Matrices are row-major and vectors multiply from the left, as in the source. An
`int32` pixel stands for its 32 bits, read as a number without sign.

curl, GLib and D-Bus are an environment. What they answer comes in as parameters,
and what can be relied on is a predicate: a handle is not handed out again while
it is in use, nothing can be done with a null handle, and the end of a download is
reported once (`StreamProtocol.CanGetUrl`, `StreamProtocol.CanReport`). All calls
into them that matter to the protocol are recorded in a log.

## Where the source does not do what it promises

Each of these is a proved statement; where it says "exactly", both directions are
proved.

- Extending a sphere by another does not take the other in when it swallows this
  one off centre (`Balls.JoinedCovers`, `Balls.JoinedSwallowed`).
- Transforming a sphere loses points unless the matrix's columns are tight in the
  sense of `BallTransforms.Tight`; orthogonal columns are
  (`BallTransforms.TransformExact`, `BallTransforms.ScaleThenRotateEscapes`).
- So a Transform node may be culled while part of it is in view, and for every point
  its sphere misses there is such a view. Its sphere is sound exactly when the
  largest factor of its scale stays on an axis, in particular when the scale is
  uniform (`TransformNodes.NodeKeepsSphereExactly`,
  `HiddenPoints.CulledWhileVisible`, `TransformNodes.VisibleNodeCulled`). A node
  without bounds of its own, such as Text, has an unset sphere where the
  documentation has a maximized one (`src/libopenvrml/openvrml/node.cpp:3171-3188`);
  its group's sphere leaves it out (`TransformNodes.UnsetLeavesNoTrace`).
- The sphere around a list of points always reaches back to the origin. Around one
  point it is the point alone only at the origin, and it can be the smallest sphere
  around a list only if that contains the origin
  (`Enclosure.EnclosingSinglePoint`, `Enclosure.SmallestOnlyAroundOrigin`).
- The matrix of a Transform node with the scale (1, 1, 1) leaves the scale orientation
  out. For a rotation about a unit axis this is right exactly when the scale
  orientation has a unit axis, cosine 1, or cosine -1 and a zero axis
  (`TransformBuilder.CancelsExactly`, `TransformBuilder.MakeTransformation`).
- The parts of a decomposed matrix multiply together to the matrix again exactly
  when its determinant is positive: the shear decomposition does not look for a
  reflection (`Decomposition.Transformation`, `Decomposition.DecomposeReflection`).
- The product of two rotations is undefined exactly when the product of their
  quaternions is (0, 0, 0, -1), as for two half turns about one axis
  (`AxisQuaternions.Compose`, `AxisQuaternions.TwoHalfTurns`). The rotation between
  two vectors is a proper one exactly unless they are opposite; then it is the
  reflection at the origin (`RotationsBetween.MakeRotationBetween`,
  `RotationsBetween.OppositeVectors`).
- Interpolation between two rotations is linear exactly where their quaternions are
  at a right angle, which the source takes for close ones, and there the quaternion
  is too short except at the ends, as it is between no turn and a half turn;
  between a rotation and itself, where linear interpolation was meant, it is
  undefined (`Slerps.InterpolatedUnitExactly`, `Slerps.InterpolatedAcross`,
  `Slerps.HalfTurnIsAcross`, `Slerps.Slerp`).
- The precision test of the affine inverse turns away matrices that have an
  inverse (`AffineInverse.PrecisionRejectsInvertible`).
- Resizing an image keeps a pixel's value, whatever the image holds, exactly when
  the pixel is in the first row, the number of columns stays, or there are no
  components (`Images.ResizedKeepsPixelExactly`, `Images.ResizedColumnsMovePixels`).
  The check in the accessors by column and row rejects every pixel of an image
  without components (`Images.PositionCheck`).
- A request whose handle curl does not take on is not noticed as failed. Its
  stream stays in the table for ever, no later request queues the idle callback,
  and the event source is ready at every turn of the main loop from then on
  (`StreamProtocol.AddFailureAbandons`, `StreamProtocol.NoCallbackAfterAbandoning`,
  `StreamProtocol.RefusedKeepsSourceReady`, `StreamProtocol.RefusedRequest`). Later
  requests are performed all the same, by the source that is always ready
  (`CurlHost.CurlBrowserHost.Turn`).
  Requests that curl has no handle for share one place in the table
  (`StreamProtocol.EveryRunCountsStreams`).
- Cutting the list of polled files off before a file that is being polled leaves
  that file with the event source (`PollList.CurlSource.ResetFds`,
  `PollList.CutOffWhilePolled`).
- A sender that gives up a second name on the bus loses its controls, and the
  process may end, though the sender is still there. The table is right all through
  a run exactly when no sender in it does that, and then the process ends exactly
  with its last sender (`HostLifetime.AccurateThroughoutExactly`,
  `HostLifetime.QuitsWithLastSenderExactly`, `HostLifetime.SecondNameGivenUp`).

## Model

| member | source | states |
|---|---|---|
| `BoundingSpheres.BoundingSphere.constructor` | src/libopenvrml/openvrml/bounding_volume.cpp:339-343 | a new sphere is unset, at the origin and not maximized |
| `BoundingSpheres.BoundingSphere.ExtendPoint` | src/libopenvrml/openvrml/bounding_volume.cpp:473-495 | afterwards the sphere contains the point and covers the old sphere, is the point alone if it was unset, and is the one of `ExtendedByPoint` |
| `BoundingSpheres.ExtendedByPointCovers` | src/libopenvrml/openvrml/bounding_volume.cpp:473-495 | a sphere extended by a point, unset or not before, contains the point and covers the old sphere |
| `BoundingSpheres.GrownOutside` | src/libopenvrml/openvrml/bounding_volume.cpp:488-494 | the construction by the opposite point and the midpoint gives the grown ball, whose radius is half of old radius plus distance |
| `Balls.GrownCovers` | src/libopenvrml/openvrml/bounding_volume.cpp:473-495 | the grown ball contains the point and covers the old ball, and is the old one exactly when that contained the point |
| `Balls.GrownSmallest` | src/libopenvrml/openvrml/bounding_volume.cpp:473-495 | no ball that covers the old one and contains the point is smaller than the grown one |
| `BoundingSpheres.BoundingSphere.ExtendSphere` | src/libopenvrml/openvrml/bounding_volume.cpp:513-543 | an unset sphere becomes the other one and is ignored as the other one; the old sphere is always covered, and the other one exactly when one of them was unset, the centres coincide or the other radius is at most this one plus the distance |
| `BoundingSpheres.ExtendedBySphereCovers` | src/libopenvrml/openvrml/bounding_volume.cpp:513-543 | the same as an if-and-only-if on values, including unset spheres |
| `Balls.ZenithOnLine` | src/libopenvrml/openvrml/bounding_volume.cpp:534-542 | the extension reaches the point of the other ball farthest along the line of centres, with half the sum of distance and radii as radius |
| `Balls.JoinedCovers` | src/libopenvrml/openvrml/bounding_volume.cpp:513-543 | exactly when an extended ball covers the ball it was extended by |
| `Balls.JoinedSmallest` | src/libopenvrml/openvrml/bounding_volume.cpp:513-543 | no ball that covers both is smaller than the extended one |
| `Balls.JoinedSwallowed` | src/libopenvrml/openvrml/bounding_volume.cpp:513-543 | a concrete swallowed case in which a point of the other ball is left out |
| `Balls.CoversAlongLine` | src/libopenvrml/openvrml/bounding_volume.cpp:513-543 | covering between balls on one line is exactly the comparison of their ends |
| `Enclosure.PickWidestPair` | src/libopenvrml/openvrml/bounding_volume.cpp:567-607 | the loop over the points finds the extreme points of the axis on which they are farthest apart |
| `Enclosure.WidestAxisIsWidest` | src/libopenvrml/openvrml/bounding_volume.cpp:588-607 | no axis has extreme points farther apart than the chosen one, and none before it as far |
| `Enclosure.GrownByAllCovers` | src/libopenvrml/openvrml/bounding_volume.cpp:613 | extending by every point of any list in turn keeps the first ball and contains all points |
| `Enclosure.EnclosingCovers` | src/libopenvrml/openvrml/bounding_volume.cpp:552-614 | the sphere around any non-empty list contains every point of it, and always the origin |
| `Enclosure.EnclosingTakesInSum` | src/libopenvrml/openvrml/bounding_volume.cpp:609-613 | the sphere reaches over the sum of the two extreme points on the widest axis, opposite to the origin |
| `Enclosure.EnclosingSmallestAround` | src/libopenvrml/openvrml/bounding_volume.cpp:609-613 | when all points are in the ball that has the origin and that sum at its ends, no ball that contains these two is smaller than the sphere |
| `Enclosure.EnclosingExtends` | src/libopenvrml/openvrml/bounding_volume.cpp:613 | a point that is none of the extremes, added at the end, extends the sphere around the others |
| `Enclosure.FirstLowest` | src/libopenvrml/openvrml/bounding_volume.cpp:572-586 | of points with the same least coordinate the first is taken |
| `Enclosure.FirstHighest` | src/libopenvrml/openvrml/bounding_volume.cpp:572-586 | of points with the same greatest coordinate the first is taken |
| `Enclosure.EnclosingSinglePoint` | src/libopenvrml/openvrml/bounding_volume.cpp:611 | around a single point the radius is its distance from the origin, so that the sphere is the point alone exactly at the origin |
| `Enclosure.EnclosingNotSmallest` | src/libopenvrml/openvrml/bounding_volume.cpp:609-613 | if some ball no larger than the enclosing one has the points but not the origin inside, a smaller one than the enclosing one exists |
| `Enclosure.SmallestOnlyAroundOrigin` | src/libopenvrml/openvrml/bounding_volume.cpp:609-613 | the enclosing ball is a smallest one only if every smallest ball contains the origin |
| `BoundingSpheres.BoundingSphere.Enclose` | src/libopenvrml/openvrml/bounding_volume.cpp:552-614 | the old sphere is forgotten, and every point is inside; no points leave it unset |
| `BoundingSpheres.BoundingSphere.OrthoTransform` | src/libopenvrml/openvrml/bounding_volume.cpp:680-690 | an unset sphere stays, any other becomes the one of `OrthoTransformed` |
| `BallTransforms.ConformalDistance` | src/libopenvrml/openvrml/bounding_volume.cpp:680-690 | a matrix with orthogonal rows of length k multiplies the distance of any two points by exactly k |
| `BallTransforms.ConformalColumns` | src/libopenvrml/openvrml/bounding_volume.cpp:687-689 | then the columns too are orthogonal and of length k, so that any of them gives the scale |
| `BallTransforms.OrthoTransformExact` | src/libopenvrml/openvrml/bounding_volume.cpp:680-690 | under uniform scale a point is in the old ball exactly when its image is in the new one, and both transformations agree |
| `BallTransforms.OrthoTransformWidth` | src/libopenvrml/openvrml/bounding_volume.cpp:680-690 | by every affine matrix the sphere is exactly as wide along x as the image of the old one |
| `BoundingSpheres.BoundingSphere.Transform` | src/libopenvrml/openvrml/bounding_volume.cpp:697-720 | the new sphere is the one of `Transformed`; for an affine matrix it covers the image of the old one exactly when the matrix is tight |
| `BallTransforms.TransformExact` | src/libopenvrml/openvrml/bounding_volume.cpp:697-720 | for every affine matrix and ball of positive radius, the transformed ball contains the images of all points exactly when the longest column is orthogonal to the others and those are not too close in direction |
| `BallTransforms.TransformReaches` | src/libopenvrml/openvrml/bounding_volume.cpp:697-720 | by every affine matrix some point of the old sphere is mapped at least as far as the new radius |
| `BallTransforms.OrthogonalColumnsAreTight` | src/libopenvrml/openvrml/bounding_volume.cpp:702-719 | mutually orthogonal columns meet that condition |
| `BallTransforms.TightStretch` | src/libopenvrml/openvrml/bounding_volume.cpp:702-719 | under it no vector is stretched by more than the longest column |
| `BallTransforms.LooseStretch` | src/libopenvrml/openvrml/bounding_volume.cpp:702-719 | without it some vector is stretched by more, and which one |
| `BallTransforms.ScaleThenRotateEscapes` | src/libopenvrml/openvrml/bounding_volume.cpp:702-719 | a scale followed by a rotation whose transformed unit ball loses points |
| `Frustums.Frustum.constructor` | src/libopenvrml/openvrml/frustum.cpp:132-142 | a frustum built with a field of view has its planes derived |
| `Frustums.Frustum.Update` | src/libopenvrml/openvrml/frustum.cpp:151-225 | each of the four plane arrays gets a unit normal that points into the view volume, and offset zero |
| `Frustums.SidePlanes` | src/libopenvrml/openvrml/frustum.cpp:151-225 | a point is within a side of the view volume exactly when its signed distance from that side's plane is not negative |
| `Frustums.InViewBySides` | src/libopenvrml/openvrml/bounding_volume.cpp:382-466 | the view volume is the intersection of its six sides |
| `Culling.ClassifySide` | src/libopenvrml/openvrml/bounding_volume.cpp:406-462 | the two comparisons made for each plane mean exactly that no point, or that every point, of the ball is within that side |
| `Culling.BallInView` | src/libopenvrml/openvrml/bounding_volume.cpp:382-466 | a ball is in view exactly when it is within all six sides, and out of view if it is beyond one |
| `BoundingSpheres.BoundingSphere.IntersectFrustum` | src/libopenvrml/openvrml/bounding_volume.cpp:352-466 | unset and maximized spheres are partial; otherwise inside means exactly that all points are in view, outside exactly that all are beyond one side, and then none is in view |
| `TransformNodes.TransformNode.UpdateTransform` | src/libopenvrml/openvrml/basetypes.cpp:3312-3347 | the cached matrix becomes the one of the fields |
| `TransformNodes.TransformNode.EncloseChildren` | src/node/vrml97/grouping_node_base.h:597-612 | the loop over the children makes the sphere of `GroupVolume`; it is maximized exactly when a child is |
| `TransformNodes.TransformNode.RecalcBSphere` | src/node/vrml97/grouping_node_base.h:581-612 | afterwards matrix and sphere agree with fields and children: `UpToDate` |
| `TransformNodes.NodePlaces` | src/libopenvrml/openvrml/basetypes.cpp:3312-3347 | a node maps every point to where its own translation, rotation, scale, scale orientation and centre put it |
| `TransformNodes.TransformNode.Cull` | src/node/vrml97/grouping_node_base.h:480-496 | for a sphere that is set and not maximized: culled exactly when the sphere that is seen is beyond a side, and inside exactly when it is in view; for every node whose largest scale factor stays on an axis, in surroundings that are tight, culled means that no point of a child that is taken in is in view, and inside that all are; a maximized child or an unset sphere keeps it drawn |
| `TransformNodes.GroupTakesIn` | src/node/vrml97/grouping_node_base.h:602-610 | the sphere of a group covers each child's, unless that swallows the sphere of those before it |
| `TransformNodes.UnsetLeavesNoTrace` | src/libopenvrml/openvrml/node.cpp:3171-3188 | a child with the default sphere, anywhere in the list, is left out of its group's |
| `TransformNodes.NodeKeepsSphereExactly` | src/libopenvrml/openvrml/bounding_volume.cpp:697-720 | for rotations that can be undone, every scale and every ball of positive radius: the node's sphere holds the images of all points exactly when a column of the turn after the scale has entries only where the scale is largest |
| `TransformNodes.UniformNodeExact` | src/libopenvrml/openvrml/bounding_volume.cpp:697-720 | with a uniform scale, mirrored or not, a point is in the ball exactly when its image is in the node's sphere |
| `TransformNodes.VisibleNodeCulled` | src/node/vrml97/grouping_node_base.h:480-496 | a unit sphere stretched along x, turned about y and moved, whose node is culled though a point of it is in view |
| `HiddenPoints.CulledWhileVisible` | src/node/vrml97/grouping_node_base.h:480-496 | for every node and every point its sphere misses there are rigid surroundings and a view in which the node is culled while the point is in view |
| `HiddenPoints.Hide` | src/libopenvrml/openvrml/bounding_volume.cpp:352-466 | the same for every ball and every point outside it |
| `HiddenPoints.LooseMisses` | src/libopenvrml/openvrml/bounding_volume.cpp:697-720 | a node whose matrix is not tight misses a point of any single child of positive radius |
| `TransformSpheres.TightExactly` | src/libopenvrml/openvrml/bounding_volume.cpp:697-720 | a matrix that turns, scales and turns again is tight exactly when the largest factor stays on an axis |
| `TransformSpheres.StretchAtMost` | src/libopenvrml/openvrml/bounding_volume.cpp:702-719 | no vector is stretched by more than the largest factor, and exactly those along it by as much |
| `TransformSpheres.TransformationFactors` | src/libopenvrml/openvrml/basetypes.cpp:3312-3347 | the linear part of a Transform node's matrix is the turn back, the scale and the two turns |
| `TransformSpheres.TransformationSound` | src/libopenvrml/openvrml/basetypes.cpp:3312-3347 | its exact condition for tightness; with a uniform scale it multiplies all lengths alike |
| `TransformSpheres.AxisMatConformal` | src/libopenvrml/openvrml/basetypes.cpp:3176-3203 | an axis-angle matrix keeps lengths exactly when the opposite turn undoes it |
| `Vectors.CauchySchwarz` | src/libopenvrml/openvrml/basetypes.cpp:1916-1931 | the square of a dot product is at most the product of the squared lengths |
| `Vectors.Triangle` | src/libopenvrml/openvrml/basetypes.cpp:1928-1931 | the length of a sum is at most the sum of the lengths |
| `Vectors.Normalize` | src/libopenvrml/openvrml/basetypes.cpp:1938-1945 | a vector is its normalization times its length, which is a unit vector unless the vector is zero |
| `Vectors.CrossTwice` | src/libopenvrml/openvrml/basetypes.cpp:1585-1594 | the cross product with the same vector twice, expanded |
| `Matrices.MulAssociative` | src/libopenvrml/openvrml/basetypes.cpp:3524-3555 | the matrix product is associative |
| `Matrices.ApplyCompose` | src/libopenvrml/openvrml/basetypes.cpp:1620-1635 | mapping a point by one matrix and then by another is mapping it by their product, whenever the divisors are not zero |
| `Matrices.AffineMul` | src/libopenvrml/openvrml/basetypes.cpp:3524-3555 | the linear rows and the translation of a product of affine matrices |
| `AffineInverse.Determinant` | src/libopenvrml/openvrml/basetypes.cpp:3850-3866 | the positive and negative terms summed apart give the determinant |
| `AffineInverse.GetAffineInverse` | src/libopenvrml/openvrml/basetypes.cpp:3843-3908 | the result is an affine inverse on both sides exactly when the square of the determinant is at least 1e-25, whatever its sign; otherwise nothing is written |
| `AffineInverse.AdjugateInverts` | src/libopenvrml/openvrml/basetypes.cpp:3877-3904 | the scaled adjugate with the translation mapped back is an inverse on both sides |
| `AffineInverse.InverseRoundTrip` | src/libopenvrml/openvrml/basetypes.cpp:3918-3923 | mapping any point by a matrix and then by its inverse returns the point |
| `AffineInverse.PrecisionRejectsInvertible` | src/libopenvrml/openvrml/basetypes.cpp:3868-3875 | an invertible matrix that fails the precision test |
| `TransformBuilder.AxisMatTurns` | src/libopenvrml/openvrml/basetypes.cpp:3176-3203 | the matrix of an axis and an angle turns every vector by Rodrigues' formula |
| `TransformBuilder.RightHanded` | src/libopenvrml/openvrml/basetypes.cpp:3176-3203 | a turn about z takes x towards y, one about x takes y towards z, and one about y takes z towards x |
| `TransformBuilder.TurnThereAndBack` | src/libopenvrml/openvrml/basetypes.cpp:2948-2953 | for an axis of any length: turning there and back misses a vector by the axis's squared length less one, times an excess |
| `TransformBuilder.TurnBack` | src/libopenvrml/openvrml/basetypes.cpp:2948-2953 | so about a unit axis every vector comes back |
| `TransformBuilder.AxisMatInverse` | src/libopenvrml/openvrml/basetypes.cpp:2948-2953 | so the two matrices are inverse |
| `TransformBuilder.CancelsExactly` | src/libopenvrml/openvrml/basetypes.cpp:3332-3341 | the matrices of opposite turns multiply to the identity exactly when the axis has length one, the cosine is 1, or it is -1 and the axis is zero |
| `TransformBuilder.AxisMatZero` | src/libopenvrml/openvrml/basetypes.cpp:3329-3331 | a rotation by angle zero is the identity whatever its axis, so skipping it is right |
| `TransformBuilder.UndoneRotation` | src/libopenvrml/openvrml/basetypes.cpp:3332-3341 | under unit scale the scale orientation and its inverse can be skipped when they cancel, and only then if the rotation has a unit axis |
| `TransformBuilder.MakeTransformation` | src/libopenvrml/openvrml/basetypes.cpp:3312-3347 | the result is the product of the factors, without the scale orientation when the scale is (1, 1, 1); it is the full product of seven if there is a scale or the pair cancels, and only then if the rotation has a unit axis |
| `TransformBuilder.TransformationPlaces` | src/libopenvrml/openvrml/basetypes.cpp:3312-3347 | that product maps every point to where section 6.52 of ISO/IEC 14772-1:1997 puts it: relative to the centre turned back, stretched, turned, rotated, moved back and translated |
| `Quaternions.HamiltonAssociative` | src/libopenvrml/openvrml/basetypes.cpp:4254-4267 | the quaternion product is associative |
| `Quaternions.NormMultiplicative` | src/libopenvrml/openvrml/basetypes.cpp:4562-4568 | the norm of a product is the product of the norms |
| `Quaternions.ConjugateProduct` | src/libopenvrml/openvrml/basetypes.cpp:4534-4541 | the conjugate of a product is the product of the conjugates in the other order |
| `Quaternions.ConjugateInverse` | src/libopenvrml/openvrml/basetypes.cpp:4534-4541 | a quaternion times its conjugate, on either side, is its norm |
| `Quaternions.SandwichRotates` | src/libopenvrml/openvrml/basetypes.cpp:3216-3240 | a vector times the matrix of a unit quaternion is the vector conjugated by the quaternion |
| `Quaternions.RotationOfProduct` | src/libopenvrml/openvrml/basetypes.cpp:3216-3240 | the matrix of a product of unit quaternions is the product of the matrices in the other order |
| `AxisQuaternions.QuatOfRotates` | src/libopenvrml/openvrml/basetypes.cpp:4230-4241 | the quaternion made of an axis and half the angle is a unit quaternion, and its matrix is the matrix of the axis and the angle |
| `AxisQuaternions.MakeRotation` | src/libopenvrml/openvrml/basetypes.cpp:2760-2776 | for every quaternion: it has a rotation exactly when its scalar part is above -1 and at most 1; the axis is the vector part's direction, the angle twice that of the scalar part; for a unit quaternion the matrix is the quaternion's, and only (0, 0, 0, -1) has none |
| `AxisQuaternions.Compose` | src/libopenvrml/openvrml/basetypes.cpp:2785-2789 | the product of two rotations has a unit axis and the product of their matrices, and is undefined exactly when the quaternions' product has scalar part -1 |
| `AxisQuaternions.TwoHalfTurns` | src/libopenvrml/openvrml/basetypes.cpp:2785-2789 | two half turns about the same axis are such a case |
| `RotationsBetween.MakeRotationBetween` | src/libopenvrml/openvrml/basetypes.cpp:2738-2747 | the rotation between two vectors exists exactly when neither is zero; it takes the direction of one to that of the other and can be undone; its axis is zero exactly for parallel vectors, and it is a proper rotation exactly unless they are opposite, when every vector goes to its negation |
| `RotationsBetween.OppositeVectors` | src/libopenvrml/openvrml/basetypes.cpp:2738-2747 | so for any vector and its opposite |
| `RotationsBetween.AxisMatProperExactly` | src/libopenvrml/openvrml/basetypes.cpp:3176-3203 | an axis-angle matrix is a proper rotation exactly when its axis has length one or its cosine is 1 |
| `Slerps.Slerp` | src/libopenvrml/openvrml/basetypes.cpp:2965-3014 | between a rotation and itself there is no result; otherwise it is the rotation of the interpolated quaternion, as `IsTurnOf` says, at a right angle too; the two ends are the two rotations |
| `Slerps.InterpolatedUnitExactly` | src/libopenvrml/openvrml/basetypes.cpp:2990-3012 | between different orientations, at every t, the interpolated quaternion has length one exactly when the quaternions are not at a right angle or t is 0 or 1 |
| `Slerps.InterpolatedAngles` | src/libopenvrml/openvrml/basetypes.cpp:2990-3012 | the interpolated quaternion is at the share t of the angle from the first and at the rest of it from the second: the turn is uniform |
| `Slerps.SineBlend` | src/libopenvrml/openvrml/basetypes.cpp:2995-2998 | the blend by the sines of the parts of the angle has length one |
| `Slerps.InterpolatedAcross` | src/libopenvrml/openvrml/basetypes.cpp:2999-3006 | at a right angle the squared length is that of the two coefficients, half way one half, and the two cosines are the coefficients |
| `Slerps.InterpolatedEnds` | src/libopenvrml/openvrml/basetypes.cpp:2994-3012 | the interpolation begins with the first quaternion and ends with the second one's orientation |
| `Slerps.UnitInner` | src/libopenvrml/openvrml/basetypes.cpp:2976-2988 | the cosine between unit quaternions is at most one, and one exactly when they are the same |
| `MatrixToQuaternion.PivotLarge` | src/libopenvrml/openvrml/basetypes.cpp:4187-4219 | in every branch, for every matrix, the square root is taken of a number not less than one |
| `MatrixToQuaternion.PivotRoot` | src/libopenvrml/openvrml/basetypes.cpp:4187-4219 | so the root divided by is at least one |
| `MatrixToQuaternion.PivotChoice` | src/libopenvrml/openvrml/basetypes.cpp:4187-4219 | the scalar part is divided by exactly when the trace is positive, and otherwise the part of a largest diagonal entry |
| `MatrixToQuaternion.PartsByPivot` | src/libopenvrml/openvrml/basetypes.cpp:4187-4219 | for every matrix the part divided by is at least one half, and with any part it makes up the matrix's entry for the two |
| `MatrixToQuaternion.MakeQuat` | src/libopenvrml/openvrml/basetypes.cpp:4187-4219 | the branches compute the quaternion whose parts are read off by the largest one |
| `MatrixToQuaternion.QuaternionRoundTrip` | src/libopenvrml/openvrml/basetypes.cpp:4187-4219 | from the matrix of any unit quaternion comes that quaternion or its opposite |
| `MatrixToQuaternion.MatrixRoundTrip` | src/libopenvrml/openvrml/basetypes.cpp:4187-4219 | the quaternion read off any rotation matrix is a unit quaternion whose matrix is that matrix |
| `Decomposition.DivideByLast` | src/libopenvrml/openvrml/basetypes.cpp:3736-3740 | dividing the entries in place by the last one divides every entry by its old value |
| `Decomposition.FirstRow` | src/libopenvrml/openvrml/basetypes.cpp:3758-3759 | the first row's length is positive and scaling by it keeps the determinant's sign |
| `Decomposition.SecondRow` | src/libopenvrml/openvrml/basetypes.cpp:3764-3774 | with the first row's part removed the second row is not zero, and is orthogonal to the first |
| `Decomposition.ThirdRow` | src/libopenvrml/openvrml/basetypes.cpp:3779-3794 | with both parts removed the third row is not zero, and is orthogonal to both |
| `Decomposition.Decompose` | src/libopenvrml/openvrml/basetypes.cpp:3705-3808 | a matrix is left alone exactly when its linear determinant is zero; otherwise scales are positive, the rows orthonormal, and the sheared and scaled rows rebuild the matrix's rows |
| `Decomposition.Transformation` | src/libopenvrml/openvrml/basetypes.cpp:3705-3814 | for every matrix: r is the rotation of the quaternion, as `IsTurnOf` says; with it the parts multiply together to the normalized matrix exactly when its determinant is positive; then the axis is a unit vector and the matrix of axis and angle is the orthonormal rows |
| `Decomposition.RotationDetNonNegative` | src/libopenvrml/openvrml/basetypes.cpp:3216-3240 | the matrix of a quaternion, unit or not, is never a reflection |
| `Decomposition.RecomposedExactly` | src/libopenvrml/openvrml/basetypes.cpp:3795-3808 | shear, scale, translation and a rotation matrix multiplied together give the normalized matrix exactly when the rotation matrix is the orthonormal rows |
| `Decomposition.ReflectionHasNoAxis` | src/libopenvrml/openvrml/basetypes.cpp:3795-3814 | orthonormal rows that reflect are not the matrix of any axis and angle read off a quaternion other than zero |
| `RoundTrips.DecompositionUnique` | src/libopenvrml/openvrml/basetypes.cpp:3753-3794 | positive scales, shears and orthonormal rows that make up the same rows are the same |
| `RoundTrips.BuildAndTakeApart` | src/libopenvrml/openvrml/basetypes.cpp:3705-3814 | a matrix built from a translation, a rotation about a unit axis and positive scales comes apart into that translation, those scales, no shear and a rotation with the same matrix |
| `Decomposition.DecomposeReflection` | src/libopenvrml/openvrml/basetypes.cpp:3795-3814 | what is returned for the reflection of the x axis does not make it up again |
| `Hsv.RgbToHsv` | src/libopenvrml/openvrml/basetypes.cpp:42-73 | the branches on the largest channel compute the position around the hexagon of hues |
| `Hsv.HsvToRgb` | src/libopenvrml/openvrml/basetypes.cpp:75-105 | the six cases are one formula per channel: the value less a share of the chroma that depends on the distance of the hues |
| `Hsv.RgbRoundTrip` | src/libopenvrml/openvrml/basetypes.cpp:42-105 | every colour comes back from its hue in [0,360), saturation and value in [0,1] |
| `Hsv.HueRules` | src/libopenvrml/openvrml/basetypes.cpp:75-105 | which hues make which channel the strongest, with the value, and which the weakest |
| `Hsv.HsvRoundTrip` | src/libopenvrml/openvrml/basetypes.cpp:42-105 | every hue below 360, positive saturation and positive value come back from their colour |
| `Hsv.HsvRoundTripExactly` | src/libopenvrml/openvrml/basetypes.cpp:42-105 | a triple in range comes back exactly when it has a colour and a hue below 360, or neither saturation nor hue |
| `PixelBytes.PackedUnpacked` | src/libopenvrml/openvrml/basetypes.h:1010-1021 | packing the bytes a value was taken apart into gives the value's low bytes |
| `PixelBytes.UnpackedPacked` | src/libopenvrml/openvrml/basetypes.h:995-1008 | taking a packed pixel apart gives its bytes |
| `PixelBytes.UnpackedBytes` | src/libopenvrml/openvrml/basetypes.h:1014-1020 | the byte a shift and a mask select is the one at its place |
| `Images.Image.Pixel` | src/libopenvrml/openvrml/basetypes.h:995-1008 | the loop over the components packs the pixel's bytes, most significant first |
| `Images.Image.SetPixel` | src/libopenvrml/openvrml/basetypes.h:1010-1021 | the pixel's bytes become those of the value and no other byte changes |
| `Images.Image.PixelAt` | src/libopenvrml/openvrml/basetypes.h:1023-1028 | reading by column and row reads the pixel at its index |
| `Images.Image.SetPixelAt` | src/libopenvrml/openvrml/basetypes.h:1030-1036 | writing by column and row writes the pixel at its index |
| `Images.ReadAfterWrite` | src/libopenvrml/openvrml/basetypes.h:995-1021 | a written pixel reads back as the low bytes of the value, every other one as before |
| `Images.FourComponentsKeepValue` | src/libopenvrml/openvrml/basetypes.h:995-1021 | with four components those low bytes are the whole value |
| `Images.WriteBack` | src/libopenvrml/openvrml/basetypes.h:995-1021 | writing back what was read changes nothing |
| `Images.PositionsDistinct` | src/libopenvrml/openvrml/basetypes.h:1023-1036 | different columns and rows in range have different indices in range |
| `Images.SegmentsDisjoint` | src/libopenvrml/openvrml/basetypes.h:995-1021 | pixels with different indices have disjoint bytes |
| `Images.PositionCheck` | src/libopenvrml/openvrml/basetypes.h:1023-1036 | every position in the image passes the check of the product exactly when there are components; a row beyond the image can pass too |
| `Images.Image.constructor` | src/libopenvrml/openvrml/basetypes.h:921-929 | a new image, of any number of components, is full of zeros |
| `Images.Image.Swap` | src/libopenvrml/openvrml/basetypes.h:951-958 | two images exchange everything, even an image with itself |
| `Images.Image.SetArray` | src/libopenvrml/openvrml/basetypes.h:981-986 | the given bytes replace the first ones, the rest stays |
| `Images.Image.Resize` | src/libopenvrml/openvrml/basetypes.cpp:4849-4855 | the array is cut or filled with zeros to the new size, as it is by the setters of x, y and comp |
| `Images.ResizedRowsKeepPixels` | src/libopenvrml/openvrml/basetypes.cpp:4832-4839 | a new number of rows keeps every pixel that is in both images |
| `Images.NewPixelsAreBlack` | src/libopenvrml/openvrml/basetypes.cpp:4808-4855 | pixels that a larger image adds are zero |
| `Images.ResizedKeepsPixelExactly` | src/libopenvrml/openvrml/basetypes.cpp:4808-4855 | a pixel in both images has the same value before and after, whatever the array holds, exactly when it is in the first row, the columns stay, or there are no components |
| `Images.ResizedColumnsMovePixels` | src/libopenvrml/openvrml/basetypes.cpp:4808-4815 | a new number of columns moves a pixel from one row to another |
| `EventCascade.Field.Add` | src/libopenvrml/openvrml/event.h:203-211 | the listener is added, and whether it was new is told |
| `EventCascade.Field.Remove` | src/libopenvrml/openvrml/event.h:213-221 | the listener is removed, and whether it was there is told |
| `EventCascade.Field.EmitEvent` | src/libopenvrml/openvrml/event.h:246-266 | for any order of the listeners, the value is delivered once along every longer path, and then the time is noted |
| `EventCascade.Field.DoProcessEvent` | src/libopenvrml/openvrml/exposedfield.h:80-90 | the value is delivered once along every path that begins here, and nothing else changes |
| `EventCascade.ProcessEvent` | src/libopenvrml/openvrml/event.h:87-94 | sections 4.10.2 to 4.10.5 of ISO/IEC 14772-1:1997: over any acyclic graph every reachable field ends with the value, the timestamp and a modified node, having processed one event for each path that leads to it; everything else is unchanged |
| `EventCascade.CascadeJoin` | src/libopenvrml/openvrml/event.h:254-264 | two deliveries along disjoint sets of paths are one delivery along both |
| `Routes.ReachableShrinks` | src/libopenvrml/openvrml/event.h:254-264 | without cycles a listener reaches strictly fewer fields than its emitter, which is why a cascade ends |
| `Routes.AcyclicIffRanked` | src/libopenvrml/openvrml/event.h:254-264 | a graph has no cycles exactly when its vertices can be ranked so that every route leads down |
| `Routes.NewRouteKeepsAcyclic` | src/libopenvrml/openvrml/event.h:203-211 | a new listener closes a cycle exactly when it already leads back to its emitter |
| `CurlHost.CurlBrowserHost.GetUrl` | src/openvrml-player/curlbrowserhost.cpp:464-576 | the protocol's step for a request; the result is 0 exactly when there was memory and all options were accepted; the idle callback is queued exactly when the table then has a single stream |
| `CurlHost.CurlBrowserHost.SetOptions` | src/openvrml-player/curlbrowserhost.cpp:487-538 | the five options all have to be accepted |
| `CurlHost.CurlBrowserHost.CurlWrite` | src/openvrml-player/curlbrowserhost.cpp:862-953 | the protocol's step for data that arrives; what is added to the log carries exactly the data if all are reported as written, and none otherwise |
| `CurlHost.CurlBrowserHost.WritePieces` | src/openvrml-player/curlbrowserhost.cpp:931-950 | the loop sends the chunks of the data in order |
| `CurlHost.CurlBrowserHost.SourceCallback` | src/openvrml-player/curlbrowserhost.cpp:786-860 | the protocol's step for reports, in which neither assertion can fail; the result tells whether every handle was given back |
| `CurlHost.CurlBrowserHost.Turn` | src/openvrml-player/curlbrowserhost.cpp:723-776 | at a turn of the main loop curl performs exactly when it works on a download, has refused a handle, or something has happened on a polled file |
| `StreamMessages.Chunks` | src/openvrml-player/curlbrowserhost.cpp:931-950 | no chunk is empty or longer than the longest D-Bus array |
| `StreamMessages.ChunksKeepData` | src/openvrml-player/curlbrowserhost.cpp:931-950 | the chunks put together are the data |
| `StreamMessages.ChunksFull` | src/openvrml-player/curlbrowserhost.cpp:931-950 | every chunk but the last is as long as a message can hold |
| `StreamProtocol.GetUrlKeepsValid` | src/openvrml-player/curlbrowserhost.cpp:464-576 | a request, however it ends, keeps the invariant |
| `StreamProtocol.DataKeepsValid` | src/openvrml-player/curlbrowserhost.cpp:862-953 | data that arrive keep the invariant |
| `StreamProtocol.DoneKeepsValid` | src/openvrml-player/curlbrowserhost.cpp:799-857 | the end of a download keeps the invariant |
| `StreamProtocol.After` | src/openvrml-player/curlbrowserhost.cpp:464-953 | every sequence of possible steps leads to a state that meets the invariant |
| `StreamProtocol.EveryRunSendsStreams` | src/openvrml-player/curlbrowserhost.cpp:795-953 | in every interleaving the messages for a stream begin NewStream, Write..., DestroyStream and are whole when it has left the table; earlier streams of the handle were whole |
| `StreamHistories.EveryRunIsTold` | src/openvrml-player/curlbrowserhost.cpp:464-953 | after every run, for every handle, by the positions of the steps alone: whether its stream is in the table and open, whether curl works on it, whether the handle is in use; and the data written of its latest stream are those that arrived since its last request and were not refused |
| `StreamHistories.EveryRunIsCounted` | src/openvrml-player/curlbrowserhost.cpp:483-553 | after every run the count under way and the ends that were read are the requests accepted, and the errors are the requests whose options were refused |
| `StreamHistories.ReportedEffect` | src/openvrml-player/curlbrowserhost.cpp:795-857 | reports take exactly those streams off the table whose ends are read before curl refuses a handle |
| `StreamHistories.LogGrows` | src/openvrml-player/curlbrowserhost.cpp:464-953 | no continuation of a run changes what has been sent |
| `StreamProtocol.EveryRunCountsStreams` | src/openvrml-player/curlbrowserhost.cpp:483-553 | the table has the downloads under way and the failed requests, exactly unless more than one request had no handle |
| `StreamProtocol.EveryRunFindsStream` | src/openvrml-player/curlbrowserhost.cpp:800-837 | the stream of a download that ends is in the table, and the count is positive |
| `StreamProtocol.RequestsWithoutHandleSharePlace` | src/openvrml-player/curlbrowserhost.cpp:470-496 | two failed requests without a handle and a single place in the table |
| `StreamProtocol.SingleStreamExactly` | src/openvrml-player/curlbrowserhost.cpp:555-567 | the table has one stream after a request exactly when nothing was under way and no failure had left one behind |
| `StreamProtocol.AddFailureAbandons` | src/openvrml-player/curlbrowserhost.cpp:540-553 | an accepted request is counted as under way and not as failed; its stream is abandoned exactly when curl has not taken on the handle |
| `StreamProtocol.AbandonedForEver` | src/openvrml-player/curlbrowserhost.cpp:540-567 | over every continuation an abandoned stream stays in the table, and a refused handle stays refused |
| `StreamProtocol.NoCallbackAfterAbandoning` | src/openvrml-player/curlbrowserhost.cpp:555-567 | in every continuation no request finds a single stream in the table, so that none queues the idle callback |
| `StreamProtocol.UnderWayExactly` | src/openvrml-player/curlbrowserhost.cpp:751-754 | in every valid state something counts as under way exactly while a download is worked on or a handle has been refused |
| `StreamProtocol.RefusedKeepsSourceReady` | src/openvrml-player/curlbrowserhost.cpp:751-754 | in every continuation after a refused handle the count that makes the source ready is positive |
| `StreamProtocol.RefusedRequest` | src/openvrml-player/curlbrowserhost.cpp:540-567 | a run from the beginning with one refused handle |
| `PollList.Mask` | src/openvrml-player/curlbrowserhost.cpp:671-680 | a file is polled for something exactly when it is in one of the three sets; for input and hanging up when it is to be read, for output when it is to be written, always for errors, never for urgent data |
| `PollList.CurlSource.ResetFds` | src/openvrml-player/curlbrowserhost.cpp:634-705 | entry k polls file k for what it is watched for; exactly the entries that wait for something are polled if and only if none such has been cut off; on an error nothing changes |
| `PollList.CurlSource.Resize` | src/openvrml-player/curlbrowserhost.cpp:653-665 | old entries stay the same objects, new ones wait for nothing |
| `PollList.CurlSource.UpdateEntries` | src/openvrml-player/curlbrowserhost.cpp:668-704 | the loop leaves exactly the waiting entries polled besides those cut off |
| `PollList.CurlSource.UpdateEntry` | src/openvrml-player/curlbrowserhost.cpp:671-703 | no entry is added twice or removed without having been added; what has happened is forgotten when polling ends |
| `PollList.CurlSource.Check` | src/openvrml-player/curlbrowserhost.cpp:723-755 | the three sets are the files on which the matching events have happened, and whether to go on |
| `PollList.CurlSource.Prepare` | src/openvrml-player/curlbrowserhost.cpp:708-721 | the list has an entry for every file up to the greatest, polled for what curl watches it for; the source is ready exactly when curl names a time to wait |
| `PollList.CurlSource.Dispatch` | src/openvrml-player/curlbrowserhost.cpp:757-776 | curl is called until it does not ask to be called again; exactly when no transfer is left after the last call the list is brought in line with what curl watches |
| `PollList.CurlSource.Turn` | src/openvrml-player/curlbrowserhost.cpp:723-776 | transfers are performed exactly when something counts as under way or has happened on a polled file, and only then entries change |
| `PollList.CutOffWhilePolled` | src/openvrml-player/curlbrowserhost.cpp:648-704 | two resets after which a file that is not in the list goes on being polled |
| `ObjectPaths.ControlPathsDiffer` | src/openvrml-xembed/browserfactory.cpp:326-328 | different counts give different object paths |
| `BrowserFactories.BrowserFactory.CreateControl` | src/openvrml-xembed/browserfactory.cpp:285-380 | each way of failing and what it leaves behind; a new control is entered under its sender with a fresh path, and no other entry changes |
| `BrowserFactories.BrowserFactory.RemoveHostsForOwner` | src/openvrml-xembed/browserfactory.cpp:382-388 | the sender's entry goes, and its number, 0 or 1, is told |
| `BrowserFactories.BrowserFactory.HasHosts` | src/openvrml-xembed/browserfactory.cpp:390-395 | whether any sender has an entry |
| `BrowserFactories.BrowserFactory.OnHostShutdown` | src/openvrml-xembed/browserfactory.cpp:397-412 | only the one control is forgotten; an unknown sender or path changes nothing |
| `BrowserFactories.NameOwnerChanged` | src/openvrml-xembed/main.cpp:233-273 | the process is told to end exactly when the notice removes the last sender |
| `HostLifetime.TableIsHistory` | src/openvrml-xembed/browserfactory.cpp:326-412 | after every sequence of steps the table has exactly the senders that got a place at some step and have had no name freed since, each with exactly the controls it got and has not shut down since; the counter is the number of paths given out |
| `HostLifetime.EveryPathHasOneSender` | src/openvrml-xembed/browserfactory.cpp:326-348 | after every sequence of steps no control is with two senders |
| `HostLifetime.QuitsWhenEmptied` | src/openvrml-xembed/main.cpp:249-270 | the process is told to end exactly by the steps that empty the table |
| `HostLifetime.StaysAccurateExactly` | src/openvrml-xembed/main.cpp:249-258 | one step keeps the table to the senders on the bus exactly unless one of them gives up a name that is not its own |
| `HostLifetime.AccurateThroughoutExactly` | src/openvrml-xembed/main.cpp:249-258 | for every run: the table has the senders on the bus at every moment exactly when no sender in it ever gives up a second name |
| `HostLifetime.QuitsWithLastSenderExactly` | src/openvrml-xembed/main.cpp:249-270 | from an accurate history, ending agrees with the last sender leaving the bus exactly unless the only sender left gives up a second name |
| `HostLifetime.EveryRunQuitsWithLastSender` | src/openvrml-xembed/main.cpp:249-270 | in every run without such a step the process ends exactly with the steps by which the last sender leaves |
| `HostLifetime.PlacesOutliveControls` | src/openvrml-xembed/browserfactory.cpp:339-412 | after any run: a creation that fails late can give a place and no control, and shutting down a host takes no place away and does not end the process |
| `HostLifetime.SecondNameGivenUp` | src/openvrml-xembed/main.cpp:249-270 | a sender that is still on the bus and whose second name ends the process |

## Left out

- Floating-point rounding, numbers that are not valid, and the relative tolerance of `fequal` and `fless_equal`: the model is over exact reals.
- `transformation` without shear, which repeats the steps of the one with shear and drops the shear.
- `mat4f::det`, which adds its cofactors without alternating signs, and `quatf::normalize`, which divides by the squared length: neither is what its name says, and nothing here uses them.
- `make_scale_mat4f` with one factor, `transpose`, the products with a scalar, and the `double` vectors: they add nothing harder.
- Axis-aligned bounding boxes, which the source has not implemented.
- The default frustum constructor, which computes no planes.
- Reading and writing pixels of images whose array is shorter than their size, or of more than four components: the accessors then read outside the array or drop bytes.
- TransformNodes.TransformNode.Cull: matrices of the surroundings that are not affine, and what happens after the decision; children are their bounding volumes, and that a child's change marks its ancestors as dirty is part of being up to date.
- Parsing and printing of all types; the grammar is not part of this model.
- Cyclic graphs of routes: the source recurses without end on them. `event_side_effect` overrides other than those of the Transform node, the mutexes around emitters, and the browser's own modified flag.
- EventCascade.ProcessEvent: fields of one value type only, as one instance of the template has.
- StreamProtocol.EveryRunSendsStreams: says nothing about the type and URL that go with NewStream, or about a NewStream call that reached the browser although it was reported as failed.
- The destruction of the stream table when the widget is unrealized, and what the pending idle callback does.
- `finalize` of the event source, and the callback at the end of `dispatch`, which is the protocol's step for reports.
- PollList.CurlSource.Prepare: curl's time to wait is not cut off to the width of an `int`.
- PollList.CurlSource.ResetFds: file descriptors beyond the size of an `fd_set`, and what becomes of a freed entry that goes on being polled.
- The counter of control paths is unbounded; in the source it starts again after 2^64 controls.
- BrowserFactories.BrowserFactory.CreateControl: running out of memory while the shutdown callback is connected, which the source does not catch.
- Scripts, the Mozilla plug-in, the XEmbed widget, the viewers and the players.
