/** Transform nodes: their cached matrix and bounding sphere, and how they are
    culled. */
module TransformNodes {
  import opened Reals
  import opened Vectors
  import opened Matrices
  import opened Balls
  import opened BallTransforms
  import opened TransformBuilder
  import opened TransformSpheres
  import opened Frustums
  import opened Culling
  import opened BoundingSpheres

  datatype FieldEvent =
    | Center(point: Vec) | RotationTo(turn: Rotation) | ScaleTo(factors: Vec) | ScaleOrientation(turn: Rotation)
    | TranslationTo(move: Vec)

  class TransformNode {
    var center: Vec
    var rotation: Rotation
    var scale: Vec
    var scaleOrientation: Rotation
    var translation: Vec
    /** The bounding volumes of the children that have one. */
    var children: seq<BoundingSphere>
    const bsphere: BoundingSphere
    var boundingVolumeDirty: bool
    var transform: Mat
    var transformDirty: bool

    ghost predicate Valid()
      reads this, bsphere, children
    {
      bsphere.Valid() && bsphere !in children && forall child <- children :: child.Valid()
    }

    /** The matrix that the fields stand for. */
    function Matrix(sin: real -> real, cos: real -> real): Mat
      reads this
    {
      Transformation(sin, cos, translation, rotation, scale, scaleOrientation, center)
    }

    /** Where the largest factor of the scale stays on an axis. */
    predicate KeepsSpheres(sin: real -> real, cos: real -> real)
      reads this
    {
      && Cancels(rotation.axis, cos(rotation.angle)) && Cancels(scaleOrientation.axis, cos(scaleOrientation.angle))
      && LargestOnAxis(scale, TurnAfterScale(sin, cos, rotation, scaleOrientation))
    }

    /** Whatever is not marked as dirty agrees with the fields and the children. */
    ghost predicate UpToDate(sqrt: real -> real, sin: real -> real, cos: real -> real)
      requires IsRoot(sqrt)
      reads this, bsphere, children
    {
      && (!transformDirty ==> transform == Matrix(sin, cos))
      && (!boundingVolumeDirty ==>
          && bsphere.Volume() == Mapped(sqrt, GroupVolume(sqrt, Volumes(children)), Matrix(sin, cos))
          && bsphere.maximized == AnyMaximized(children))
    }

    constructor ()
      ensures Valid() && boundingVolumeDirty && transformDirty && fresh(bsphere) && children == []
      ensures center == translation == ORIGIN && scale == Vec(1.0, 1.0, 1.0)
      ensures rotation == scaleOrientation == Rotation(Z_DIRECTION, 0.0)
    {
      center, translation, scale := ORIGIN, ORIGIN, Vec(1.0, 1.0, 1.0);
      rotation, scaleOrientation := Rotation(Z_DIRECTION, 0.0), Rotation(Z_DIRECTION, 0.0);
      children := [];
      bsphere := new BoundingSphere();
      boundingVolumeDirty, transformDirty := true, true;
      transform := IDENTITY;
    }

    /** A new value for one of the five fields that make the matrix. */
    method ProcessEvent(event: FieldEvent)
      modifies this`center, this`rotation, this`scale, this`scaleOrientation, this`translation,
               this`boundingVolumeDirty, this`transformDirty
      ensures boundingVolumeDirty && transformDirty
      ensures center == if event.Center? then event.point else old(center)
      ensures rotation == if event.RotationTo? then event.turn else old(rotation)
      ensures scale == if event.ScaleTo? then event.factors else old(scale)
      ensures scaleOrientation == if event.ScaleOrientation? then event.turn else old(scaleOrientation)
      ensures translation == if event.TranslationTo? then event.move else old(translation)
    {
      match event {
        case Center(p) => center := p;
        case RotationTo(r) => rotation := r;
        case ScaleTo(s) => scale := s;
        case ScaleOrientation(r) => scaleOrientation := r;
        case TranslationTo(t) => translation := t;
      }
      boundingVolumeDirty := true;
      transformDirty := true;
    }

    method UpdateTransform(sin: real -> real, cos: real -> real)
      requires IsTrig(sin, cos)
      requires !transformDirty ==> transform == Matrix(sin, cos)
      modifies this`transform, this`transformDirty
      ensures !transformDirty && transform == Matrix(sin, cos)
    {
      hide IsTrig, Transformation, FullTransformation, Cancels, Norm2;
      if transformDirty {
        transform := MakeTransformation(sin, cos, translation, rotation, scale, scaleOrientation, center);
        transformDirty := false;
      }
    }

    /** Encloses the children's bounding volumes, one after the other, as every
        grouping node does. */
    method EncloseChildren(sqrt: real -> real)
      requires IsRoot(sqrt) && Valid()
      modifies bsphere, this`boundingVolumeDirty
      ensures Valid() && !boundingVolumeDirty
      ensures bsphere.Volume() == GroupVolume(sqrt, Volumes(children))
      ensures bsphere.maximized == AnyMaximized(children)
      ensures Volumes(children) == old(Volumes(children)) && AnyMaximized(children) == old(AnyMaximized(children))
    {
      hide IsRoot, ExtendedBySphere, Covers, Length, GroupVolume, Volumes, bsphere.Volume;
      ghost var volumes := Volumes(children);
      bsphere.center, bsphere.radius, bsphere.maximized := ORIGIN, UNSET, false;
      NoVolume(sqrt, bsphere);
      for i := 0 to |children|
        invariant Valid()
        invariant forall child <- children :: unchanged(child)
        invariant bsphere.Volume() == GroupVolume(sqrt, volumes[..i])
        invariant bsphere.maximized == AnyMaximized(children[..i])
      {
        NextVolume(sqrt, volumes, i);
        bsphere.ExtendSphere(sqrt, children[i]);
        NextMaximized(children, i);
      }
      assert volumes[..|children|] == volumes && children[..|children|] == children;
      boundingVolumeDirty := false;
    }

    /** The sphere of the children, mapped to where the node puts them. */
    method RecalcBSphere(sqrt: real -> real, sin: real -> real, cos: real -> real)
      requires IsRoot(sqrt) && IsTrig(sin, cos) && Valid() && UpToDate(sqrt, sin, cos)
      modifies bsphere, this`transform, this`transformDirty, this`boundingVolumeDirty
      ensures Valid() && UpToDate(sqrt, sin, cos) && !boundingVolumeDirty && !transformDirty
    {
      hide IsTrig, IsRoot, Transformation, Transformed, CoversImage, GroupVolume, Volumes, AnyMaximized, Finite, Affine;
      hide Tight, Length, Norm2;
      EncloseChildren(sqrt);
      UpdateTransform(sin, cos);
      TransformationAffine(sin, cos, translation, rotation, scale, scaleOrientation, center);
      AffineApply(bsphere.center, transform);
      bsphere.Transform(sqrt, transform);
      boundingVolumeDirty := false;
    }

    /** Decides whether the node is drawn, before its children are looked at. */
    method Cull(sqrt: real -> real, sin: real -> real, cos: real -> real, matrix: Mat, f: Frustum)
      returns (code: Intersection)
      requires IsRoot(sqrt) && IsTrig(sin, cos) && Valid() && UpToDate(sqrt, sin, cos)
      requires Affine(matrix) && f.Valid() && f.PlanesDerived()
      modifies bsphere, this`transform, this`transformDirty, this`boundingVolumeDirty
      ensures Valid() && UpToDate(sqrt, sin, cos) && !boundingVolumeDirty
      ensures Volumes(children) == old(Volumes(children)) && AnyMaximized(children) == old(AnyMaximized(children))
      ensures Matrix(sin, cos) == old(Matrix(sin, cos))
      ensures var volumes := Volumes(children);
        && (AnyMaximized(children) || GroupVolume(sqrt, volumes).radius == UNSET ==> code == Partial)
        && (!AnyMaximized(children) && Seen(sqrt, volumes, Matrix(sin, cos), matrix).radius != UNSET ==>
            && (code == Outside <==> BeyondASide(f, Seen(sqrt, volumes, Matrix(sin, cos), matrix)))
            && (code == Inside <==> InView(f, Seen(sqrt, volumes, Matrix(sin, cos), matrix))))
        && (code == Outside ==> OutOfView(f, Seen(sqrt, volumes, Matrix(sin, cos), matrix)))
        && (code == Inside ==> InView(f, Seen(sqrt, volumes, Matrix(sin, cos), matrix)))
      ensures KeepsSpheres(sin, cos) && Tight(matrix) ==>
        && (code == Outside ==> NoneVisible(f, sqrt, Volumes(children), Matrix(sin, cos), matrix))
        && (code == Inside ==> AllVisible(f, sqrt, Volumes(children), Matrix(sin, cos), matrix))
    {
      hide IsTrig, IsRoot, Transformation, GroupVolume, Volumes, AnyMaximized, Affine, Mapped, KeepsSpheres;
      hide Tight, f.Valid, f.PlanesDerived, NoneVisible, AllVisible, BeyondASide, OutOfView, InView;
      if boundingVolumeDirty {
        RecalcBSphere(sqrt, sin, cos);
      }
      var copy := MappedCopy(sqrt, bsphere, matrix);
      code := Classify(copy, f);
      if GroupVolume(sqrt, Volumes(children)).radius == UNSET {
        UnsetStays(sqrt, GroupVolume(sqrt, Volumes(children)), Matrix(sin, cos));
        UnsetStays(sqrt, GroupVolume(sqrt, Volumes(children)), matrix);
      }
      CullingDecides(sqrt, sin, cos, this, matrix, f);
    }
  }

  method MappedCopy(sqrt: real -> real, b: BoundingSphere, matrix: Mat) returns (copy: BoundingSphere)
    requires IsRoot(sqrt) && b.Valid() && Affine(matrix)
    ensures fresh(copy) && copy.Valid()
    ensures copy.maximized == b.maximized && copy.Volume() == Mapped(sqrt, b.Volume(), matrix)
  {
    hide IsRoot, Transformed, CoversImage, Finite, Affine, Tight, Length, Norm2;
    copy := new BoundingSphere();
    copy.center, copy.radius, copy.maximized := b.center, b.radius, b.maximized;
    AffineApply(copy.center, matrix);
    copy.Transform(sqrt, matrix);
  }

  /** The meaning of a sphere's classification, whatever its state. */
  method Classify(b: BoundingSphere, f: Frustum) returns (code: Intersection)
    requires b.Valid() && f.Valid() && f.PlanesDerived()
    ensures b.maximized || b.radius == UNSET ==> code == Partial
    ensures !b.maximized && b.radius != UNSET ==>
      (code == Outside <==> BeyondASide(f, b.Volume())) && (code == Inside <==> InView(f, b.Volume()))
    ensures code == Outside ==> OutOfView(f, b.Volume())
    ensures code == Inside ==> InView(f, b.Volume())
  {
    hide In, Beyond, f.InView, f.Valid, f.PlanesDerived;
    code := b.IntersectFrustum(f);
  }

  lemma UnsetStays(sqrt: real -> real, b: Ball, m: Mat)
    requires IsRoot(sqrt) && b.radius == UNSET
    ensures Mapped(sqrt, b, m) == b
  {
  }

  /** Where the sphere of the children ends up: mapped by the node's matrix and by
      that of its surroundings. */
  function Seen(sqrt: real -> real, volumes: seq<Ball>, m: Mat, surroundings: Mat): Ball
    requires IsRoot(sqrt)
  {
    Mapped(sqrt, Mapped(sqrt, GroupVolume(sqrt, volumes), m), surroundings)
  }

  /** The child's volume is not taken in by the sphere of those before it. */
  predicate LeftOut(sqrt: real -> real, volumes: seq<Ball>, i: nat)
    requires IsRoot(sqrt) && i < |volumes|
  {
    var a, b := GroupVolume(sqrt, volumes[..i]), volumes[i];
    && a.radius != UNSET && b.radius != UNSET && a.center != b.center
    && Length(sqrt, Sub(b.center, a.center)) + a.radius < b.radius
  }

  /** The point `p` of a child is in view. */
  ghost predicate Visible(f: Frustum, p: Vec, m: Mat, surroundings: Mat)
    reads f
  {
    Finite(p, m) && Finite(Apply(p, m), surroundings) && f.InView(Apply(Apply(p, m), surroundings))
  }

  ghost predicate NoneVisible(f: Frustum, sqrt: real -> real, volumes: seq<Ball>, m: Mat, surroundings: Mat)
    requires IsRoot(sqrt)
    reads f
  {
    forall i, p :: 0 <= i < |volumes| && !LeftOut(sqrt, volumes, i) && In(p, volumes[i])
      ==> !Visible(f, p, m, surroundings)
  }

  ghost predicate AllVisible(f: Frustum, sqrt: real -> real, volumes: seq<Ball>, m: Mat, surroundings: Mat)
    requires IsRoot(sqrt)
    reads f
  {
    forall i, p :: 0 <= i < |volumes| && !LeftOut(sqrt, volumes, i) && In(p, volumes[i])
      ==> Visible(f, p, m, surroundings)
  }

  ghost predicate BeyondASide(f: Frustum, b: Ball)
    reads f
  {
    exists side :: Beyond(f, side, b)
  }

  ghost predicate OutOfView(f: Frustum, b: Ball)
    reads f
  {
    forall p :: In(p, b) ==> !f.InView(p)
  }

  ghost predicate InView(f: Frustum, b: Ball)
    reads f
  {
    forall p :: In(p, b) ==> f.InView(p)
  }

  /** The volumes of the given spheres. */
  function Volumes(spheres: seq<BoundingSphere>): (v: seq<Ball>)
    reads spheres
    ensures |v| == |spheres|
    ensures forall i :: 0 <= i < |spheres| ==> v[i] == spheres[i].Volume()
  {
    if spheres == [] then [] else Volumes(spheres[..|spheres| - 1]) + [spheres[|spheres| - 1].Volume()]
  }

  ghost predicate AnyMaximized(spheres: seq<BoundingSphere>)
    reads spheres
  {
    exists i :: 0 <= i < |spheres| && spheres[i].maximized
  }

  /** The sphere of a group: an unset sphere extended by each volume in turn. */
  function GroupVolume(sqrt: real -> real, volumes: seq<Ball>): Ball
    requires IsRoot(sqrt)
  {
    if volumes == [] then Ball(ORIGIN, UNSET)
    else ExtendedBySphere(sqrt, GroupVolume(sqrt, volumes[..|volumes| - 1]), volumes[|volumes| - 1])
  }

  lemma NoVolume(sqrt: real -> real, b: BoundingSphere)
    requires IsRoot(sqrt) && b.center == ORIGIN && b.radius == UNSET
    ensures b.Volume() == GroupVolume(sqrt, [])
  {
  }

  lemma NextVolume(sqrt: real -> real, volumes: seq<Ball>, i: nat)
    requires IsRoot(sqrt) && i < |volumes|
    ensures GroupVolume(sqrt, volumes[..i + 1]) == ExtendedBySphere(sqrt, GroupVolume(sqrt, volumes[..i]), volumes[i])
  {
    assert volumes[..i + 1][..i] == volumes[..i];
  }

  lemma NextMaximized(spheres: seq<BoundingSphere>, i: nat)
    requires i < |spheres|
    ensures AnyMaximized(spheres[..i + 1]) == (AnyMaximized(spheres[..i]) || spheres[i].maximized)
  {
    assert spheres[..i + 1][i] == spheres[i];
    if AnyMaximized(spheres[..i]) {
      var j :| 0 <= j < i && spheres[..i][j].maximized;
      assert spheres[..i + 1][j].maximized;
    }
    if AnyMaximized(spheres[..i + 1]) && !spheres[i].maximized {
      var j :| 0 <= j < i + 1 && spheres[..i + 1][j].maximized;
      assert spheres[..i][j].maximized;
    }
  }

  /** A sphere mapped by an affine matrix, unless it is unset. */
  function Mapped(sqrt: real -> real, b: Ball, m: Mat): Ball
    requires IsRoot(sqrt)
  {
    if b.radius == UNSET || !Finite(b.center, m) then b else Transformed(sqrt, b, m)
  }

  ghost predicate ProperVolumes(volumes: seq<Ball>) {
    forall b <- volumes :: b.radius == UNSET || 0.0 <= b.radius
  }

  /** One more volume: what was taken in stays, and the new one is taken in exactly
      unless it swallows the sphere of the others. */
  lemma LastTakenIn(sqrt: real -> real, volumes: seq<Ball>)
    requires IsRoot(sqrt) && ProperVolumes(volumes) && volumes != []
    requires var g := GroupVolume(sqrt, volumes[..|volumes| - 1]); g.radius == UNSET || 0.0 <= g.radius
    ensures var n, g := |volumes| - 1, GroupVolume(sqrt, volumes);
      && (g.radius == UNSET || 0.0 <= g.radius)
      && Covers(g, GroupVolume(sqrt, volumes[..n]))
      && (Covers(g, volumes[n]) <==> !LeftOut(sqrt, volumes, n))
  {
    hide ExtendedBySphere, Length, Sub, Covers;
    var n := |volumes| - 1;
    ExtendedBySphereCovers(sqrt, GroupVolume(sqrt, volumes[..n]), volumes[n]);
  }

  /** The sphere of a group takes in every volume but those that swallow the sphere
      of the volumes before them. */
  lemma {:induction false} GroupTakesIn(sqrt: real -> real, volumes: seq<Ball>)
    requires IsRoot(sqrt) && ProperVolumes(volumes)
    ensures var g := GroupVolume(sqrt, volumes);
      && (g.radius == UNSET || 0.0 <= g.radius)
      && (forall i :: 0 <= i < |volumes| && !LeftOut(sqrt, volumes, i) ==> Covers(g, volumes[i]))
  {
    hide *;
    if volumes == [] {
      NothingGrouped(sqrt, volumes);
    } else {
      var n := |volumes| - 1;
      var rest := volumes[..n];
      ProperBefore(volumes, n);
      GroupTakesIn(sqrt, rest);
      LastTakenIn(sqrt, volumes);
      forall i | 0 <= i < n && !LeftOut(sqrt, volumes, i)
        ensures Covers(GroupVolume(sqrt, volumes), volumes[i])
      {
        LeftOutBefore(sqrt, volumes, n, i);
        CoversThrough(GroupVolume(sqrt, volumes), GroupVolume(sqrt, rest), volumes[i]);
      }
    }
  }

  lemma NothingGrouped(sqrt: real -> real, volumes: seq<Ball>)
    requires IsRoot(sqrt) && volumes == []
    ensures GroupVolume(sqrt, volumes).radius == UNSET
  {
  }

  lemma ProperBefore(volumes: seq<Ball>, n: nat)
    requires ProperVolumes(volumes) && n <= |volumes|
    ensures ProperVolumes(volumes[..n])
  {
  }

  lemma LeftOutBefore(sqrt: real -> real, volumes: seq<Ball>, n: nat, i: nat)
    requires IsRoot(sqrt) && i < n <= |volumes|
    ensures LeftOut(sqrt, volumes[..n], i) == LeftOut(sqrt, volumes, i)
  {
    hide GroupVolume, Length, Sub;
    assert volumes[..n][..i] == volumes[..i];
  }

  lemma CoversThrough(a: Ball, b: Ball, c: Ball)
    requires Covers(a, b) && Covers(b, c)
    ensures Covers(a, c)
  {
  }

  /** Every point of a child that is taken in stays in the sphere that is seen. */
  lemma ContentsSeen(sqrt: real -> real, volumes: seq<Ball>, m: Mat, surroundings: Mat, i: nat, p: Vec)
    requires IsRoot(sqrt) && ProperVolumes(volumes)
    requires Affine(m) && Tight(m) && Affine(surroundings) && Tight(surroundings)
    requires i < |volumes| && !LeftOut(sqrt, volumes, i) && In(p, volumes[i])
    ensures Finite(p, m) && Finite(Apply(p, m), surroundings)
    ensures In(Apply(Apply(p, m), surroundings), Seen(sqrt, volumes, m, surroundings))
  {
    hide Tight, Affine, Finite, Apply, GroupVolume, LeftOut, Norm2, Sub, Transformed;
    GroupTakesIn(sqrt, volumes);
    var g := GroupVolume(sqrt, volumes);
    MappedCovers(sqrt, g, m, p);
    MappedCovers(sqrt, Mapped(sqrt, g, m), surroundings, Apply(p, m));
  }

  lemma MappedCovers(sqrt: real -> real, b: Ball, m: Mat, p: Vec)
    requires IsRoot(sqrt) && Affine(m) && Tight(m) && In(p, b)
    ensures Finite(p, m) && In(Apply(p, m), Mapped(sqrt, b, m))
  {
    hide Tight, Affine, Finite, Apply, Norm2, Sub, Transformed, IsRoot;
    TightCovers(sqrt, b, m);
  }

  lemma SeenDecides(f: Frustum, sqrt: real -> real, volumes: seq<Ball>, m: Mat, surroundings: Mat)
    requires IsRoot(sqrt) && ProperVolumes(volumes)
    requires Affine(m) && Tight(m) && Affine(surroundings) && Tight(surroundings)
    ensures var b := Seen(sqrt, volumes, m, surroundings);
      && (OutOfView(f, b) ==> NoneVisible(f, sqrt, volumes, m, surroundings))
      && (InView(f, b) ==> AllVisible(f, sqrt, volumes, m, surroundings))
  {
    hide Tight, Affine, Finite, Apply, Seen, LeftOut, In, IsRoot, f.InView, ProperVolumes;
    forall i, p | 0 <= i < |volumes| && !LeftOut(sqrt, volumes, i) && In(p, volumes[i])
      ensures Finite(p, m) && Finite(Apply(p, m), surroundings)
      ensures In(Apply(Apply(p, m), surroundings), Seen(sqrt, volumes, m, surroundings))
    {
      ContentsSeen(sqrt, volumes, m, surroundings, i, p);
    }
  }

  lemma ValidVolumes(node: TransformNode)
    requires node.Valid()
    ensures ProperVolumes(Volumes(node.children))
  {
    forall b | b in Volumes(node.children)
      ensures b.radius == UNSET || 0.0 <= b.radius
    {
      var i :| 0 <= i < |node.children| && Volumes(node.children)[i] == b;
      assert node.children[i].Valid();
    }
  }

  lemma CullingDecides(sqrt: real -> real, sin: real -> real, cos: real -> real, node: TransformNode, matrix: Mat,
                       f: Frustum)
    requires IsRoot(sqrt) && IsTrig(sin, cos) && node.Valid() && Affine(matrix)
    ensures var volumes, m := Volumes(node.children), node.Matrix(sin, cos);
      var b := Seen(sqrt, volumes, m, matrix);
      node.KeepsSpheres(sin, cos) && Tight(matrix) ==>
        && (OutOfView(f, b) ==> NoneVisible(f, sqrt, volumes, m, matrix))
        && (InView(f, b) ==> AllVisible(f, sqrt, volumes, m, matrix))
  {
    hide Tight, Affine, Transformation, Seen, IsRoot, IsTrig, NoneVisible, AllVisible, OutOfView, InView;
    hide LargestOnAxis, TurnAfterScale, Cancels, Conformal;
    if node.KeepsSpheres(sin, cos) && Tight(matrix) {
      NodeIsTight(sin, cos, node.translation, node.rotation, node.scale, node.scaleOrientation, node.center);
      ValidVolumes(node);
      SeenDecides(f, sqrt, Volumes(node.children), node.Matrix(sin, cos), matrix);
    }
  }

  lemma NodeIsTight(sin: real -> real, cos: real -> real, t: Vec, r: Rotation, s: Vec, sr: Rotation, c: Vec)
    requires IsTrig(sin, cos) && Cancels(r.axis, cos(r.angle)) && Cancels(sr.axis, cos(sr.angle))
    ensures var m := Transformation(sin, cos, t, r, s, sr, c);
      && Affine(m)
      && (Tight(m) <==> LargestOnAxis(s, TurnAfterScale(sin, cos, r, sr)))
      && (Uniform(s) ==> Conformal(m, Square(s.x)))
  {
    hide *;
    BuiltIsFull(sin, cos, t, r, s, sr, c);
    TransformationSound(sin, cos, t, r, s, sr, c);
  }

  /** For a node that turns by proper rotations, the mapped sphere holds the images
      of all points exactly when the largest factor of the scale stays on an axis. */
  lemma NodeKeepsSphereExactly(sqrt: real -> real, sin: real -> real, cos: real -> real, b: Ball,
                               t: Vec, r: Rotation, s: Vec, sr: Rotation, c: Vec)
    requires IsRoot(sqrt) && IsTrig(sin, cos) && 0.0 < b.radius
    requires Cancels(r.axis, cos(r.angle)) && Cancels(sr.axis, cos(sr.angle))
    ensures var m := Transformation(sin, cos, t, r, s, sr, c);
      CoversImage(Mapped(sqrt, b, m), b, m) <==> LargestOnAxis(s, TurnAfterScale(sin, cos, r, sr))
  {
    var m := Transformation(sin, cos, t, r, s, sr, c);
    hide Transformation, Affine, Tight, CoversImage, Transformed, Finite, Cancels, IsTrig, IsRoot, Conformal;
    hide LargestOnAxis, TurnAfterScale;
    NodeIsTight(sin, cos, t, r, s, sr, c);
    TransformExact(sqrt, b, m);
  }

  /** With a uniform scale it holds the images of no other points. */
  lemma UniformNodeExact(sqrt: real -> real, sin: real -> real, cos: real -> real, b: Ball,
                         t: Vec, r: Rotation, s: Vec, sr: Rotation, c: Vec, p: Vec)
    requires IsRoot(sqrt) && IsTrig(sin, cos) && 0.0 <= b.radius && Uniform(s) && s.x != 0.0
    requires Cancels(r.axis, cos(r.angle)) && Cancels(sr.axis, cos(sr.angle))
    ensures var m := Transformation(sin, cos, t, r, s, sr, c);
      Finite(p, m) && (In(p, b) <==> In(Apply(p, m), Mapped(sqrt, b, m)))
  {
    var m := Transformation(sin, cos, t, r, s, sr, c);
    var k := if s.x < 0.0 then -s.x else s.x;
    SquareOfNegated(s.x);
    hide Transformation, Affine, Tight, Finite, Apply, In, Transformed, Cancels, IsTrig, IsRoot, Conformal, Square;
    hide LargestOnAxis, TurnAfterScale;
    NodeIsTight(sin, cos, t, r, s, sr, c);
    OrthoTransformExact(sqrt, b, m, k, p);
  }

  lemma UnsetIgnored(sqrt: real -> real, a: Ball, b: Ball)
    requires IsRoot(sqrt) && b.radius == UNSET
    ensures ExtendedBySphere(sqrt, a, b) == a
  {
  }

  /** A sphere that was never set leaves no trace in the sphere of its group. */
  lemma {:induction false} UnsetLeavesNoTrace(sqrt: real -> real, before: seq<Ball>, b: Ball, after: seq<Ball>)
    requires IsRoot(sqrt) && b.radius == UNSET
    ensures GroupVolume(sqrt, before + [b] + after) == GroupVolume(sqrt, before + after)
  {
    hide ExtendedBySphere;
    if after == [] {
      UnsetIgnored(sqrt, GroupVolume(sqrt, before), b);
      assert (before + [b] + after)[..|before|] == before && before + after == before;
    } else {
      var n := |after| - 1;
      UnsetLeavesNoTrace(sqrt, before, b, after[..n]);
      assert (before + [b] + after)[..|before| + 1 + n] == before + [b] + after[..n];
      assert (before + after)[..|before| + n] == before + after[..n];
    }
  }

  /** A node puts every point of its children to where its own fields say. */
  lemma NodePlaces(node: TransformNode, sin: real -> real, cos: real -> real, p: Vec)
    requires IsTrig(sin, cos) && Cancels(node.scaleOrientation.axis, cos(node.scaleOrientation.angle))
    ensures var m := node.Matrix(sin, cos);
      && Finite(p, m)
      && Apply(p, m) == Placed(sin, cos, p, node.translation, node.rotation, node.scale, node.scaleOrientation,
                               node.center)
  {
    hide IsTrig, Cancels, Placed, FullTransformation, Transformation, Finite, Apply, Affine;
    BuiltIsFull(sin, cos, node.translation, node.rotation, node.scale, node.scaleOrientation, node.center);
    TransformationPlaces(sin, cos, p, node.translation, node.rotation, node.scale, node.scaleOrientation,
                         node.center);
  }

  lemma TransformationAffine(sin: real -> real, cos: real -> real, t: Vec, r: Rotation, s: Vec, sr: Rotation, c: Vec)
    ensures Affine(Transformation(sin, cos, t, r, s, sr, c))
  {
    hide Mul, RotationMat, ScaleMat, TranslationMat, Affine, Linear, Neg, Stretch, Factors;
    TransformationFactors(sin, cos, t, r, s, sr, c);
    TranslationLinear(ORIGIN, Neg(c));
    TranslationLinear(ORIGIN, c);
    TranslationLinear(ORIGIN, t);
    RotationAffine(sin, cos, r);
    var m2 := Mul(TranslationMat(c), TranslationMat(t));
    MulAffine(TranslationMat(c), TranslationMat(t));
    MulAffine(RotationMat(sin, cos, r), m2);
    MulAffine(TranslationMat(Neg(c)), Mul(RotationMat(sin, cos, r), m2));
  }

  const STRETCH := Vec(10.0, 1.0, 1.0)
  const MOVE := Vec(-8.0, 0.0, 5.0)
  const NO_TURN := Rotation(Z_DIRECTION, 0.0)

  /** Stretched along x, turned about y and moved. */
  function StretchedAndTurned(sin: real -> real, cos: real -> real, angle: real): Mat {
    Transformation(sin, cos, MOVE, Rotation(Y_DIRECTION, angle), STRETCH, NO_TURN, ORIGIN)
  }

  method StretchedNode(angle: real) returns (node: TransformNode)
    ensures fresh(node) && fresh(node.bsphere) && node.Valid() && node.boundingVolumeDirty && node.transformDirty
    ensures |node.children| == 1 && node.children[0].Volume() == Ball(ORIGIN, 1.0)
    ensures !node.children[0].maximized
    ensures node.center == ORIGIN && node.rotation == Rotation(Y_DIRECTION, angle) && node.scale == STRETCH
         && node.scaleOrientation == NO_TURN && node.translation == MOVE
  {
    node := new TransformNode();
    var sphere := new BoundingSphere();
    sphere.radius := 1.0;
    node.children := [sphere];
    node.ProcessEvent(ScaleTo(STRETCH));
    node.ProcessEvent(RotationTo(Rotation(Y_DIRECTION, angle)));
    node.ProcessEvent(TranslationTo(MOVE));
  }

  /** A unit sphere that is stretched along x, turned about y and moved: its node is
      culled though the tip of the stretched sphere is in view. */
  method VisibleNodeCulled(sqrt: real -> real, sin: real -> real, cos: real -> real, angle: real, f: Frustum)
    returns (node: TransformNode, code: Intersection)
    requires IsRoot(sqrt) && IsTrig(sin, cos) && sin(angle) == 0.6 && cos(angle) == 0.8
    requires f.Valid() && f.PlanesDerived() && f.tanX == 0.75 && f.zNear < 1.0 < f.zFar
    ensures Volumes(node.children) == [Ball(ORIGIN, 1.0)] && In(X_DIRECTION, Ball(ORIGIN, 1.0))
    ensures Visible(f, X_DIRECTION, node.Matrix(sin, cos), IDENTITY) && code == Outside
  {
    hide *;
    TipInView(sin, cos, angle, f);
    SeenBeyond(sqrt, sin, cos, angle, f);
    UnmovedByIdentity(MOVE);
    UnitXAxis();
    TipInSphere(X_DIRECTION, ORIGIN, 1.0);
    node := StretchedNode(angle);
    StretchedState(node, sqrt, sin, cos, angle);
    code := node.Cull(sqrt, sin, cos, IDENTITY, f);
  }

  lemma BeyondThisSide(f: Frustum, side: Side, b: Ball)
    requires Beyond(f, side, b)
    ensures BeyondASide(f, b)
  {
    hide Beyond;
  }

  lemma StretchedState(node: TransformNode, sqrt: real -> real, sin: real -> real, cos: real -> real, angle: real)
    requires IsRoot(sqrt) && node.boundingVolumeDirty && node.transformDirty
    requires |node.children| == 1 && node.children[0].Volume() == Ball(ORIGIN, 1.0) && !node.children[0].maximized
    requires node.center == ORIGIN && node.rotation == Rotation(Y_DIRECTION, angle) && node.scale == STRETCH
          && node.scaleOrientation == NO_TURN && node.translation == MOVE
    ensures node.UpToDate(sqrt, sin, cos) && node.Matrix(sin, cos) == StretchedAndTurned(sin, cos, angle)
    ensures Volumes(node.children) == [Ball(ORIGIN, 1.0)] && !AnyMaximized(node.children)
  {
    hide Transformation, IsRoot;
  }

  lemma TipInSphere(p: Vec, c: Vec, r: real)
    requires Norm2(p) == 1.0 && c == ORIGIN && r == 1.0
    ensures In(p, Ball(c, r))
  {
    hide Norm2, Dot;
    assert Sub(p, c) == p;
  }

  lemma TurnedAboutY(p: Vec, n: Vec, s: real, c: real)
    requires n == Y_DIRECTION && p.y == 0.0
    ensures Turned(p, n, s, c) == Vec(p.x * c + p.z * s, 0.0, p.z * c - p.x * s)
  {
  }

  /** Where the stretched and turned node puts a point of the xz plane. */
  lemma TipPlaced(sin: real -> real, cos: real -> real, angle: real, p: Vec)
    requires IsTrig(sin, cos) && sin(angle) == 0.6 && cos(angle) == 0.8 && p.y == 0.0
    ensures var m := StretchedAndTurned(sin, cos, angle);
      Affine(m) && Finite(p, m) && Apply(p, m) == Vec(8.0 * p.x + 0.6 * p.z - 8.0, 0.0, 0.8 * p.z - 6.0 * p.x + 5.0)
  {
    hide Turned, Affine, Finite, Apply, FullTransformation, Placed, IsTrig;
    var r := Rotation(Y_DIRECTION, angle);
    TransformationPlaces(sin, cos, p, MOVE, r, STRETCH, NO_TURN, ORIGIN);
    PlacedSimply(sin, cos, p, MOVE, r, STRETCH, NO_TURN, ORIGIN);
    TurnedAboutY(Stretch(p, STRETCH), Y_DIRECTION, sin(angle), cos(angle));
  }

  lemma TipInView(sin: real -> real, cos: real -> real, angle: real, f: Frustum)
    requires IsTrig(sin, cos) && sin(angle) == 0.6 && cos(angle) == 0.8
    requires f.Valid() && f.tanX == 0.75 && f.zNear < 1.0 < f.zFar
    ensures Visible(f, X_DIRECTION, StretchedAndTurned(sin, cos, angle), IDENTITY)
  {
    hide StretchedAndTurned, Affine, Finite, Apply, IsTrig;
    TipPlaced(sin, cos, angle, X_DIRECTION);
    UnmovedByIdentity(Vec(0.0, 0.0, -1.0));
  }

  lemma UnmovedByIdentity(p: Vec)
    ensures Affine(IDENTITY) && Finite(p, IDENTITY) && Apply(p, IDENTITY) == p
    ensures LongestFirst(IDENTITY).0 == X_DIRECTION
  {
  }

  lemma LoneVolume(sqrt: real -> real, b: Ball)
    requires IsRoot(sqrt) && b.radius != UNSET
    ensures GroupVolume(sqrt, [b]) == b
  {
    hide IsRoot;
    assert GroupVolume(sqrt, [b][..0]) == Ball(ORIGIN, UNSET);
  }

  lemma MappedParts(sqrt: real -> real, b: Ball, m: Mat)
    requires IsRoot(sqrt) && b.radius != UNSET && Finite(b.center, m)
    ensures Mapped(sqrt, b, m) == Ball(Apply(b.center, m), Product(b.radius, Length(sqrt, LongestFirst(m).0)))
  {
    hide Finite, Apply, Length, LongestFirst, IsRoot, Transformed;
    TransformedParts(sqrt, b, m);
  }

  lemma UnmovedBall(sqrt: real -> real, b: Ball)
    requires IsRoot(sqrt) && b.radius != UNSET
    ensures Mapped(sqrt, b, IDENTITY) == b
  {
    hide *;
    UnmovedByIdentity(b.center);
    UnitXAxis();
    UnitLength(sqrt, X_DIRECTION);
    MappedParts(sqrt, b, IDENTITY);
    TimesOne(b.radius);
  }

  lemma UnitLength(sqrt: real -> real, u: Vec)
    requires IsRoot(sqrt) && Norm2(u) == 1.0
    ensures Length(sqrt, u) == 1.0
  {
    assert Square(Length(sqrt, u)) == 1.0;
    hide Length, IsRoot, Norm2, Square;
    UnitSquare(Length(sqrt, u));
  }

  lemma CentrePlaced(sin: real -> real, cos: real -> real, angle: real)
    requires IsTrig(sin, cos) && sin(angle) == 0.6 && cos(angle) == 0.8
    ensures var m := StretchedAndTurned(sin, cos, angle); Finite(ORIGIN, m) && Apply(ORIGIN, m) == MOVE
  {
    hide StretchedAndTurned, Affine, Finite, Apply, IsTrig;
    TipPlaced(sin, cos, angle, ORIGIN);
  }

  lemma ShortLength(sqrt: real -> real, a: Vec, r: real)
    requires IsRoot(sqrt) && Norm2(a) <= Square(r) && 0.0 <= r
    ensures 0.0 <= Product(1.0, Length(sqrt, a)) <= r
  {
    hide IsRoot, Norm2, Square, Product;
    assert 0.0 <= Length(sqrt, a) && Square(Length(sqrt, a)) == Norm2(a);
    SquareOrder(r, Length(sqrt, a));
    OneTimes(Length(sqrt, a));
  }

  lemma OneTimes(x: real)
    ensures Product(1.0, x) == x
  {
  }

  lemma StretchedBall(sqrt: real -> real, sin: real -> real, cos: real -> real, angle: real, b: Ball)
    requires IsRoot(sqrt) && IsTrig(sin, cos) && sin(angle) == 0.6 && cos(angle) == 0.8
    requires b == Ball(ORIGIN, 1.0) && b.radius != UNSET
    ensures var v := Mapped(sqrt, b, StretchedAndTurned(sin, cos, angle)); v.center == MOVE && 0.0 <= v.radius <= 9.0
  {
    hide *;
    var m := StretchedAndTurned(sin, cos, angle);
    CentrePlaced(sin, cos, angle);
    MappedParts(sqrt, b, m);
    LongestColumn(sin, cos, angle);
    ShortLength(sqrt, LongestFirst(m).0, 9.0);
  }

  lemma SeenBeyond(sqrt: real -> real, sin: real -> real, cos: real -> real, angle: real, f: Frustum)
    requires IsRoot(sqrt) && IsTrig(sin, cos) && sin(angle) == 0.6 && cos(angle) == 0.8
    requires f.tanX == 0.75
    ensures var b := Seen(sqrt, [Ball(ORIGIN, 1.0)], StretchedAndTurned(sin, cos, angle), IDENTITY);
      b.radius != UNSET && BeyondASide(f, b)
  {
    hide StretchedAndTurned, IsTrig, IsRoot, Beyond, BeyondASide, Mapped, GroupVolume;
    var unit := Ball(ORIGIN, 1.0);
    var b := Mapped(sqrt, unit, StretchedAndTurned(sin, cos, angle));
    LoneVolume(sqrt, unit);
    StretchedBall(sqrt, sin, cos, angle, unit);
    UnmovedBall(sqrt, b);
    BeyondLeft(f, MOVE, b.radius);
    BeyondThisSide(f, Left, b);
  }

  lemma StretchedIsFull(sin: real -> real, cos: real -> real, angle: real)
    ensures StretchedAndTurned(sin, cos, angle)
         == FullTransformation(sin, cos, MOVE, Rotation(Y_DIRECTION, angle), STRETCH, NO_TURN, ORIGIN)
  {
    hide FullTransformation;
  }

  lemma NoTurnCancels(sin: real -> real, cos: real -> real, r: Rotation)
    requires IsTrig(sin, cos)
    ensures Cancels(NO_TURN.axis, cos(NO_TURN.angle))
    ensures TurnAfterScale(sin, cos, r, NO_TURN) == RotationMat(sin, cos, r)
  {
    hide AxisMat, Mul, Norm2;
    NoRotation(sin, cos, NO_TURN);
    MulIdentity(RotationMat(sin, cos, r));
  }

  lemma ColumnsAboutY(n: Vec, s: real, c: real)
    requires n == Y_DIRECTION
    ensures var q := AxisMat(n, s, c);
      Col0(q) == Vec(c, 0.0, s) && Col1(q) == Vec(0.0, 1.0, 0.0) && Col2(q) == Vec(-s, 0.0, c)
  {
  }

  lemma StretchedShort(x: real, y: real, z: real)
    requires Square(10.0 * x) + Square(y) + Square(z) <= Square(9.0)
    ensures Norm2(Stretch(Vec(x, y, z), STRETCH)) <= Square(9.0)
  {
    hide Norm2, Square;
    NormOfReals(10.0 * x, y, z);
  }

  lemma ShortColumns(q: Mat)
    requires q == AxisMat(Y_DIRECTION, 0.6, 0.8)
    ensures Norm2(Stretch(Col0(q), STRETCH)) <= Square(9.0)
    ensures Norm2(Stretch(Col1(q), STRETCH)) <= Square(9.0)
    ensures Norm2(Stretch(Col2(q), STRETCH)) <= Square(9.0)
  {
    hide AxisMat, Norm2, Stretch, Col0, Col1, Col2;
    ColumnsAboutY(Y_DIRECTION, 0.6, 0.8);
    StretchedShort(0.8, 0.0, 0.6);
    StretchedShort(0.0, 1.0, 0.0);
    StretchedShort(-0.6, 0.0, 0.8);
  }

  lemma TurnAboutY(sin: real -> real, cos: real -> real, angle: real)
    requires sin(angle) == 0.6 && cos(angle) == 0.8
    ensures RotationMat(sin, cos, Rotation(Y_DIRECTION, angle)) == AxisMat(Y_DIRECTION, 0.6, 0.8)
  {
    hide AxisMat;
  }

  /** No column is as long as 9, though the tip is 10 away from the centre. */
  lemma LongestColumn(sin: real -> real, cos: real -> real, angle: real)
    requires IsTrig(sin, cos) && sin(angle) == 0.6 && cos(angle) == 0.8
    ensures Norm2(LongestFirst(StretchedAndTurned(sin, cos, angle)).0) <= Square(9.0)
  {
    hide *;
    var m, r := StretchedAndTurned(sin, cos, angle), Rotation(Y_DIRECTION, angle);
    NoTurnCancels(sin, cos, r);
    StretchedIsFull(sin, cos, angle);
    RotationConformal(sin, cos, NO_TURN);
    TransformationFactors(sin, cos, MOVE, r, STRETCH, NO_TURN, ORIGIN);
    FactoredColumns(m, RotationMat(sin, cos, NO_TURN.Inverse()), STRETCH, RotationMat(sin, cos, r));
    TurnAboutY(sin, cos, angle);
    ShortColumns(RotationMat(sin, cos, r));
    LongestIsLongest(m);
  }

  /** A ball around (-8, 0, 5) that does not reach 9 away is left of the view. */
  lemma BeyondLeft(f: Frustum, c: Vec, r: real)
    requires f.tanX == 0.75 && c == MOVE && 0.0 <= r <= 9.0
    ensures Beyond(f, Left, Ball(c, r))
  {
    var n := Vec(4.0, 0.0, -3.0);
    forall p | In(p, Ball(c, r))
      ensures !f.Within(Left, p)
    {
      SquareOrder(r, 9.0);
      DotBound(n, Sub(p, c), 5.0, 9.0);
    }
  }
}
