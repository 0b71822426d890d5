/** What is outside a node's sphere can be in view while the node is culled. */
module HiddenPoints {
  import opened Reals
  import opened Vectors
  import opened Matrices
  import opened Balls
  import opened BallTransforms
  import opened TransformBuilder
  import opened TransformSpheres
  import opened MatrixToQuaternion
  import opened RotationsBetween
  import opened Frustums
  import opened Culling
  import opened BoundingSpheres
  import opened TransformNodes

  /** A rotation and a translation, without reflection. */
  ghost predicate Rigid(m: Mat) {
    Affine(m) && Conformal(m, 1.0) && Det(Row0(m), Row1(m), Row2(m)) == 1.0
  }

  lemma OppositeUnits(u: Vec, v: Vec)
    requires Norm2(u) == 1.0 && Norm2(v) == 1.0 && Dot(u, v) == -1.0
    ensures u == Neg(v)
  {
    hide Norm2, Dot, Add, Square;
    SumExpansions(u, v, 0.0, 0.0);
    assert Add(u, v) == ORIGIN;
    SumIsNothing(u, v);
  }

  lemma SumIsNothing(u: Vec, v: Vec)
    requires Add(u, v) == ORIGIN
    ensures u == Neg(v)
  {
  }

  lemma HalfTurnAround(u: Vec, v: Vec, n: Vec, s: real, c: real)
    requires u == Neg(v) && Dot(v, n) == 0.0 && s == 0.0 && c == -1.0
    ensures Turned(u, n, s, c) == v
  {
    assert Dot(u, n) == 0.0;
    hide Dot, Cross;
    TurnedAcross(u, n, s, c);
  }

  /** The sine and the cosine between unit vectors. */
  lemma UnitTurn(sqrt: real -> real, u: Vec, v: Vec)
    requires IsRoot(sqrt) && Norm2(u) == 1.0 && Norm2(v) == 1.0
    ensures var s, c := Length(sqrt, Cross(u, v)), Dot(u, v);
      && Square(s) + Square(c) == 1.0
      && Turned(u, Normalize(sqrt, Cross(u, v)), s, c) == v
      && (c != -1.0 ==> Norm2(Normalize(sqrt, Cross(u, v))) == 1.0 || c == 1.0)
  {
    hide *;
    var s, c := Length(sqrt, Cross(u, v)), Dot(u, v);
    UnitLength(sqrt, u);
    UnitLength(sqrt, v);
    TimesOne(1.0);
    TimesOne(s);
    TimesOne(c);
    Lagrange(u, v);
    LengthOfCross(sqrt, u, v);
    TurnedOver(sqrt, u, v, Normalize(sqrt, Cross(u, v)), 1.0, s, c);
    ScaleByOne(v);
    ScaleByOne(Turned(u, Normalize(sqrt, Cross(u, v)), s, c));
    AxisAcross(sqrt, u, v);
    if Cross(u, v) == ORIGIN {
      UnitSquare(c);
      NoLength(s);
    }
  }

  lemma LengthOfCross(sqrt: real -> real, u: Vec, v: Vec)
    requires IsRoot(sqrt)
    ensures Square(Length(sqrt, Cross(u, v))) == Norm2(Cross(u, v))
  {
  }

  lemma NoLength(s: real)
    ensures s == 0.0 ==> Square(s) == 0.0
  {
  }

  lemma ScaleByOne(v: Vec)
    ensures Scale(v, 1.0) == v
  {
  }

  /** A proper rotation that takes `u` to `v`; `n` is the axis to use when they are
      opposite. */
  method TurnTo(sqrt: real -> real, u: Vec, v: Vec, n: Vec) returns (q: Mat)
    requires IsRoot(sqrt) && Norm2(u) == 1.0 && Norm2(v) == 1.0 && Norm2(n) == 1.0 && Dot(v, n) == 0.0
    ensures ProperRotation(q) && Linear(u, q) == v
  {
    hide *;
    var s, c := Length(sqrt, Cross(u, v)), Dot(u, v);
    UnitTurn(sqrt, u, v);
    if c == -1.0 {
      NoSine(s, c);
      q := AxisMat(n, s, c);
      OppositeUnits(u, v);
      HalfTurnAround(u, v, n, s, c);
      AxisMatTurns(u, n, s, c);
      AxisMatProperExactly(sqrt, n, s, c);
    } else {
      var axis := Normalize(sqrt, Cross(u, v));
      q := AxisMat(axis, s, c);
      AxisMatTurns(u, axis, s, c);
      AxisMatProperExactly(sqrt, axis, s, c);
    }
  }

  /** A rotation followed by a translation. */
  lemma TurnedAndMoved(q: Mat, t: Vec, p: Vec)
    requires ProperRotation(q)
    ensures var m := Mul(q, TranslationMat(t));
      && Rigid(m) && Finite(p, m) && Apply(p, m) == Add(Linear(p, q), t)
      && Col0(m) == Col0(q)
  {
    hide Linear, Conformal, Mul, Det, Finite, Apply;
    var m := Mul(q, TranslationMat(t));
    TranslationLinear(Row0(q), t);
    TranslationLinear(Row1(q), t);
    TranslationLinear(Row2(q), t);
    AffineMul(q, TranslationMat(t));
    LinearOfOrigin(TranslationMat(t));
    SameRowsConformal(m, q);
    AffineApply(p, m);
    SameLinear(p, m, q);
    AddOriginTo(t);
  }

  lemma AddOriginTo(t: Vec)
    ensures Add(ORIGIN, t) == t && Translation(TranslationMat(t)) == t
  {
  }

  lemma SameRowsConformal(a: Mat, b: Mat)
    requires Row0(a) == Row0(b) && Row1(a) == Row1(b) && Row2(a) == Row2(b)
    ensures Conformal(a, 1.0) <==> Conformal(b, 1.0)
    ensures Col0(a) == Col0(b) && Col1(a) == Col1(b) && Col2(a) == Col2(b)
  {
    hide Norm2, Dot;
  }

  /** Rigid surroundings keep the size of a ball. */
  lemma RigidKeepsSize(sqrt: real -> real, b: Ball, m: Mat)
    requires IsRoot(sqrt) && Rigid(m) && b.radius != UNSET
    ensures Finite(b.center, m) && Mapped(sqrt, b, m) == Ball(Apply(b.center, m), b.radius)
  {
    hide Norm2, Finite, Apply, Length, Det, Conformal;
    AffineApply(b.center, m);
    ConformalColumns(m, 1.0);
    LongestIsLongest(m);
    UnitLength(sqrt, LongestFirst(m).0);
  }

  /** The inward normal of the left side, when the tangent of half the field of view
      is three quarters. */
  const LEFT := Vec(0.8, 0.0, -0.6)

  lemma LeftDirection(v: Vec, n: Vec)
    requires v == LEFT && n == Y_DIRECTION
    ensures Norm2(v) == 1.0 && Norm2(n) == 1.0 && Dot(v, n) == 0.0
  {
    hide Norm2, Dot;
    DotWithLeft(v, v);
    DotWithLeft(n, v);
    AxisNorms();
  }

  /** A point in the middle of the view, and a ball whose centre is too far from it
      to the left. */
  lemma LeftOfView(f: Frustum, gap: real, d: real, c: Vec, r: real, n: Vec)
    requires f.tanX == 0.75 && n == LEFT && 0.0 < gap && d == r + gap && 0.0 <= r
    requires c == Sub(Vec(0.0, 0.0, -gap), Scale(n, d))
    ensures Beyond(f, Left, Ball(c, r))
  {
    hide Norm2, Dot, In, PointAt, f.Within, Sub, Scale;
    LeftDirection(n, Y_DIRECTION);
    CentreDistance(gap, d, c, n);
    BallDistances(n, Ball(c, r));
    forall p | In(p, Ball(c, r))
      ensures !f.Within(Left, p)
    {
      LeftByDot(f, p, n);
    }
  }

  lemma LeftByDot(f: Frustum, p: Vec, n: Vec)
    requires f.tanX == 0.75 && n == LEFT
    ensures f.Within(Left, p) <==> 0.0 <= Dot(n, p)
  {
    DotWithLeft(p, n);
    hide Dot;
  }

  lemma DotWithLeft(p: Vec, n: Vec)
    requires n == LEFT
    ensures Dot(n, p) == 0.8 * p.x - 0.6 * p.z
  {
  }

  lemma CentreDistance(gap: real, d: real, c: Vec, n: Vec)
    requires n == LEFT && c == Sub(Vec(0.0, 0.0, -gap), Scale(n, d))
    ensures Dot(n, c) == 0.6 * gap - d
  {
    DotWithLeft(c, n);
    hide Dot;
  }

  /** How far a point outside a ball is from its centre, and in which direction. */
  lemma Outlying(sqrt: real -> real, p: Vec, b: Ball)
    requires IsRoot(sqrt) && 0.0 <= b.radius && !In(p, b)
    ensures var w := Sub(p, b.center);
      && b.radius < Length(sqrt, w) && Norm2(Normalize(sqrt, w)) == 1.0
      && w == Scale(Normalize(sqrt, w), Length(sqrt, w))
  {
    hide Norm2, Length, Normalize, Dot, Sub, Square;
    var w := Sub(p, b.center);
    assert Square(Length(sqrt, w)) == Norm2(w);
    SquareOrder(Length(sqrt, w), b.radius);
  }

  /** The surroundings put the point in the middle of the view and the ball's centre
      to the left of it. */
  lemma PutLeft(p: Vec, c: Vec, u: Vec, d: real, q: Mat, n: Vec, middle: Vec)
    requires Sub(p, c) == Scale(u, d) && Linear(u, q) == n
    ensures var t := Sub(middle, Linear(p, q));
      Add(Linear(p, q), t) == middle && Add(Linear(c, q), t) == Sub(middle, Scale(n, d))
  {
    hide Linear;
    LinearDifference(p, c, q);
    LinearScale(u, d, q);
  }

  /** For every point that a ball does not contain there are rigid surroundings and a
      view in which the ball is out of view, beyond the left side, and the point in
      view. */
  method Hide(sqrt: real -> real, b: Ball, p: Vec) returns (surroundings: Mat, f: Frustum)
    requires IsRoot(sqrt) && 0.0 <= b.radius && !In(p, b)
    ensures fresh(f) && f.Valid() && f.PlanesDerived()
    ensures Rigid(surroundings) && Mapped(sqrt, b, surroundings).radius == b.radius
    ensures Beyond(f, Left, Mapped(sqrt, b, surroundings))
    ensures Finite(p, surroundings) && f.InView(Apply(p, surroundings))
  {
    hide *;
    var w := Sub(p, b.center);
    var d := Length(sqrt, w);
    var gap := d - b.radius;
    var u := Normalize(sqrt, w);
    Outlying(sqrt, p, b);
    LeftDirection(LEFT, Y_DIRECTION);
    var q := TurnTo(sqrt, u, LEFT, Y_DIRECTION);
    var middle := Vec(0.0, 0.0, -gap);
    var t := Sub(middle, Linear(p, q));
    PutLeft(p, b.center, u, d, q, LEFT, middle);
    surroundings := Mul(q, TranslationMat(t));
    TurnedAndMoved(q, t, p);
    TurnedAndMoved(q, t, b.center);
    RadiusIsSet(b);
    RigidKeepsSize(sqrt, b, surroundings);
    f := new Frustum(sqrt, 0.75, 1.0, gap / 2.0, 2.0 * gap);
    LeftOfView(f, gap, d, Apply(b.center, surroundings), b.radius, LEFT);
    MiddleInView(f, gap, middle);
  }

  lemma RadiusIsSet(b: Ball)
    requires 0.0 <= b.radius
    ensures b.radius != UNSET
  {
  }

  lemma MiddleInView(f: Frustum, gap: real, p: Vec)
    requires 0.0 < gap && p == Vec(0.0, 0.0, -gap) && f.zNear == gap / 2.0 && f.zFar == 2.0 * gap
    requires f.tanX == 0.75 && f.tanY == 0.75
    ensures f.InView(p)
  {
  }

  /** Whatever point a node's sphere misses, of a child it does not take in or by its
      matrix, there are rigid surroundings and a view in which the node is culled while
      that point is in view. */
  method CulledWhileVisible(sqrt: real -> real, sin: real -> real, cos: real -> real, node: TransformNode, p: Vec)
    returns (surroundings: Mat, f: Frustum, code: Intersection)
    requires IsRoot(sqrt) && IsTrig(sin, cos) && node.Valid() && node.UpToDate(sqrt, sin, cos)
    requires !AnyMaximized(node.children) && GroupVolume(sqrt, Volumes(node.children)).radius != UNSET
    requires Finite(p, node.Matrix(sin, cos))
    requires !In(Apply(p, node.Matrix(sin, cos)),
                 Mapped(sqrt, GroupVolume(sqrt, Volumes(node.children)), node.Matrix(sin, cos)))
    modifies node.bsphere, node`transform, node`transformDirty, node`boundingVolumeDirty
    ensures Rigid(surroundings) && f.Valid() && f.PlanesDerived()
    ensures code == Outside && Visible(f, p, node.Matrix(sin, cos), surroundings)
  {
    hide *;
    var m := node.Matrix(sin, cos);
    var b := Mapped(sqrt, GroupVolume(sqrt, Volumes(node.children)), m);
    NodeSphereIsSet(sqrt, node, m);
    surroundings, f := Hide(sqrt, b, Apply(p, m));
    NodeSeen(sqrt, f, Volumes(node.children), p, m, surroundings);
    code := node.Cull(sqrt, sin, cos, surroundings, f);
  }

  /** A node whose matrix is not tight misses such a point of any single child. */
  lemma LooseMisses(sqrt: real -> real, b: Ball, m: Mat) returns (p: Vec)
    requires IsRoot(sqrt) && Affine(m) && !Tight(m) && 0.0 < b.radius
    ensures In(p, b) && Finite(p, m) && !In(Apply(p, m), Mapped(sqrt, GroupVolume(sqrt, [b]), m))
  {
    hide Tight, Affine, Finite, Apply, Transformed, GroupVolume, In;
    TransformExact(sqrt, b, m);
    LoneVolume(sqrt, b);
    p :| In(p, b) && !(Finite(p, m) && In(Apply(p, m), Transformed(sqrt, b, m)));
    AffineApply(p, m);
  }

  lemma NodeSphereIsSet(sqrt: real -> real, node: TransformNode, m: Mat)
    requires IsRoot(sqrt) && node.Valid() && GroupVolume(sqrt, Volumes(node.children)).radius != UNSET
    ensures 0.0 <= Mapped(sqrt, GroupVolume(sqrt, Volumes(node.children)), m).radius
  {
    hide *;
    var g := GroupVolume(sqrt, Volumes(node.children));
    ValidVolumes(node);
    GroupTakesIn(sqrt, Volumes(node.children));
    MappedIsSet(sqrt, g, m);
  }

  lemma MappedIsSet(sqrt: real -> real, b: Ball, m: Mat)
    requires IsRoot(sqrt) && 0.0 <= b.radius
    ensures 0.0 <= Mapped(sqrt, b, m).radius
  {
    if Finite(b.center, m) {
      TransformedIsSet(sqrt, b, m);
    }
    hide Finite, Transformed, IsRoot;
  }

  lemma TransformedIsSet(sqrt: real -> real, b: Ball, m: Mat)
    requires IsRoot(sqrt) && 0.0 <= b.radius && Finite(b.center, m)
    ensures 0.0 <= Transformed(sqrt, b, m).radius
  {
    hide *;
    TransformedParts(sqrt, b, m);
    ProductSign(b.radius, Length(sqrt, LongestFirst(m).0));
  }

  lemma NodeSeen(sqrt: real -> real, f: Frustum, volumes: seq<Ball>, p: Vec, m: Mat, surroundings: Mat)
    requires IsRoot(sqrt) && Rigid(surroundings) && Finite(p, m)
    requires var b := Mapped(sqrt, GroupVolume(sqrt, volumes), m);
      && 0.0 <= b.radius && Mapped(sqrt, b, surroundings).radius == b.radius
      && Beyond(f, Left, Mapped(sqrt, b, surroundings))
    requires Finite(Apply(p, m), surroundings) && f.InView(Apply(Apply(p, m), surroundings))
    ensures Affine(surroundings) && Seen(sqrt, volumes, m, surroundings).radius != UNSET
    ensures BeyondASide(f, Seen(sqrt, volumes, m, surroundings)) && Visible(f, p, m, surroundings)
  {
    hide Finite, Apply, GroupVolume, Mapped, Beyond, f.InView, Conformal, Affine;
  }
}
