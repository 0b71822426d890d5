/** Building a matrix from a translation, a rotation and a scale, and taking it apart
    again. */
module RoundTrips {
  import opened Reals
  import opened Vectors
  import opened Matrices
  import opened BallTransforms
  import opened TransformBuilder
  import opened TransformSpheres
  import opened Quaternions
  import opened AxisQuaternions
  import opened MatrixToQuaternion
  import opened RotationsBetween
  import opened Decomposition

  lemma UnitScale(u: Vec, v: Vec, a: real, b: real)
    requires Norm2(u) == 1.0 && Norm2(v) == 1.0 && 0.0 < a && 0.0 < b && Scale(u, a) == Scale(v, b)
    ensures a == b && u == v
  {
    hide Norm2, Dot, Scale, Product;
    ScaledDot(u, u, a, a);
    ScaledDot(v, v, b, b);
    OneTimes(Square(a));
    OneTimes(Square(b));
    RootOfSquare(a, b);
    CancelScale(u, v, a);
  }

  lemma OneTimes(x: real)
    ensures Product(1.0, x) == x
  {
  }

  /** The second row is a combination of the first two directions. */
  lemma SecondCoordinates(u: Vec, v: Vec, k: real, a: real)
    requires Norm2(u) == 1.0 && Dot(u, v) == 0.0
    ensures var r := Scale(Add(Scale(u, k), v), a);
      r == Add(Scale(u, Product(k, a)), Scale(v, a)) && Dot(r, u) == Product(k, a)
  {
    hide Norm2, Dot, Scale, Add;
    var r := Scale(Add(Scale(u, k), v), a);
    ScaleAdd(Scale(u, k), v, a, a);
    ScaleBy(u, k, a, Product(k, a));
    DotAdd(Scale(u, Product(k, a)), Scale(v, a), u);
    DotScale(u, u, Product(k, a), 1.0);
    DotScale(v, u, a, 1.0);
    DotSymmetric(u, v);
  }

  /** And the third of all three. */
  lemma ThirdCoordinates(u: Vec, v: Vec, w: Vec, k: real, l: real, a: real)
    requires Orthonormal(u, v, w)
    ensures var r := Scale(Add(Add(Scale(u, k), Scale(v, l)), w), a);
      && r == Add(Add(Scale(u, Product(k, a)), Scale(v, Product(l, a))), Scale(w, a))
      && Dot(r, u) == Product(k, a) && Dot(r, v) == Product(l, a)
  {
    hide Norm2, Dot, Scale, Add, Product;
    var ku, lv := Scale(u, Product(k, a)), Scale(v, Product(l, a));
    ScaleAdd(Add(Scale(u, k), Scale(v, l)), w, a, a);
    ScaleAdd(Scale(u, k), Scale(v, l), a, a);
    ScaleBy(u, k, a, Product(k, a));
    ScaleBy(v, l, a, Product(l, a));
    ThirdDots(u, v, w, Product(k, a), Product(l, a), a);
  }

  lemma ThirdDots(u: Vec, v: Vec, w: Vec, k: real, l: real, a: real)
    requires Orthonormal(u, v, w)
    ensures var r := Add(Add(Scale(u, k), Scale(v, l)), Scale(w, a)); Dot(r, u) == k && Dot(r, v) == l
  {
    hide Dot, Scale, Add;
    assert Dot(u, u) == 1.0 && Dot(v, v) == 1.0;
    DotSymmetric(u, v);
    DotSymmetric(u, w);
    DotSymmetric(v, w);
    DotAdd(Add(Scale(u, k), Scale(v, l)), Scale(w, a), u);
    DotAdd(Scale(u, k), Scale(v, l), u);
    DotAdd(Add(Scale(u, k), Scale(v, l)), Scale(w, a), v);
    DotAdd(Scale(u, k), Scale(v, l), v);
    DotScale(u, u, k, 1.0);
    DotScale(v, u, l, 1.0);
    DotScale(w, u, a, 1.0);
    DotScale(u, v, k, 1.0);
    DotScale(v, v, l, 1.0);
    DotScale(w, v, a, 1.0);
  }

  lemma SameShear(k: real, l: real, a: real)
    requires a != 0.0 && Product(k, a) == Product(l, a)
    ensures k == l
  {
    Cancel(a, k, l);
  }

  lemma SecondUnique(u: Vec, v: Vec, v': Vec, k: real, k': real, a: real, a': real)
    requires Norm2(u) == 1.0 && Norm2(v) == 1.0 && Norm2(v') == 1.0 && Dot(u, v) == 0.0 && Dot(u, v') == 0.0
    requires 0.0 < a && 0.0 < a' && Scale(Add(Scale(u, k), v), a) == Scale(Add(Scale(u, k'), v'), a')
    ensures a == a' && k == k' && v == v'
  {
    hide Norm2, Dot, Scale, Add, Product;
    SecondCoordinates(u, v, k, a);
    SecondCoordinates(u, v', k', a');
    CancelAdd(Scale(u, Product(k, a)), Scale(v, a), Scale(v', a'));
    UnitScale(v, v', a, a');
    SameShear(k, k', a);
  }

  lemma ThirdUnique(u: Vec, v: Vec, w: Vec, w': Vec, k: real, k': real, l: real, l': real, a: real, a': real)
    requires Orthonormal(u, v, w) && Orthonormal(u, v, w') && 0.0 < a && 0.0 < a'
    requires Scale(Add(Add(Scale(u, k), Scale(v, l)), w), a) == Scale(Add(Add(Scale(u, k'), Scale(v, l')), w'), a')
    ensures a == a' && k == k' && l == l' && w == w'
  {
    hide Norm2, Dot, Scale, Add, Product;
    ThirdCoordinates(u, v, w, k, l, a);
    ThirdCoordinates(u, v, w', k', l', a');
    CancelAdd(Add(Scale(u, Product(k, a)), Scale(v, Product(l, a))), Scale(w, a), Scale(w', a'));
    UnitScale(w, w', a, a');
    SameShear(k, k', a);
    SameShear(l, l', a);
  }

  /** There is one way only to take the rows of a matrix apart into positive scales,
      shears and orthonormal rows. */
  lemma DecompositionUnique(n: Mat, s: Vec, shear: Vec, u: Vec, v: Vec, w: Vec,
                            s': Vec, shear': Vec, u': Vec, v': Vec, w': Vec)
    requires 0.0 < s.x && 0.0 < s.y && 0.0 < s.z && 0.0 < s'.x && 0.0 < s'.y && 0.0 < s'.z
    requires Orthonormal(u, v, w) && Orthonormal(u', v', w')
    requires RebuildsRows(n, s, shear, u, v, w) && RebuildsRows(n, s', shear', u', v', w')
    ensures s == s' && shear == shear' && u == u' && v == v' && w == w'
  {
    hide Norm2, Dot, Scale, Add;
    UnitScale(u, u', s.x, s'.x);
    SecondUnique(u, v, v', shear.x, shear'.x, s.y, s'.y);
    ThirdUnique(u, v, w, w', shear.y, shear'.y, shear.z, shear'.z, s.z, s'.z);
  }

  /** No shear. */
  lemma ScaledRows(n: Mat, s: Vec, u: Vec, v: Vec, w: Vec)
    requires Row0(n) == Scale(u, s.x) && Row1(n) == Scale(v, s.y) && Row2(n) == Scale(w, s.z)
    ensures RebuildsRows(n, s, ORIGIN, u, v, w)
  {
    NoShear(u, v);
    NoShear(u, w);
    NoShear(v, w);
    hide Scale, Add, Row0, Row1, Row2;
    TransformBuilder.AddOrigin();
  }

  lemma NoShear(u: Vec, v: Vec)
    ensures Scale(u, 0.0) == ORIGIN && Add(Scale(u, 0.0), v) == v
  {
  }

  /** Without a scale orientation and a centre, the rows of the built matrix are the
      rotation's rows, scaled. */
  lemma BuiltRows(sin: real -> real, cos: real -> real, t: Vec, r: Rotation, s: Vec, sr: Rotation, c: Vec)
    requires IsTrig(sin, cos) && sr.angle == 0.0 && c == ORIGIN
    ensures var m, q := TransformBuilder.Transformation(sin, cos, t, r, s, sr, c), RotationMat(sin, cos, r);
      && Affine(m) && Translation(m) == t
      && Row0(m) == Scale(Row0(q), s.x) && Row1(m) == Scale(Row1(q), s.y) && Row2(m) == Scale(Row2(q), s.z)
  {
    hide *;
    var m, q := TransformBuilder.Transformation(sin, cos, t, r, s, sr, c), RotationMat(sin, cos, r);
    NoTurnCancels(sin, cos, sr);
    BuiltIsFull(sin, cos, t, r, s, sr, c);
    TransformationFactors(sin, cos, t, r, s, sr, c);
    NoRotation(sin, cos, sr);
    TurnAlone(sin, cos, r, sr);
    RowsAreImages(m);
    RowsAreImages(q);
    StretchedAxes(s);
    FactoredAxis(X_DIRECTION, s.x, m, s, q);
    FactoredAxis(Y_DIRECTION, s.y, m, s, q);
    FactoredAxis(Z_DIRECTION, s.z, m, s, q);
    BuiltTranslation(sin, cos, t, r, s, sr, c);
  }

  lemma NoTurnCancels(sin: real -> real, cos: real -> real, sr: Rotation)
    requires IsTrig(sin, cos) && sr.angle == 0.0
    ensures Cancels(sr.axis, cos(sr.angle))
  {
    hide Norm2;
  }

  lemma TurnAlone(sin: real -> real, cos: real -> real, r: Rotation, sr: Rotation)
    requires RotationMat(sin, cos, sr) == IDENTITY
    ensures TurnAfterScale(sin, cos, r, sr) == RotationMat(sin, cos, r)
  {
    hide Mul, RotationMat;
    MulIdentity(RotationMat(sin, cos, r));
  }

  lemma StretchedAxes(s: Vec)
    ensures Stretch(X_DIRECTION, s) == Scale(X_DIRECTION, s.x)
    ensures Stretch(Y_DIRECTION, s) == Scale(Y_DIRECTION, s.y)
    ensures Stretch(Z_DIRECTION, s) == Scale(Z_DIRECTION, s.z)
  {
  }

  lemma FactoredAxis(e: Vec, k: real, m: Mat, s: Vec, q: Mat)
    requires Factors(m, IDENTITY, s, q) && Stretch(e, s) == Scale(e, k)
    ensures Linear(e, m) == Scale(Linear(e, q), k)
  {
    hide Linear, Stretch, Scale;
    SameRows(e, IDENTITY);
    LinearScale(e, k, q);
  }

  lemma BuiltTranslation(sin: real -> real, cos: real -> real, t: Vec, r: Rotation, s: Vec, sr: Rotation, c: Vec)
    requires IsTrig(sin, cos) && sr.angle == 0.0 && c == ORIGIN
    ensures Translation(FullTransformation(sin, cos, t, r, s, sr, c)) == t
  {
    hide *;
    var m := FullTransformation(sin, cos, t, r, s, sr, c);
    TransformationPlaces(sin, cos, c, t, r, s, sr, c);
    PlacedSimply(sin, cos, c, t, r, s, sr, c);
    AffineApply(c, m);
    LinearOfOrigin(m);
    OriginStays(sin, cos, r, s, c);
    Decomposition.AddOrigin(t);
    Decomposition.AddOrigin(Translation(m));
  }

  lemma OriginStays(sin: real -> real, cos: real -> real, r: Rotation, s: Vec, c: Vec)
    requires c == ORIGIN
    ensures Turn(sin, cos, Stretch(c, s), r) == ORIGIN
  {
    assert Stretch(c, s) == ORIGIN;
  }

  lemma NormalizedOfAffine(m: Mat)
    requires Affine(m)
    ensures m.r3.w != 0.0 && Normalized(m) == m
  {
  }

  /** A rotation scaled by positive factors does not reflect. */
  lemma PositiveDet(m: Mat, s: Vec, u: Vec, v: Vec, w: Vec)
    requires 0.0 < s.x && 0.0 < s.y && 0.0 < s.z && Det(u, v, w) == 1.0
    requires Row0(m) == Scale(u, s.x) && Row1(m) == Scale(v, s.y) && Row2(m) == Scale(w, s.z)
    ensures 0.0 < Det3(m)
  {
    hide Det, Det3, Scale, Product, Row0, Row1, Row2;
    Det3ByRowsAndColumns(m);
    DetScales(u, Scale(v, s.y), Scale(w, s.z), s.x);
    DetScales(u, v, Scale(w, s.z), s.y);
    DetScales(u, v, w, s.z);
    ProductSign(s.z, 1.0);
    ProductSign(s.y, Product(s.z, 1.0));
    ProductSign(s.x, Product(s.y, Product(s.z, 1.0)));
  }

  lemma ProperParts(m: Mat)
    requires ProperRotation(m)
    ensures Orthonormal(Row0(m), Row1(m), Row2(m)) && Det(Row0(m), Row1(m), Row2(m)) == 1.0
    ensures m == LinearMat(Row0(m), Row1(m), Row2(m))
  {
    hide Norm2, Dot, Det;
  }

  /** A matrix built from a translation, a rotation and positive scales comes apart into
      these, without shear; the rotation may be another with the same matrix. */
  method BuildAndTakeApart(sin: real -> real, cos: real -> real, acos: real -> real, sqrt: real -> real,
                           t: Vec, r: Rotation, s: Vec)
    returns (p: Parts, q: Turning)
    requires IsTrig(sin, cos) && DoublesAngles(sin, cos) && IsArcCosine(acos, sin, cos) && IsRoot(sqrt)
    requires Norm2(r.axis) == 1.0 && 0.0 < s.x && 0.0 < s.y && 0.0 < s.z
    ensures p.Parts? && p.t == t && p.s == s && p.shear == ORIGIN
    ensures q.Turning? && Norm2(q.rotation.axis) == 1.0
    ensures RotationMat(sin, cos, q.rotation) == RotationMat(sin, cos, r)
  {
    hide *;
    var none := Rotation(Z_DIRECTION, 0.0);
    var m := MakeTransformation(sin, cos, t, r, s, none, ORIGIN);
    BuiltComesApart(sin, cos, sqrt, t, r, s, none, m);
    p, q := Decomposition.Transformation(sin, cos, acos, sqrt, m);
    if p.Parts? {
      PartsAreThose(sqrt, m, p, t, s, RotationMat(sin, cos, r));
    }
  }

  lemma BuiltComesApart(sin: real -> real, cos: real -> real, sqrt: real -> real, t: Vec, r: Rotation, s: Vec,
                        none: Rotation, m: Mat)
    requires IsTrig(sin, cos) && IsRoot(sqrt) && none.angle == 0.0
    requires Norm2(r.axis) == 1.0 && 0.0 < s.x && 0.0 < s.y && 0.0 < s.z
    requires m == TransformBuilder.Transformation(sin, cos, t, r, s, none, ORIGIN)
    ensures var q := RotationMat(sin, cos, r);
      && ProperRotation(q) && m.r3.w != 0.0 && Normalized(m) == m && 0.0 < Det3(m) && Translation(m) == t
      && RebuildsRows(m, s, ORIGIN, Row0(q), Row1(q), Row2(q))
  {
    assert Square(sin(r.angle)) + Square(cos(r.angle)) == 1.0;
    hide *;
    var q := RotationMat(sin, cos, r);
    MatOfRotation(sin, cos, r);
    UnitTurnIsProper(sqrt, r.axis, sin(r.angle), cos(r.angle));
    ProperParts(q);
    BuiltRows(sin, cos, t, r, s, none, ORIGIN);
    NormalizedOfAffine(m);
    ScaledRows(m, s, Row0(q), Row1(q), Row2(q));
    PositiveDet(m, s, Row0(q), Row1(q), Row2(q));
  }

  lemma PartsAreThose(sqrt: real -> real, m: Mat, p: Parts, t: Vec, s: Vec, q: Mat)
    requires IsRoot(sqrt) && m.r3.w != 0.0 && p.Parts? && DecompositionOf(sqrt, m, p)
    requires ProperRotation(q) && Normalized(m) == m && Translation(m) == t
    requires 0.0 < s.x && 0.0 < s.y && 0.0 < s.z && RebuildsRows(m, s, ORIGIN, Row0(q), Row1(q), Row2(q))
    ensures p.t == t && p.s == s && p.shear == ORIGIN && LinearMat(p.u0, p.u1, p.u2) == q
  {
    ProperParts(q);
    hide ProperRotation, Orthonormal, RebuildsRows, Det, Det3, QuatFrom, LinearMat, Row0, Row1, Row2, IsRoot;
    DecompositionUnique(m, p.s, p.shear, p.u0, p.u1, p.u2, s, ORIGIN, Row0(q), Row1(q), Row2(q));
  }
}
