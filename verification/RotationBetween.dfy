/** The rotation that takes one vector's direction to another's. */
module RotationsBetween {
  import opened Reals
  import opened Vectors
  import opened Matrices
  import opened BallTransforms
  import opened TransformBuilder
  import opened TransformSpheres
  import opened Quaternions
  import opened MatrixToQuaternion
  import opened AxisQuaternions
  import opened Decomposition

  lemma MatOfRotation(sin: real -> real, cos: real -> real, r: Rotation)
    ensures RotationMat(sin, cos, r) == AxisMat(r.axis, sin(r.angle), cos(r.angle))
  {
  }

  lemma UnitIsNotOrigin(n: Vec)
    requires Norm2(n) == 1.0
    ensures n != ORIGIN
  {
  }

  lemma LengthsMultiply(sqrt: real -> real, a: Vec, b: Vec)
    requires IsRoot(sqrt)
    ensures var l := Product(Length(sqrt, a), Length(sqrt, b));
      0.0 <= l && (l == 0.0 <==> a == ORIGIN || b == ORIGIN)
  {
    hide Norm2, Dot, Length, IsRoot;
    assert Square(Length(sqrt, a)) == Norm2(a) && Square(Length(sqrt, b)) == Norm2(b);
    ProductSign(Length(sqrt, a), Length(sqrt, b));
  }

  lemma CosineBetween(sqrt: real -> real, a: Vec, b: Vec, lengths: real, c: real)
    requires IsRoot(sqrt) && lengths == Product(Length(sqrt, a), Length(sqrt, b)) && lengths != 0.0
    requires c == Dot(a, b) / lengths
    ensures -1.0 <= c <= 1.0 && Product(c, lengths) == Dot(a, b)
  {
    hide Norm2, Dot, Length, IsRoot;
    DotBound(a, b, Length(sqrt, a), Length(sqrt, b));
    LengthsMultiply(sqrt, a, b);
    assert c * lengths == Dot(a, b);
    ProductSign(c - 1.0, lengths);
    ProductSign(c + 1.0, lengths);
  }

  lemma SineBetween(sqrt: real -> real, a: Vec, b: Vec, lengths: real, s: real, c: real)
    requires IsRoot(sqrt) && lengths == Product(Length(sqrt, a), Length(sqrt, b))
    requires Product(c, lengths) == Dot(a, b) && 0.0 <= s && Square(s) == 1.0 - Square(c)
    ensures Product(s, lengths) == Length(sqrt, Cross(a, b))
  {
    hide Norm2, Dot, Length, IsRoot, Cross, Product, Square;
    var la, lb, x := Length(sqrt, a), Length(sqrt, b), Length(sqrt, Cross(a, b));
    ProductSign(la, lb);
    ProductSign(s, lengths);
    SquareOfProduct(s, lengths);
    SquareOfProduct(c, lengths);
    SquareOfProduct(la, lb);
    Lagrange(a, b);
    Complement(Square(s), Square(c), Square(lengths));
    SquareOrder(Product(s, lengths), x);
  }

  lemma Complement(s: real, c: real, l: real)
    requires s == 1.0 - c
    ensures Product(s, l) == l - Product(c, l)
  {
  }

  /** The axis is at a right angle to both vectors, or missing when they are
      parallel. */
  lemma AxisAcross(sqrt: real -> real, a: Vec, b: Vec)
    requires IsRoot(sqrt)
    ensures var x, n := Cross(a, b), Normalize(sqrt, Cross(a, b));
      && Dot(a, n) == 0.0 && x == Scale(n, Length(sqrt, x))
      && (n == ORIGIN <==> x == ORIGIN) && (x != ORIGIN ==> Norm2(n) == 1.0)
      && (Length(sqrt, x) == 0.0 <==> x == ORIGIN)
  {
    var x := Cross(a, b);
    var n, l := Normalize(sqrt, x), Length(sqrt, x);
    hide Norm2, Dot, Length, IsRoot, Cross, Normalize;
    assert Square(l) == Norm2(x);
    DetCycles(a, b, b);
    DotScale(a, n, l, l);
    if x == ORIGIN {
      DotScale(a, n, 0.0, 0.0);
      assert Scale(n, 0.0) == n;
    } else {
      assert l * Dot(a, n) == 0.0;
      UnitIsNotOrigin(n);
    }
  }

  lemma AxisBetween(sqrt: real -> real, a: Vec, b: Vec, lengths: real, s: real, c: real)
    requires IsRoot(sqrt) && lengths != 0.0 && Square(s) == 1.0 - Square(c)
    requires Product(s, lengths) == Length(sqrt, Cross(a, b))
    ensures var n := Normalize(sqrt, Cross(a, b)); Cancels(n, c) && (n == ORIGIN <==> Cross(a, b) == ORIGIN)
  {
    hide Norm2, Dot, Length, IsRoot, Cross, Normalize;
    AxisAcross(sqrt, a, b);
    if Cross(a, b) == ORIGIN {
      ProductSign(s, lengths);
      ProductSign(-s, lengths);
      assert s == 0.0;
      UnitSquare(c);
    }
  }

  lemma CrossReversed(a: Vec, b: Vec)
    ensures Cross(b, a) == Neg(Cross(a, b))
  {
  }

  lemma ScaleOfSum(a: Vec, b: Vec, j: real, k: real, l: real)
    ensures Scale(Add(Scale(a, j), Scale(b, k)), l) == Add(Scale(a, Product(j, l)), Scale(b, Product(k, l)))
  {
  }

  lemma AddDifference(a: Vec, b: Vec)
    ensures Add(a, Neg(Sub(a, b))) == b
  {
  }

  lemma TurnedAcross(a: Vec, n: Vec, s: real, c: real)
    requires Dot(a, n) == 0.0
    ensures Turned(a, n, s, c) == Add(Scale(a, c), Scale(Cross(n, a), s))
  {
    hide Dot, Cross;
    assert Scale(n, Product(1.0 - c, 0.0)) == ORIGIN;
  }

  /** Turning `a` about the axis gives the direction of `b`. */
  lemma TurnedOver(sqrt: real -> real, a: Vec, b: Vec, n: Vec, lengths: real, s: real, c: real)
    requires IsRoot(sqrt) && lengths == Product(Length(sqrt, a), Length(sqrt, b)) && lengths != 0.0
    requires n == Normalize(sqrt, Cross(a, b)) && Product(c, lengths) == Dot(a, b)
    requires Product(s, lengths) == Length(sqrt, Cross(a, b))
    ensures Scale(Turned(a, n, s, c), Length(sqrt, b)) == Scale(b, Length(sqrt, a))
  {
    hide *;
    var x, la, lb := Cross(a, b), Length(sqrt, a), Length(sqrt, b);
    var t, d := Turned(a, n, s, c), Dot(a, b);
    AxisAcross(sqrt, a, b);
    TurnedAcross(a, n, s, c);
    ScaleOfSum(a, Cross(n, a), c, s, lengths);
    CrossReversed(a, n);
    NegatedScale(Cross(a, n), Length(sqrt, x));
    CrossLinear(a, n, n, Length(sqrt, x));
    CrossTwice(a, b);
    DotSymmetric(a, b);
    AddDifference(Scale(a, d), Scale(b, Norm2(a)));
    assert Scale(t, lengths) == Scale(b, Norm2(a));
    ByLengths(t, b, la, lb, lengths, Norm2(a));
  }

  lemma ByLengths(t: Vec, b: Vec, la: real, lb: real, lengths: real, m: real)
    requires lengths == Product(la, lb) && lengths != 0.0 && m == Square(la) && Scale(t, lengths) == Scale(b, m)
    ensures Scale(t, lb) == Scale(b, la)
  {
    ScaleTwice(t, lb, la);
    ScaleTwice(b, la, la);
    assert la != 0.0;
    assert Product(la, lb) == lb * la && Square(la) == la * la;
    hide Scale;
    CancelScale(Scale(t, lb), Scale(b, la), la);
  }

  /** The sine and the cosine of half an angle. */
  lemma HalfAngle(sqrt: real -> real, s: real, c: real) returns (h: real, k: real)
    requires IsRoot(sqrt) && Square(s) + Square(c) == 1.0
    ensures Square(h) + Square(k) == 1.0
    ensures s == Product(2.0 * h, k) && c == 1.0 - Product(2.0 * h, h)
  {
    if c == 1.0 {
      NoSine(s, c);
      return 0.0, 1.0;
    }
    UnitSquare(1.0);
    SquareBound(c, 1.0);
    h := sqrt((1.0 - c) / 2.0);
    assert Square(h) == (1.0 - c) / 2.0;
    k := s / (2.0 * h);
    hide IsRoot;
    var g := 2.0 * h;
    assert s == Product(g, k);
    SquareOfProduct(g, k);
    assert Square(g) == 2.0 * (1.0 - c);
    SquareDifference(1.0, c);
    HalfCosine(1.0 - c, 1.0 + c, Square(k));
  }

  lemma HalfCosine(d: real, e: real, k: real)
    requires d != 0.0 && Product(2.0 * d, k) == Product(d, e)
    ensures k == e / 2.0
  {
    assert Product(2.0 * d, k) == d * (2.0 * k);
    Cancel(d, 2.0 * k, e);
  }

  /** A turn about a unit axis is a proper rotation. */
  lemma UnitTurnIsProper(sqrt: real -> real, n: Vec, s: real, c: real)
    requires IsRoot(sqrt) && Norm2(n) == 1.0 && Square(s) + Square(c) == 1.0
    ensures ProperRotation(AxisMat(n, s, c))
  {
    hide *;
    UnitCancels(n, c);
    AxisMatConformal(n, s, c);
    AxisMatTransposed(n, s, c);
    var h, k := HalfAngle(sqrt, s, c);
    AxisQuatRotates(n, h, k, s, c);
    RotationDetNonNegative(AxisQuat(n, h, k));
    ProperByDet(AxisMat(n, s, c));
  }

  lemma UnitCancels(n: Vec, c: real)
    requires Norm2(n) == 1.0
    ensures Cancels(n, c)
  {
  }

  lemma ProperByDet(m: Mat)
    requires Affine(m) && Translation(m) == ORIGIN && Conformal(m, 1.0) && 0.0 <= Det3(m)
    ensures ProperRotation(m)
  {
    hide Det, Det3, Dot, Norm2, Row0, Row1, Row2;
    OrthonormalDet(Row0(m), Row1(m), Row2(m));
    Det3ByRowsAndColumns(m);
    UnitSquare(Det3(m));
  }

  lemma DiagonalDet(m: Mat, a: real)
    requires Row0(m) == Vec(a, 0.0, 0.0) && Row1(m) == Vec(0.0, a, 0.0) && Row2(m) == Vec(0.0, 0.0, a)
    ensures Det(Row0(m), Row1(m), Row2(m)) == Product(a, Square(a))
  {
    hide Row0, Row1, Row2;
  }

  /** A turn without an axis multiplies by the cosine. */
  lemma NoAxis(n: Vec, s: real, c: real)
    requires n == ORIGIN
    ensures var m := AxisMat(n, s, c);
      m == ScaleMat(Vec(c, c, c))
      && Row0(m) == Vec(c, 0.0, 0.0) && Row1(m) == Vec(0.0, c, 0.0) && Row2(m) == Vec(0.0, 0.0, c)
  {
  }

  /** An axis-angle matrix is a proper rotation exactly when its axis has length one or
      it does not turn at all. */
  lemma AxisMatProperExactly(sqrt: real -> real, n: Vec, s: real, c: real)
    requires IsRoot(sqrt) && Square(s) + Square(c) == 1.0
    ensures ProperRotation(AxisMat(n, s, c)) <==> Norm2(n) == 1.0 || c == 1.0
  {
    hide *;
    AxisMatConformal(n, s, c);
    CancelsMeans(n, c);
    ProperMeans(AxisMat(n, s, c));
    if Norm2(n) == 1.0 {
      UnitTurnIsProper(sqrt, n, s, c);
    } else if c == 1.0 {
      NoSine(s, c);
      AxisMatZero(n);
      AxisMatZero(Z_DIRECTION);
      UnitZ();
      UnitTurnIsProper(sqrt, Z_DIRECTION, s, c);
    } else if n == ORIGIN && c == -1.0 {
      NoAxis(n, s, c);
      DiagonalDet(AxisMat(n, s, c), c);
      CubeOfMinusOne(c);
    }
  }

  lemma ProperMeans(m: Mat)
    ensures ProperRotation(m) ==> Conformal(m, 1.0) && Det(Row0(m), Row1(m), Row2(m)) == 1.0
  {
  }

  lemma CubeOfMinusOne(c: real)
    requires c == -1.0
    ensures Product(c, Square(c)) == -1.0
  {
  }

  /** The rotation between two vectors.  It takes the direction of the first to that of
      the second whenever neither is zero.  For parallel vectors its axis is zero, and
      for opposite ones it is no rotation but turns every vector around. */
  method MakeRotationBetween(sin: real -> real, cos: real -> real, acos: real -> real, sqrt: real -> real,
                             from: Vec, to: Vec)
    returns (r: Turning)
    requires IsTrig(sin, cos) && IsArcCosine(acos, sin, cos) && IsRoot(sqrt)
    ensures r == Undefined <==> from == ORIGIN || to == ORIGIN
    ensures r.Turning? ==>
      var m := RotationMat(sin, cos, r.rotation);
      && Scale(Linear(from, m), Length(sqrt, to)) == Scale(to, Length(sqrt, from))
      && Cancels(r.rotation.axis, cos(r.rotation.angle))
      && (r.rotation.axis == ORIGIN <==> Cross(from, to) == ORIGIN)
      && (ProperRotation(m) <==> !(Cross(from, to) == ORIGIN && Dot(from, to) < 0.0))
      && (Cross(from, to) == ORIGIN && Dot(from, to) < 0.0 ==> m == ScaleMat(Vec(-1.0, -1.0, -1.0)))
  {
    hide *;
    var axis := Normalize(sqrt, Cross(from, to));
    var lengths := Product(Length(sqrt, from), Length(sqrt, to));
    LengthsMultiply(sqrt, from, to);
    if lengths == 0.0 {
      return Undefined;
    }
    var c := Dot(from, to) / lengths;
    CosineBetween(sqrt, from, to, lengths, c);
    ArcCosine(sin, cos, acos, c);
    var angle := acos(c);
    r := Turning(Rotation(axis, angle));
    MatOfRotation(sin, cos, r.rotation);
    AxisMatTurns(from, axis, sin(angle), c);
    SineBetween(sqrt, from, to, lengths, sin(angle), c);
    TurnedOver(sqrt, from, to, axis, lengths, sin(angle), c);
    AxisBetween(sqrt, from, to, lengths, sin(angle), c);
    AxisMatProperExactly(sqrt, axis, sin(angle), c);
    CosineSign(c, lengths);
    if axis == ORIGIN {
      NoAxis(axis, sin(angle), c);
    }
  }

  lemma CosineSign(c: real, lengths: real)
    requires 0.0 < lengths
    ensures c < 0.0 <==> Product(c, lengths) < 0.0
  {
    ProductSign(c, lengths);
  }

  /** The rotation from any vector to its opposite takes every vector to its own. */
  method OppositeVectors(sin: real -> real, cos: real -> real, acos: real -> real, sqrt: real -> real, v: Vec)
    returns (r: Turning)
    requires IsTrig(sin, cos) && IsArcCosine(acos, sin, cos) && IsRoot(sqrt) && v != ORIGIN
    ensures r.Turning? && !ProperRotation(RotationMat(sin, cos, r.rotation))
    ensures RotationMat(sin, cos, r.rotation) == ScaleMat(Vec(-1.0, -1.0, -1.0))
  {
    hide *;
    CrossOfOpposite(v);
    DotOfOpposite(v);
    r := MakeRotationBetween(sin, cos, acos, sqrt, v, Neg(v));
  }

  lemma CrossOfOpposite(a: Vec)
    ensures Cross(a, Neg(a)) == ORIGIN
  {
  }

  lemma DotOfOpposite(a: Vec)
    requires a != ORIGIN
    ensures Dot(a, Neg(a)) < 0.0 && Neg(a) != ORIGIN
  {
    assert Dot(a, Neg(a)) == -Norm2(a);
  }
}
