/** The quaternion of an axis and an angle. */
module AxisQuaternions {
  import opened Reals
  import opened Vectors
  import opened Matrices
  import opened BallTransforms
  import opened TransformBuilder
  import opened Quaternions

  /** The double-angle formulas. */
  ghost predicate DoublesAngles(sin: real -> real, cos: real -> real) {
    forall a: real, h: real :: a == h + h ==>
      sin(a) == Product(2.0 * sin(h), cos(h)) && cos(a) == 1.0 - Product(2.0 * sin(h), sin(h))
  }

  /** All that is assumed of the C library's arc cosine. */
  ghost predicate IsArcCosine(acos: real -> real, sin: real -> real, cos: real -> real) {
    && acos(1.0) == 0.0
    && forall w: real :: -1.0 <= w <= 1.0 ==> cos(acos(w)) == w && 0.0 <= sin(acos(w))
  }

  function AxisQuat(n: Vec, h: real, k: real): Quat {
    Quat(n.x * h, n.y * h, n.z * h, k)
  }

  function QuatOf(sin: real -> real, cos: real -> real, r: Rotation): Quat {
    AxisQuat(r.axis, sin(r.angle / 2.0), cos(r.angle / 2.0))
  }

  /** An entry off the diagonal. */
  lemma OffDiagonal(x: real, y: real, z: real, h: real, k: real)
    ensures var t, s := Product(2.0 * h, h), Product(2.0 * h, k);
      && 2.0 * (x * h * (y * h) + z * h * k) == t * x * y + s * z
      && 2.0 * (x * h * (y * h) - z * h * k) == t * x * y - s * z
  {
  }

  /** An entry on the diagonal. */
  lemma OnDiagonal(x: real, y: real, z: real, h: real, t: real)
    requires Square(x) + Square(y) + Square(z) == 1.0
    requires t == Product(2.0 * h, h)
    ensures 1.0 - 2.0 * (y * h * (y * h) + z * h * (z * h)) == t * x * x + (1.0 - t)
  {
    assert Product(t, Square(x) + Square(y) + Square(z)) == t;
    DiagonalTerms(x, y, z, h);
  }

  lemma DiagonalTerms(x: real, y: real, z: real, h: real)
    ensures var t := Product(2.0 * h, h);
      2.0 * (y * h * (y * h) + z * h * (z * h)) + t * x * x == Product(t, Square(x) + Square(y) + Square(z))
  {
  }

  /** One entry of a rotation matrix. */
  function Entry(t: real, a: real, b: real, rest: real): real {
    t * a * b + rest
  }

  lemma AxisRow0Entries(n: Vec, s: real, c: real)
    ensures AxisRow0(n, s, c)
         == Vec(Entry(1.0 - c, n.x, n.x, c), Entry(1.0 - c, n.x, n.y, Product(s, n.z)),
                Entry(1.0 - c, n.z, n.x, -Product(s, n.y)))
  {
  }

  lemma AxisRow1Entries(n: Vec, s: real, c: real)
    ensures AxisRow1(n, s, c)
         == Vec(Entry(1.0 - c, n.x, n.y, -Product(s, n.z)), Entry(1.0 - c, n.y, n.y, c),
                Entry(1.0 - c, n.y, n.z, Product(s, n.x)))
  {
  }

  lemma AxisRow2Entries(n: Vec, s: real, c: real)
    ensures AxisRow2(n, s, c)
         == Vec(Entry(1.0 - c, n.z, n.x, Product(s, n.y)), Entry(1.0 - c, n.y, n.z, -Product(s, n.x)),
                Entry(1.0 - c, n.z, n.z, c))
  {
  }

  function SumEntry(x: real, y: real, z: real, k: real): real {
    2.0 * (x * y + z * k)
  }

  function DifferenceEntry(x: real, y: real, z: real, k: real): real {
    2.0 * (x * y - z * k)
  }

  function DiagonalEntry(y: real, z: real): real {
    1.0 - 2.0 * (y * y + z * z)
  }

  /** The quaternion's coordinates are `x`, `y`, `z`, `k`, each of the first three
      `h` times one of the axis. */
  lemma QuatEntries(a: real, b: real, d: real, h: real, k: real, s: real, c: real, x: real, y: real, z: real)
    requires c == 1.0 - Product(2.0 * h, h) && s == Product(2.0 * h, k)
    requires Square(a) + Square(b) + Square(d) == 1.0
    requires x == Product(a, h) && y == Product(b, h) && z == Product(d, h)
    ensures SumEntry(x, y, z, k) == Entry(1.0 - c, a, b, Product(s, d))
    ensures DifferenceEntry(x, y, z, k) == Entry(1.0 - c, a, b, -Product(s, d))
    ensures DiagonalEntry(y, z) == Entry(1.0 - c, a, a, c)
  {
    OffDiagonal(a, b, d, h, k);
    OnDiagonal(a, b, d, h, Product(2.0 * h, h));
  }

  lemma RotationEntries(q: Quat)
    ensures RotationOf(q) == LinearMat(
      Vec(DiagonalEntry(q.y, q.z), SumEntry(q.x, q.y, q.z, q.w), DifferenceEntry(q.z, q.x, q.y, q.w)),
      Vec(DifferenceEntry(q.x, q.y, q.z, q.w), DiagonalEntry(q.z, q.x), SumEntry(q.y, q.z, q.x, q.w)),
      Vec(SumEntry(q.z, q.x, q.y, q.w), DifferenceEntry(q.y, q.z, q.x, q.w), DiagonalEntry(q.x, q.y)))
  {
  }

  /** The matrix of an axis and an angle is the matrix of the quaternion made from
      the axis and half the angle, which is a unit quaternion. */
  lemma AxisQuatRotates(n: Vec, h: real, k: real, s: real, c: real)
    requires Norm2(n) == 1.0 && Square(h) + Square(k) == 1.0
    requires s == Product(2.0 * h, k) && c == 1.0 - Product(2.0 * h, h)
    ensures RotationOf(AxisQuat(n, h, k)) == AxisMat(n, s, c)
    ensures Norm(AxisQuat(n, h, k)) == 1.0
  {
    NormOfAxis(n);
    var q := AxisQuat(n, h, k);
    assert q.x == Product(n.x, h) && q.y == Product(n.y, h) && q.z == Product(n.z, h) && q.w == k;
    assert Norm(q) == SumOfSquares(q.x, q.y, q.z, q.w);
    assert AxisMat(n, s, c) == LinearMat(AxisRow0(n, s, c), AxisRow1(n, s, c), AxisRow2(n, s, c));
    hide *;
    UnitAxisQuat(n.x, n.y, n.z, h, k, q.x, q.y, q.z);
    QuatEntries(n.x, n.y, n.z, h, k, s, c, q.x, q.y, q.z);
    QuatEntries(n.y, n.z, n.x, h, k, s, c, q.y, q.z, q.x);
    QuatEntries(n.z, n.x, n.y, h, k, s, c, q.z, q.x, q.y);
    AxisRow0Entries(n, s, c);
    AxisRow1Entries(n, s, c);
    AxisRow2Entries(n, s, c);
    RotationEntries(q);
  }

  lemma NormOfAxis(n: Vec)
    ensures Norm2(n) == Square(n.x) + Square(n.y) + Square(n.z)
  {
  }

  lemma UnitAxisQuat(a: real, b: real, d: real, h: real, k: real, x: real, y: real, z: real)
    requires Square(a) + Square(b) + Square(d) == 1.0 && Square(h) + Square(k) == 1.0
    requires x == Product(a, h) && y == Product(b, h) && z == Product(d, h)
    ensures SumOfSquares(x, y, z, k) == 1.0
  {
    assert SumOfSquares(a * h, b * h, d * h, k)
        == Product(Square(h), Square(a) + Square(b) + Square(d)) + Square(k);
  }

  lemma QuatOfRotates(sin: real -> real, cos: real -> real, r: Rotation)
    requires IsTrig(sin, cos) && DoublesAngles(sin, cos) && Norm2(r.axis) == 1.0
    ensures RotationOf(QuatOf(sin, cos, r)) == RotationMat(sin, cos, r)
    ensures Norm(QuatOf(sin, cos, r)) == 1.0
  {
    var h := r.angle / 2.0;
    assert Square(sin(h)) + Square(cos(h)) == 1.0;
    assert r.angle == h + h;
    assert sin(r.angle) == Product(2.0 * sin(h), cos(h)) && cos(r.angle) == 1.0 - Product(2.0 * sin(h), sin(h));
    assert QuatOf(sin, cos, r) == AxisQuat(r.axis, sin(h), cos(h));
    assert RotationMat(sin, cos, r) == AxisMat(r.axis, sin(r.angle), cos(r.angle));
    hide *;
    AxisQuatRotates(r.axis, sin(h), cos(h), sin(r.angle), cos(r.angle));
  }

  /** The rotation of a quaternion, unless the arc cosine or a quotient is undefined. */
  datatype Turning = Undefined | Turning(rotation: Rotation)

  /** The matrix of a turn about `n`, by the cosine of half the angle. */
  function HalfAngleMat(sqrt: real -> real, n: Vec, w: real): Mat {
    var h := sqrt(1.0 - Square(w));
    AxisMat(n, Product(2.0 * h, w), 1.0 - Product(2.0 * h, h))
  }

  /** Whether `r` is the rotation of `q`, unit or not: there is none when the scalar
      part is not above -1 and at most 1; the scalar part is the cosine of half the
      angle, and the vector part gives the axis its direction. */
  ghost predicate IsTurnOf(sin: real -> real, cos: real -> real, sqrt: real -> real, r: Turning, q: Quat)
    requires IsRoot(sqrt)
  {
    && (r == Undefined <==> q.w <= -1.0 || 1.0 < q.w)
    && (q.w == 1.0 ==> r == Turning(Rotation(Z_DIRECTION, 0.0)))
    && (-1.0 < q.w < 1.0 ==>
        && r.Turning? && r.rotation.axis == Normalize(sqrt, Vec(q.x, q.y, q.z))
        && RotationMat(sin, cos, r.rotation) == HalfAngleMat(sqrt, r.rotation.axis, q.w))
  }

  lemma TurnOf(sin: real -> real, cos: real -> real, sqrt: real -> real, r: Turning, q: Quat)
    requires IsRoot(sqrt)
    ensures IsTurnOf(sin, cos, sqrt, r, q) <==>
      && (r == Undefined <==> q.w <= -1.0 || 1.0 < q.w)
      && (q.w == 1.0 ==> r == Turning(Rotation(Z_DIRECTION, 0.0)))
      && (-1.0 < q.w < 1.0 ==>
          && r.Turning? && r.rotation.axis == Normalize(sqrt, Vec(q.x, q.y, q.z))
          && RotationMat(sin, cos, r.rotation) == HalfAngleMat(sqrt, r.rotation.axis, q.w))
  {
    hide RotationMat, HalfAngleMat, Normalize, IsRoot;
  }

  /** Takes a quaternion apart into an axis and an angle.  Its scalar part decides
      whether they exist and what the angle is, its vector part gives the axis its
      direction.  Of the unit quaternions only (0, 0, 0, -1), which turns by a full
      circle, has no rotation. */
  method MakeRotation(sin: real -> real, cos: real -> real, acos: real -> real, sqrt: real -> real, q: Quat)
    returns (r: Turning)
    requires IsTrig(sin, cos) && DoublesAngles(sin, cos) && IsArcCosine(acos, sin, cos) && IsRoot(sqrt)
    ensures IsTurnOf(sin, cos, sqrt, r, q)
    ensures Norm(q) == 1.0 ==> (r == Undefined <==> q.w == -1.0)
    ensures Norm(q) == 1.0 && r.Turning? ==>
      Norm2(r.rotation.axis) == 1.0 && RotationMat(sin, cos, r.rotation) == RotationOf(q)
  {
    hide *;
    if Norm(q) == 1.0 {
      UnitScalar(q);
    }
    if q.w < -1.0 || 1.0 < q.w {
      TurnOf(sin, cos, sqrt, Undefined, q);
      return Undefined;
    }
    ArcCosine(sin, cos, acos, q.w);
    var val := acos(q.w);
    if val == 0.0 {
      if Norm(q) == 1.0 {
        IdentityTurn(sin, cos, q);
      }
      TurnOf(sin, cos, sqrt, Turning(Rotation(Z_DIRECTION, 0.0)), q);
      return Turning(Rotation(Z_DIRECTION, 0.0));
    }
    var sinVal := sin(val);
    if sinVal == 0.0 {
      TurnOf(sin, cos, sqrt, Undefined, q);
      return Undefined;
    }
    var axis := Vec(q.x / sinVal, q.y / sinVal, q.z / sinVal);
    NormalizeDivided(sqrt, Vec(q.x, q.y, q.z), sinVal);
    r := Turning(Rotation(Normalize(sqrt, axis), 2.0 * val));
    HalfAngleTurn(sin, cos, sqrt, r.rotation, val, q.w);
    TurnOf(sin, cos, sqrt, r, q);
    if Norm(q) == 1.0 {
      UnitAxis(sqrt, q, sinVal);
      TurningRotates(sin, cos, q, r.rotation.axis, val);
    }
  }

  lemma NormalizeDivided(sqrt: real -> real, a: Vec, s: real)
    requires IsRoot(sqrt) && 0.0 < s
    ensures Normalize(sqrt, Vec(a.x / s, a.y / s, a.z / s)) == Normalize(sqrt, a)
  {
    var b := Vec(a.x / s, a.y / s, a.z / s);
    assert a == Scale(b, s) && (a == ORIGIN <==> b == ORIGIN);
    hide *;
    NormalizeOfOrigin(sqrt, a);
    NormalizeOfOrigin(sqrt, b);
    if a != ORIGIN {
      LengthScaled(sqrt, b, s);
      ScaleBy(Normalize(sqrt, b), Length(sqrt, b), s, Length(sqrt, a));
      NormalizeParts(sqrt, b);
      NormalizeParts(sqrt, a);
      CancelScale(Normalize(sqrt, b), Normalize(sqrt, a), Length(sqrt, a));
    }
  }

  lemma NormalizeOfOrigin(sqrt: real -> real, a: Vec)
    requires IsRoot(sqrt)
    ensures a == ORIGIN ==> Normalize(sqrt, a) == ORIGIN
    ensures a != ORIGIN ==> Length(sqrt, a) != 0.0
  {
    assert Square(Length(sqrt, a)) == Norm2(a);
    hide Length, Normalize, Norm2, IsRoot;
  }

  lemma NormalizeParts(sqrt: real -> real, a: Vec)
    requires IsRoot(sqrt)
    ensures a == Scale(Normalize(sqrt, a), Length(sqrt, a))
  {
  }

  lemma LengthScaled(sqrt: real -> real, a: Vec, s: real)
    requires IsRoot(sqrt) && 0.0 < s
    ensures Length(sqrt, Scale(a, s)) == Length(sqrt, a) * s
  {
    hide *;
    var k, l := Length(sqrt, a), Length(sqrt, Scale(a, s));
    LengthSquared(sqrt, a);
    LengthSquared(sqrt, Scale(a, s));
    ScaledDot(a, a, s, s);
    SquareOfProduct(k, s);
    ProductSign(k, s);
    RootOfSquare(l, Product(k, s));
  }

  lemma LengthSquared(sqrt: real -> real, a: Vec)
    requires IsRoot(sqrt)
    ensures 0.0 <= Length(sqrt, a) && Square(Length(sqrt, a)) == Norm2(a)
  {
  }

  lemma HalfAngleTurn(sin: real -> real, cos: real -> real, sqrt: real -> real, r: Rotation, val: real, w: real)
    requires IsTrig(sin, cos) && DoublesAngles(sin, cos) && IsRoot(sqrt) && r.angle == 2.0 * val
    requires cos(val) == w && 0.0 <= sin(val) && Square(sin(val)) == 1.0 - Square(w)
    ensures RotationMat(sin, cos, r) == HalfAngleMat(sqrt, r.axis, w)
  {
    var h := sqrt(1.0 - Square(w));
    assert r.angle == val + val;
    assert 0.0 <= h && Square(h) == 1.0 - Square(w);
    hide AxisMat, Square, IsTrig, IsRoot;
    SquareOrder(h, sin(val));
  }

  lemma NormInSquares(q: Quat)
    ensures Norm(q) == Square(q.x) + Square(q.y) + Square(q.z) + Square(q.w)
  {
  }

  lemma SumsToOne(a: real, b: real, c: real, d: real)
    requires 0.0 <= a && 0.0 <= b && 0.0 <= c && a + b + c + d == 1.0
    ensures d <= 1.0
    ensures d == 1.0 ==> a == 0.0 && b == 0.0 && c == 0.0
  {
  }

  lemma UnitScalar(q: Quat)
    requires Norm(q) == 1.0
    ensures -1.0 <= q.w <= 1.0
    ensures q.w == 1.0 || q.w == -1.0 ==> q.x == 0.0 && q.y == 0.0 && q.z == 0.0
  {
    NormInSquares(q);
    hide *;
    SumsToOne(Square(q.x), Square(q.y), Square(q.z), Square(q.w));
    UnitSquare(1.0);
    UnitSquare(q.w);
    SquareBound(q.w, 1.0);
  }

  lemma ArcCosine(sin: real -> real, cos: real -> real, acos: real -> real, w: real)
    requires IsTrig(sin, cos) && IsArcCosine(acos, sin, cos) && -1.0 <= w <= 1.0
    ensures cos(acos(w)) == w && 0.0 <= sin(acos(w)) && Square(sin(acos(w))) == 1.0 - Square(w)
    ensures acos(w) == 0.0 <==> w == 1.0
    ensures sin(acos(w)) == 0.0 <==> w == 1.0 || w == -1.0
  {
    var a := acos(w);
    assert Square(sin(a)) + Square(cos(a)) == 1.0;
    UnitSquare(w);
  }

  lemma IdentityTurn(sin: real -> real, cos: real -> real, q: Quat)
    requires IsTrig(sin, cos) && Norm(q) == 1.0 && q.w == 1.0
    ensures Norm2(Z_DIRECTION) == 1.0
    ensures RotationMat(sin, cos, Rotation(Z_DIRECTION, 0.0)) == RotationOf(q)
  {
    UnitScalar(q);
    assert q == Quat(0.0, 0.0, 0.0, 1.0) && sin(0.0) == 0.0 && cos(0.0) == 1.0;
    hide *;
    RotationOfOne();
    AxisMatZero(Z_DIRECTION);
    UnitZ();
    TurnZero(sin, cos, Z_DIRECTION);
  }

  lemma UnitZ()
    ensures Norm2(Z_DIRECTION) == 1.0
  {
  }

  lemma TurnZero(sin: real -> real, cos: real -> real, n: Vec)
    requires sin(0.0) == 0.0 && cos(0.0) == 1.0
    ensures RotationMat(sin, cos, Rotation(n, 0.0)) == AxisMat(n, 0.0, 1.0)
  {
    hide AxisMat;
  }

  lemma RotationOfOne()
    ensures RotationOf(Quat(0.0, 0.0, 0.0, 1.0)) == IDENTITY
  {
  }

  lemma UnitAxis(sqrt: real -> real, q: Quat, s: real)
    requires IsRoot(sqrt) && Norm(q) == 1.0 && 0.0 < s && Square(s) == 1.0 - Square(q.w)
    ensures var n := Normalize(sqrt, Vec(q.x, q.y, q.z)); Norm2(n) == 1.0 && AxisQuat(n, s, q.w) == q
  {
    var a := Vec(q.x, q.y, q.z);
    var n, l := Normalize(sqrt, a), Length(sqrt, a);
    NormInSquares(q);
    NormOfAxis(a);
    assert Square(l) == Norm2(a) == Square(s);
    SquareOrder(l, s);
    assert AxisQuat(n, s, q.w) == Quat(Scale(n, s).x, Scale(n, s).y, Scale(n, s).z, q.w);
    hide *;
  }

  lemma TurningRotates(sin: real -> real, cos: real -> real, q: Quat, n: Vec, val: real)
    requires IsTrig(sin, cos) && DoublesAngles(sin, cos)
    requires Norm2(n) == 1.0 && AxisQuat(n, sin(val), q.w) == q && q.w == cos(val)
    ensures RotationMat(sin, cos, Rotation(n, 2.0 * val)) == RotationOf(q)
  {
    var r := Rotation(n, 2.0 * val);
    assert r.angle / 2.0 == val;
    assert QuatOf(sin, cos, r) == q;
    hide RotationOf, AxisQuat, AxisMat, Norm2, IsTrig, DoublesAngles;
    QuatOfRotates(sin, cos, r);
  }

  /** Turns by the second rotation and then by the first. */
  method Compose(sin: real -> real, cos: real -> real, acos: real -> real, sqrt: real -> real, a: Rotation, b: Rotation)
    returns (r: Turning)
    requires IsTrig(sin, cos) && DoublesAngles(sin, cos) && IsArcCosine(acos, sin, cos) && IsRoot(sqrt)
    requires Norm2(a.axis) == 1.0 && Norm2(b.axis) == 1.0
    ensures r == Undefined <==> Hamilton(QuatOf(sin, cos, a), QuatOf(sin, cos, b)).w == -1.0
    ensures r.Turning? ==>
      && Norm2(r.rotation.axis) == 1.0
      && RotationMat(sin, cos, r.rotation) == Mul(RotationMat(sin, cos, b), RotationMat(sin, cos, a))
  {
    var p, q := QuatOf(sin, cos, a), QuatOf(sin, cos, b);
    hide *;
    QuatOfRotates(sin, cos, a);
    QuatOfRotates(sin, cos, b);
    NormMultiplicative(p, q);
    RotationOfProduct(p, q);
    r := MakeRotation(sin, cos, acos, sqrt, Hamilton(p, q));
  }

  /** Two half turns about the same axis have no composition. */
  lemma TwoHalfTurns(sin: real -> real, cos: real -> real, r: Rotation)
    requires Norm2(r.axis) == 1.0 && sin(r.angle / 2.0) == 1.0 && cos(r.angle / 2.0) == 0.0
    ensures Hamilton(QuatOf(sin, cos, r), QuatOf(sin, cos, r)).w == -1.0
  {
    NormOfAxis(r.axis);
    HamiltonEntries(QuatOf(sin, cos, r), QuatOf(sin, cos, r));
  }
}
