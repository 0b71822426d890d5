/** Axis-angle rotations, and the matrix of a Transform node. */
module TransformBuilder {
  import opened Reals
  import opened Vectors
  import opened Matrices

  datatype Rotation = Rotation(axis: Vec, angle: real) {
    function Inverse(): Rotation {
      Rotation(axis, -angle)
    }
  }

  /** All that is assumed of the C library's sine and cosine. */
  ghost predicate IsTrig(sin: real -> real, cos: real -> real) {
    && sin(0.0) == 0.0 && cos(0.0) == 1.0
    && (forall a: real :: Square(sin(a)) + Square(cos(a)) == 1.0)
    && (forall a: real, b: real :: a + b == 0.0 ==> sin(a) + sin(b) == 0.0)
    && (forall a: real, b: real :: a + b == 0.0 ==> cos(a) == cos(b))
  }

  function AxisRow0(n: Vec, s: real, c: real): Vec {
    var t := 1.0 - c;
    Vec(t * n.x * n.x + c, t * n.x * n.y + s * n.z, t * n.x * n.z - s * n.y)
  }

  function AxisRow1(n: Vec, s: real, c: real): Vec {
    var t := 1.0 - c;
    Vec(t * n.x * n.y - s * n.z, t * n.y * n.y + c, t * n.y * n.z + s * n.x)
  }

  function AxisRow2(n: Vec, s: real, c: real): Vec {
    var t := 1.0 - c;
    Vec(t * n.x * n.z + s * n.y, t * n.y * n.z - s * n.x, t * n.z * n.z + c)
  }

  /** The matrix with linear part `u`, `v`, `w` and no translation. */
  function LinearMat(u: Vec, v: Vec, w: Vec): Mat {
    Mat(Row(u.x, u.y, u.z, 0.0), Row(v.x, v.y, v.z, 0.0), Row(w.x, w.y, w.z, 0.0), Row(0.0, 0.0, 0.0, 1.0))
  }

  /** The rotation about `n` whose sine and cosine are `s` and `c`. */
  function AxisMat(n: Vec, s: real, c: real): Mat {
    LinearMat(AxisRow0(n, s, c), AxisRow1(n, s, c), AxisRow2(n, s, c))
  }

  function RotationMat(sin: real -> real, cos: real -> real, r: Rotation): Mat {
    AxisMat(r.axis, sin(r.angle), cos(r.angle))
  }

  function ScaleMat(s: Vec): Mat {
    Mat(Row(s.x, 0.0, 0.0, 0.0), Row(0.0, s.y, 0.0, 0.0), Row(0.0, 0.0, s.z, 0.0), Row(0.0, 0.0, 0.0, 1.0))
  }

  function TranslationMat(t: Vec): Mat {
    Mat(Row(1.0, 0.0, 0.0, 0.0), Row(0.0, 1.0, 0.0, 0.0), Row(0.0, 0.0, 1.0, 0.0), Row(t.x, t.y, t.z, 1.0))
  }

  /** Rodrigues' formula: the vector `v` turned about the axis `n`. */
  function Turned(v: Vec, n: Vec, s: real, c: real): Vec {
    Add(Add(Scale(v, c), Scale(n, Product(1.0 - c, Dot(v, n)))), Scale(Cross(n, v), s))
  }

  lemma ScaleTwice(a: Vec, k: real, m: real)
    ensures Scale(Scale(a, k), m) == Scale(a, k * m) == Scale(Scale(a, m), k)
  {
  }

  lemma ScaleBy(a: Vec, k: real, m: real, q: real)
    requires q == k * m
    ensures Scale(a, q) == Scale(Scale(a, k), m)
  {
    ScaleTwice(a, k, m);
  }

  lemma ProductLinear(k: real, a: real, b: real, m: real)
    ensures Product(k, a + b) == Product(k, a) + Product(k, b)
    ensures Product(k, m * a) == Product(k, a) * m
  {
  }

  lemma AddInterchange(a: Vec, b: Vec, c: Vec, d: Vec, e: Vec, f: Vec)
    ensures Add(Add(Add(a, b), Add(c, d)), Add(e, f)) == Add(Add(Add(a, c), e), Add(Add(b, d), f))
  {
  }

  lemma TurnedAdd(a: Vec, b: Vec, n: Vec, s: real, c: real)
    ensures Turned(Add(a, b), n, s, c) == Add(Turned(a, n, s, c), Turned(b, n, s, c))
  {
    hide Dot, Cross, Scale, Add, Product;
    var pa, pb := Product(1.0 - c, Dot(a, n)), Product(1.0 - c, Dot(b, n));
    DotAdd(a, b, n);
    ProductLinear(1.0 - c, Dot(a, n), Dot(b, n), 1.0);
    ScaleAdd(a, b, c, c);
    ScaleAdd(n, n, pa, pb);
    CrossLinear(n, a, b, 1.0);
    ScaleAdd(Cross(n, a), Cross(n, b), s, s);
    AddInterchange(Scale(a, c), Scale(b, c), Scale(n, pa), Scale(n, pb), Scale(Cross(n, a), s), Scale(Cross(n, b), s));
  }

  lemma TurnedScale(a: Vec, k: real, n: Vec, s: real, c: real)
    ensures Turned(Scale(a, k), n, s, c) == Scale(Turned(a, n, s, c), k)
  {
    hide Dot, Cross, Scale, Add, Product;
    var p := Product(1.0 - c, Dot(a, n));
    DotScale(a, n, k, k);
    ProductLinear(1.0 - c, Dot(a, n), 0.0, k);
    ScaleTwice(a, k, c);
    ScaleBy(n, p, k, Product(1.0 - c, Dot(Scale(a, k), n)));
    CrossLinear(n, a, a, k);
    ScaleTwice(Cross(n, a), k, s);
    ScaleAdd(Add(Scale(a, c), Scale(n, p)), Scale(Cross(n, a), s), k, k);
    ScaleAdd(Scale(a, c), Scale(n, p), k, k);
  }

  lemma TurnedCombination(v: Vec, a: Vec, b: Vec, d: Vec, n: Vec, s: real, c: real)
    ensures Turned(Combine(v, a, b, d), n, s, c)
         == Combine(v, Turned(a, n, s, c), Turned(b, n, s, c), Turned(d, n, s, c))
  {
    hide Turned, Scale, Add;
    TurnedAdd(Add(Scale(a, v.x), Scale(b, v.y)), Scale(d, v.z), n, s, c);
    TurnedAdd(Scale(a, v.x), Scale(b, v.y), n, s, c);
    TurnedScale(a, v.x, n, s, c);
    TurnedScale(b, v.y, n, s, c);
    TurnedScale(d, v.z, n, s, c);
  }

  lemma TurnedX(n: Vec, s: real, c: real)
    ensures Turned(X_DIRECTION, n, s, c) == AxisRow0(n, s, c)
  {
    hide Dot, Cross, Product;
    DotAxes(n);
    CrossAxes(n);
    ScaleProduct(n, 1.0 - c, n.x);
  }

  lemma TurnedY(n: Vec, s: real, c: real)
    ensures Turned(Y_DIRECTION, n, s, c) == AxisRow1(n, s, c)
  {
    hide Dot, Cross, Product;
    DotAxes(n);
    CrossAxes(n);
    ScaleProduct(n, 1.0 - c, n.y);
  }

  lemma TurnedZ(n: Vec, s: real, c: real)
    ensures Turned(Z_DIRECTION, n, s, c) == AxisRow2(n, s, c)
  {
    hide Dot, Cross, Product;
    DotAxes(n);
    CrossAxes(n);
    ScaleProduct(n, 1.0 - c, n.z);
  }

  lemma ScaleProduct(n: Vec, t: real, k: real)
    ensures Scale(n, Product(t, k)) == Vec(t * n.x * k, t * n.y * k, t * n.z * k)
  {
  }

  lemma DotAxes(n: Vec)
    ensures Dot(X_DIRECTION, n) == n.x && Dot(Y_DIRECTION, n) == n.y && Dot(Z_DIRECTION, n) == n.z
  {
  }

  lemma CrossAxes(n: Vec)
    ensures Cross(n, X_DIRECTION) == Vec(0.0, n.z, -n.y)
    ensures Cross(n, Y_DIRECTION) == Vec(-n.z, 0.0, n.x)
    ensures Cross(n, Z_DIRECTION) == Vec(n.y, -n.x, 0.0)
  {
  }

  /** The rows of the rotation matrix are the turned coordinate axes. */
  lemma AxisMatRows(n: Vec, s: real, c: real)
    ensures Affine(AxisMat(n, s, c)) && Translation(AxisMat(n, s, c)) == ORIGIN
    ensures Row0(AxisMat(n, s, c)) == Turned(X_DIRECTION, n, s, c)
    ensures Row1(AxisMat(n, s, c)) == Turned(Y_DIRECTION, n, s, c)
    ensures Row2(AxisMat(n, s, c)) == Turned(Z_DIRECTION, n, s, c)
  {
    hide Turned, AxisRow0, AxisRow1, AxisRow2;
    TurnedX(n, s, c);
    TurnedY(n, s, c);
    TurnedZ(n, s, c);
  }

  /** The rotation matrix turns every vector by Rodrigues' formula. */
  lemma AxisMatTurns(v: Vec, n: Vec, s: real, c: real)
    ensures Linear(v, AxisMat(n, s, c)) == Turned(v, n, s, c)
  {
    hide Turned, AxisMat, Linear, Combine;
    AxisMatRows(n, s, c);
    LinearIsCombination(v, AxisMat(n, s, c));
    TurnedCombination(v, X_DIRECTION, Y_DIRECTION, Z_DIRECTION, n, s, c);
    CombineOfAxes(v);
  }

  /** A turn is right-handed: about z it takes x towards y, about x y towards z and
      about y z towards x. */
  lemma RightHanded(s: real, c: real)
    ensures Linear(X_DIRECTION, AxisMat(Z_DIRECTION, s, c)) == Vec(c, s, 0.0)
    ensures Linear(Y_DIRECTION, AxisMat(X_DIRECTION, s, c)) == Vec(0.0, c, s)
    ensures Linear(Z_DIRECTION, AxisMat(Y_DIRECTION, s, c)) == Vec(s, 0.0, c)
  {
    hide AxisMat, Linear;
    AxisMatTurns(X_DIRECTION, Z_DIRECTION, s, c);
    AxisMatTurns(Y_DIRECTION, X_DIRECTION, s, c);
    AxisMatTurns(Z_DIRECTION, Y_DIRECTION, s, c);
    TurnedX(Z_DIRECTION, s, c);
    TurnedY(X_DIRECTION, s, c);
    TurnedZ(Y_DIRECTION, s, c);
    hide Turned;
  }

  function TurnedCoordinate(v: real, n: real, x: real, p: real, s: real, c: real): real {
    v * c + n * p + x * s
  }

  /** How far turning there and back along an axis of squared length `m` misses, but
      for the factor `m - 1`. */
  function ExcessCoordinate(v: real, n: real, k: real, s: real, c: real): real {
    s * s * v + (1.0 - c) * (1.0 - c) * k * n
  }

  lemma TurnBackIdentity(v: real, n: real, x: real, k: real, s: real, c: real, m: real)
    ensures Product(v * c + n * ((1.0 - c) * k) + x * s, c)
            + Product(n, (1.0 - c) * (c * k + (1.0 - c) * k * m))
            + Product(x * c + (n * k - v * m) * s, -s)
         == v + Product(m - 1.0, s * s * v + (1.0 - c) * (1.0 - c) * k * n)
              + Product(s * s + c * c - 1.0, v - n * k)
  {
  }

  lemma TurnedInProducts(u: real, n: real, y: real, p: real, s: real, c: real)
    ensures TurnedCoordinate(u, n, y, p, s, c) == Product(u, c) + Product(n, p) + Product(y, s)
  {
  }

  lemma TurnedExpanded(v: real, n: real, x: real, k: real, s: real, c: real)
    ensures TurnedCoordinate(v, n, x, Product(1.0 - c, k), s, c) == v * c + n * ((1.0 - c) * k) + x * s
  {
  }

  lemma AxisPartExpanded(k: real, c: real, m: real)
    ensures Product(1.0 - c, Product(c, k) + Product(Product(1.0 - c, k), m))
         == (1.0 - c) * (c * k + (1.0 - c) * k * m)
  {
  }

  lemma CirclePoint(s: real, c: real, d: real)
    requires Square(s) + Square(c) == 1.0
    ensures Product(s * s + c * c - 1.0, d) == 0.0
  {
    assert s * s + c * c - 1.0 == 0.0;
  }

  lemma TurnBackCoordinate(v: real, n: real, x: real, y: real, k: real, s: real, c: real, m: real, p: real)
    requires Square(s) + Square(c) == 1.0
    requires y == x * c + (n * k - v * m) * s
    requires p == Product(1.0 - c, Product(c, k) + Product(Product(1.0 - c, k), m))
    ensures TurnedCoordinate(TurnedCoordinate(v, n, x, Product(1.0 - c, k), s, c), n, y, p, -s, c)
         == v + Product(m - 1.0, ExcessCoordinate(v, n, k, s, c))
  {
    var u := TurnedCoordinate(v, n, x, Product(1.0 - c, k), s, c);
    assert ExcessCoordinate(v, n, k, s, c) == s * s * v + (1.0 - c) * (1.0 - c) * k * n;
    hide *;
    TurnedExpanded(v, n, x, k, s, c);
    TurnedInProducts(u, n, y, p, -s, c);
    AxisPartExpanded(k, c, m);
    TurnBackIdentity(v, n, x, k, s, c, m);
    CirclePoint(s, c, v - n * k);
  }

  /** What turning there and back adds to a vector, but for the factor by which the
      axis's squared length differs from one. */
  function Excess(v: Vec, n: Vec, s: real, c: real): Vec {
    var k := Dot(v, n);
    Vec(ExcessCoordinate(v.x, n.x, k, s, c), ExcessCoordinate(v.y, n.y, k, s, c), ExcessCoordinate(v.z, n.z, k, s, c))
  }

  lemma TurnBackCoordinates(v: Vec, n: Vec, x: Vec, y: Vec, k: real, s: real, c: real, m: real, p: real)
    requires Square(s) + Square(c) == 1.0
    requires y == Add(Scale(x, c), Scale(Sub(Scale(n, k), Scale(v, m)), s))
    requires p == Product(1.0 - c, Product(c, k) + Product(Product(1.0 - c, k), m))
    ensures var q := Product(1.0 - c, k);
      && TurnedCoordinate(TurnedCoordinate(v.x, n.x, x.x, q, s, c), n.x, y.x, p, -s, c)
         == v.x + Product(m - 1.0, ExcessCoordinate(v.x, n.x, k, s, c))
      && TurnedCoordinate(TurnedCoordinate(v.y, n.y, x.y, q, s, c), n.y, y.y, p, -s, c)
         == v.y + Product(m - 1.0, ExcessCoordinate(v.y, n.y, k, s, c))
      && TurnedCoordinate(TurnedCoordinate(v.z, n.z, x.z, q, s, c), n.z, y.z, p, -s, c)
         == v.z + Product(m - 1.0, ExcessCoordinate(v.z, n.z, k, s, c))
  {
    hide *;
    CrossCoordinates(x, n, v, k, s, c, m);
    TurnBackCoordinate(v.x, n.x, x.x, y.x, k, s, c, m, p);
    TurnBackCoordinate(v.y, n.y, x.y, y.y, k, s, c, m, p);
    TurnBackCoordinate(v.z, n.z, x.z, y.z, k, s, c, m, p);
  }

  /** Turning by an angle and then by its opposite, about an axis of any length. */
  lemma TurnThereAndBack(v: Vec, n: Vec, s: real, c: real)
    requires Square(s) + Square(c) == 1.0
    ensures Turned(Turned(v, n, s, c), n, -s, c) == Add(v, Scale(Excess(v, n, s, c), Norm2(n) - 1.0))
  {
    hide *;
    var w, x, k, m := Turned(v, n, s, c), Cross(n, v), Dot(v, n), Norm2(n);
    TurnKeepsAxisPart(v, n, s, c);
    CrossOfTurned(v, n, s, c);
    TurnedCoordinates(v, n, s, c);
    TurnedCoordinates(w, n, -s, c);
    TurnBackCoordinates(v, n, x, Cross(n, w), k, s, c, m, Product(1.0 - c, Dot(w, n)));
    ExcessAdded(v, n, s, c, m);
  }

  lemma ExcessAdded(v: Vec, n: Vec, s: real, c: real, m: real)
    ensures var k := Dot(v, n);
      Add(v, Scale(Excess(v, n, s, c), m - 1.0))
      == Vec(v.x + Product(m - 1.0, ExcessCoordinate(v.x, n.x, k, s, c)),
             v.y + Product(m - 1.0, ExcessCoordinate(v.y, n.y, k, s, c)),
             v.z + Product(m - 1.0, ExcessCoordinate(v.z, n.z, k, s, c)))
  {
    hide ExcessCoordinate, Dot;
    var e := Excess(v, n, s, c);
    assert Scale(e, m - 1.0) == Vec(Product(m - 1.0, e.x), Product(m - 1.0, e.y), Product(m - 1.0, e.z));
  }

  /** Turning back by the opposite angle undoes the turn, when the axis has
      length one. */
  lemma TurnBack(v: Vec, n: Vec, s: real, c: real)
    requires Norm2(n) == 1.0 && Square(s) + Square(c) == 1.0
    ensures Turned(Turned(v, n, s, c), n, -s, c) == v
  {
    TurnThereAndBack(v, n, s, c);
    hide Turned, Excess, Norm2, Square;
    assert Scale(Excess(v, n, s, c), 0.0) == ORIGIN;
  }

  lemma CrossCoordinates(x: Vec, n: Vec, v: Vec, k: real, s: real, c: real, m: real)
    ensures var y := Add(Scale(x, c), Scale(Sub(Scale(n, k), Scale(v, m)), s));
      && y.x == x.x * c + (n.x * k - v.x * m) * s
      && y.y == x.y * c + (n.y * k - v.y * m) * s
      && y.z == x.z * c + (n.z * k - v.z * m) * s
  {
  }

  lemma TurnedCoordinates(v: Vec, n: Vec, s: real, c: real)
    ensures var p, x := Product(1.0 - c, Dot(v, n)), Cross(n, v);
      Turned(v, n, s, c) == Vec(TurnedCoordinate(v.x, n.x, x.x, p, s, c), TurnedCoordinate(v.y, n.y, x.y, p, s, c),
                                TurnedCoordinate(v.z, n.z, x.z, p, s, c))
  {
    hide Dot, Cross, Product;
  }

  lemma CrossOfTurned(v: Vec, n: Vec, s: real, c: real)
    ensures Cross(n, Turned(v, n, s, c))
         == Add(Scale(Cross(n, v), c), Scale(Sub(Scale(n, Dot(v, n)), Scale(v, Norm2(n))), s))
  {
    hide Dot, Cross, Norm2, Scale, Sub, Product;
    var x, p := Cross(n, v), Product(1.0 - c, Dot(v, n));
    CrossLinear(n, Add(Scale(v, c), Scale(n, p)), Scale(x, s), s);
    CrossLinear(n, Scale(v, c), Scale(n, p), s);
    CrossLinear(n, v, v, c);
    CrossLinear(n, n, n, p);
    CrossLinear(n, x, x, s);
    CrossTwice(n, v);
    ScaleOrigin(p);
  }

  lemma ScaleOrigin(k: real)
    ensures Scale(ORIGIN, k) == ORIGIN
  {
  }

  lemma TurnKeepsAxisPart(v: Vec, n: Vec, s: real, c: real)
    ensures Dot(Turned(v, n, s, c), n)
         == Product(c, Dot(v, n)) + Product(Product(1.0 - c, Dot(v, n)), Norm2(n))
  {
    hide Dot, Cross, Norm2, Scale, Add;
    var x, k := Cross(n, v), Dot(v, n);
    var p := Product(1.0 - c, k);
    DotAdd(Add(Scale(v, c), Scale(n, p)), Scale(x, s), n);
    DotAdd(Scale(v, c), Scale(n, p), n);
    DotScale(v, n, c, c);
    DotScale(n, n, p, p);
    DotScale(x, n, s, s);
    DetCycles(n, v, v);
    DotSymmetric(n, x);
  }

  /** The rotations by opposite angles, multiplied: what is added to the rows of the
      identity is the excess of the coordinate axes. */
  lemma OppositeTurns(n: Vec, s: real, c: real)
    requires Square(s) + Square(c) == 1.0
    ensures var p := Mul(AxisMat(n, s, c), AxisMat(n, -s, c));
      && Affine(p) && Translation(p) == ORIGIN
      && Row0(p) == Add(X_DIRECTION, Scale(Excess(X_DIRECTION, n, s, c), Norm2(n) - 1.0))
      && Row1(p) == Add(Y_DIRECTION, Scale(Excess(Y_DIRECTION, n, s, c), Norm2(n) - 1.0))
      && Row2(p) == Add(Z_DIRECTION, Scale(Excess(Z_DIRECTION, n, s, c), Norm2(n) - 1.0))
  {
    hide *;
    var a, b := AxisMat(n, s, c), AxisMat(n, -s, c);
    AxisMatRows(n, s, c);
    AxisMatRows(n, -s, c);
    AffineMul(a, b);
    AxisMatTurns(Row0(a), n, -s, c);
    AxisMatTurns(Row1(a), n, -s, c);
    AxisMatTurns(Row2(a), n, -s, c);
    TurnThereAndBack(X_DIRECTION, n, s, c);
    TurnThereAndBack(Y_DIRECTION, n, s, c);
    TurnThereAndBack(Z_DIRECTION, n, s, c);
    LinearOfOrigin(b);
    AddOrigin();
  }

  lemma AddOrigin()
    ensures Add(ORIGIN, ORIGIN) == ORIGIN
  {
  }

  lemma ScaledToNothing(a: Vec, e: Vec, k: real)
    ensures Add(a, Scale(e, k)) == a <==> k == 0.0 || e == ORIGIN
  {
    if k != 0.0 && Add(a, Scale(e, k)) == a {
      assert e.x * k == 0.0 && e.y * k == 0.0 && e.z * k == 0.0;
    }
  }

  /** The rotations by opposite angles about a unit axis are inverse. */
  lemma AxisMatInverse(n: Vec, s: real, c: real)
    requires Norm2(n) == 1.0 && Square(s) + Square(c) == 1.0
    ensures Mul(AxisMat(n, s, c), AxisMat(n, -s, c)) == IDENTITY
  {
    var p := Mul(AxisMat(n, s, c), AxisMat(n, -s, c));
    hide Mul, AxisMat, Norm2, Square, Excess, Scale, Add;
    OppositeTurns(n, s, c);
    ScaledToNothing(X_DIRECTION, Excess(X_DIRECTION, n, s, c), Norm2(n) - 1.0);
    ScaledToNothing(Y_DIRECTION, Excess(Y_DIRECTION, n, s, c), Norm2(n) - 1.0);
    ScaledToNothing(Z_DIRECTION, Excess(Z_DIRECTION, n, s, c), Norm2(n) - 1.0);
    PartsOfIdentity(p);
  }

  lemma PartsOfIdentity(m: Mat)
    ensures m == IDENTITY <==>
      && Affine(m) && Translation(m) == ORIGIN
      && Row0(m) == X_DIRECTION && Row1(m) == Y_DIRECTION && Row2(m) == Z_DIRECTION
  {
  }

  /** Without excess there is no sine, and no axis or no turn at all. */
  lemma NoExcess(n: Vec, s: real, c: real)
    requires Square(s) + Square(c) == 1.0
    requires Excess(X_DIRECTION, n, s, c) == Excess(Y_DIRECTION, n, s, c) == Excess(Z_DIRECTION, n, s, c) == ORIGIN
    ensures c == 1.0 || (c == -1.0 && n == ORIGIN)
  {
    hide Square, Dot, Excess;
    ExcessOfAxes(n, s, c);
    assert Square(s) == 0.0 && s == 0.0;
    UnitSquare(c);
  }

  lemma ExcessOfAxes(n: Vec, s: real, c: real)
    ensures Excess(X_DIRECTION, n, s, c).x == Square(s) + Square((1.0 - c) * n.x)
    ensures Excess(Y_DIRECTION, n, s, c).y == Square(s) + Square((1.0 - c) * n.y)
    ensures Excess(Z_DIRECTION, n, s, c).z == Square(s) + Square((1.0 - c) * n.z)
  {
    hide Dot, Square;
    DotAxes(n);
  }

  /** When rotations by opposite angles about `n` cancel, given the cosine. */
  predicate Cancels(n: Vec, c: real) {
    Norm2(n) == 1.0 || c == 1.0 || (c == -1.0 && n == ORIGIN)
  }

  lemma CancelsExactly(n: Vec, s: real, c: real)
    requires Square(s) + Square(c) == 1.0
    ensures Mul(AxisMat(n, s, c), AxisMat(n, -s, c)) == IDENTITY <==> Cancels(n, c)
  {
    hide *;
    if Norm2(n) == 1.0 {
      AxisMatInverse(n, s, c);
    } else if c == 1.0 {
      NoSine(s, c);
      AxisMatZero(n);
      MulIdentity(IDENTITY);
    } else if c == -1.0 && n == ORIGIN {
      NoSine(s, c);
      HalfTurnTwice(n, s, c);
    } else {
      OppositeTurnsRemain(n, s, c);
    }
    CancelsMeans(n, c);
  }

  lemma CancelsMeans(n: Vec, c: real)
    ensures Cancels(n, c) <==> Norm2(n) == 1.0 || c == 1.0 || (c == -1.0 && n == ORIGIN)
  {
    hide Norm2;
  }

  lemma NoSine(s: real, c: real)
    requires Square(s) + Square(c) == 1.0 && (c == 1.0 || c == -1.0)
    ensures s == 0.0 == -s
  {
    assert Square(c) == 1.0;
    hide Square;
  }

  /** Half a turn about an axis of length zero is the reflection at the origin. */
  lemma HalfTurnTwice(n: Vec, s: real, c: real)
    requires Square(s) + Square(c) == 1.0
    requires n == ORIGIN && s == 0.0
    ensures Mul(AxisMat(n, s, c), AxisMat(n, -s, c)) == IDENTITY
  {
    hide *;
    OppositeTurns(n, s, c);
    NothingExceeds(X_DIRECTION, n, s, c);
    NothingExceeds(Y_DIRECTION, n, s, c);
    NothingExceeds(Z_DIRECTION, n, s, c);
    ScaledToNothing(X_DIRECTION, ORIGIN, Norm2(n) - 1.0);
    ScaledToNothing(Y_DIRECTION, ORIGIN, Norm2(n) - 1.0);
    ScaledToNothing(Z_DIRECTION, ORIGIN, Norm2(n) - 1.0);
    PartsOfIdentity(Mul(AxisMat(n, s, c), AxisMat(n, -s, c)));
  }

  lemma NothingExceeds(v: Vec, n: Vec, s: real, c: real)
    requires n == ORIGIN && s == 0.0
    ensures Excess(v, n, s, c) == ORIGIN
  {
    hide Dot;
  }

  lemma OppositeTurnsRemain(n: Vec, s: real, c: real)
    requires Square(s) + Square(c) == 1.0
    requires Norm2(n) != 1.0 && c != 1.0 && !(c == -1.0 && n == ORIGIN)
    ensures Mul(AxisMat(n, s, c), AxisMat(n, -s, c)) != IDENTITY
  {
    var p := Mul(AxisMat(n, s, c), AxisMat(n, -s, c));
    hide *;
    if p == IDENTITY {
      OppositeTurns(n, s, c);
      PartsOfIdentity(p);
      ScaledToNothing(X_DIRECTION, Excess(X_DIRECTION, n, s, c), Norm2(n) - 1.0);
      ScaledToNothing(Y_DIRECTION, Excess(Y_DIRECTION, n, s, c), Norm2(n) - 1.0);
      ScaledToNothing(Z_DIRECTION, Excess(Z_DIRECTION, n, s, c), Norm2(n) - 1.0);
      NoExcess(n, s, c);
    }
  }

  /** A rotation by angle zero is no rotation, whatever its axis. */
  lemma AxisMatZero(n: Vec)
    ensures AxisMat(n, 0.0, 1.0) == IDENTITY
  {
  }

  /** All seven factors of a Transform node's matrix, none of them skipped. */
  function FullTransformation(sin: real -> real, cos: real -> real, t: Vec, r: Rotation, s: Vec, sr: Rotation,
                              c: Vec): Mat {
    Mul(TranslationMat(Neg(c)),
    Mul(RotationMat(sin, cos, sr.Inverse()),
    Mul(ScaleMat(s),
    Mul(RotationMat(sin, cos, sr),
    Mul(RotationMat(sin, cos, r),
    Mul(TranslationMat(c), TranslationMat(t)))))))
  }

  /** What is left of them without a scale: the rotation about the centre, and the
      translation. */
  function UnscaledTransformation(sin: real -> real, cos: real -> real, t: Vec, r: Rotation, c: Vec): Mat {
    Mul(TranslationMat(Neg(c)), Mul(RotationMat(sin, cos, r), Mul(TranslationMat(c), TranslationMat(t))))
  }

  /** The matrix that is built: without a scale, its orientation does not count. */
  function Transformation(sin: real -> real, cos: real -> real, t: Vec, r: Rotation, s: Vec, sr: Rotation,
                          c: Vec): Mat {
    if s == Vec(1.0, 1.0, 1.0) then UnscaledTransformation(sin, cos, t, r, c)
    else FullTransformation(sin, cos, t, r, s, sr, c)
  }

  /** Builds the matrix of a Transform node, skipping the factors that its
      inputs make trivial. */
  method MakeTransformation(sin: real -> real, cos: real -> real, t: Vec, r: Rotation, s: Vec, sr: Rotation, c: Vec)
    returns (mat: Mat)
    requires IsTrig(sin, cos)
    ensures mat == Transformation(sin, cos, t, r, s, sr, c)
    ensures s != Vec(1.0, 1.0, 1.0) || Cancels(sr.axis, cos(sr.angle))
      ==> mat == FullTransformation(sin, cos, t, r, s, sr, c)
    ensures Norm2(r.axis) == 1.0 && mat == FullTransformation(sin, cos, t, r, s, sr, c)
      ==> s != Vec(1.0, 1.0, 1.0) || Cancels(sr.axis, cos(sr.angle))
  {
    hide Mul, RotationMat, Norm2, Square, ScaleMat, TranslationMat, IsTrig, Neg, Cancels;
    TrivialFactors(sin, cos, r);
    TrivialFactors(sin, cos, sr);
    ghost var m1 := TranslationMat(t);
    ghost var m2 := Mul(TranslationMat(c), m1);
    ghost var m3 := Mul(RotationMat(sin, cos, r), m2);
    ghost var m4 := Mul(RotationMat(sin, cos, sr), m3);
    ghost var m5 := Mul(ScaleMat(s), m4);
    ghost var m6 := Mul(RotationMat(sin, cos, sr.Inverse()), m5);
    MulIdentity(m1);
    MulIdentity(m2);
    MulIdentity(m3);
    MulIdentity(m5);
    MulIdentity(m6);
    UndoneRotation(sin, cos, t, r, sr, c);

    mat := IDENTITY;
    if t != ORIGIN {
      mat := Mul(TranslationMat(t), mat);
    }
    assert mat == m1;
    if c != ORIGIN {
      mat := Mul(TranslationMat(c), mat);
    }
    assert mat == m2;
    if r.angle != 0.0 {
      mat := Mul(RotationMat(sin, cos, r), mat);
    }
    assert mat == m3;
    if s != Vec(1.0, 1.0, 1.0) {
      if sr.angle != 0.0 {
        mat := Mul(RotationMat(sin, cos, sr), mat);
      }
      assert mat == m4;
      mat := Mul(ScaleMat(s), mat);
      if sr.angle != 0.0 {
        mat := Mul(RotationMat(sin, cos, sr.Inverse()), mat);
      }
    }
    ghost var inner := if s == Vec(1.0, 1.0, 1.0) then m3 else m6;
    assert mat == inner;
    MulIdentity(inner);
    if c != ORIGIN {
      mat := Mul(TranslationMat(Neg(c)), mat);
    }
  }

  lemma TrivialFactors(sin: real -> real, cos: real -> real, r: Rotation)
    requires IsTrig(sin, cos)
    ensures TranslationMat(ORIGIN) == IDENTITY && Neg(ORIGIN) == ORIGIN
    ensures ScaleMat(Vec(1.0, 1.0, 1.0)) == IDENTITY
    ensures r.angle == 0.0 ==> RotationMat(sin, cos, r) == IDENTITY == RotationMat(sin, cos, r.Inverse())
  {
    hide *;
    NoTranslation();
    NoScale();
    NoRotation(sin, cos, r);
  }

  lemma NoTranslation()
    ensures TranslationMat(ORIGIN) == IDENTITY && Neg(ORIGIN) == ORIGIN
  {
  }

  lemma NoScale()
    ensures ScaleMat(Vec(1.0, 1.0, 1.0)) == IDENTITY
  {
  }

  lemma NoRotation(sin: real -> real, cos: real -> real, r: Rotation)
    requires IsTrig(sin, cos)
    ensures r.angle == 0.0 ==> RotationMat(sin, cos, r) == IDENTITY == RotationMat(sin, cos, r.Inverse())
  {
    hide AxisMat;
    if r.angle == 0.0 {
      AxisMatZero(r.axis);
      assert r.Inverse() == r;
    }
  }

  lemma CancelFactor(x: Mat, y: Mat, a: Mat, b: Mat)
    requires Mul(a, b) == IDENTITY
    ensures Mul(x, a) == Mul(y, a) ==> x == y
    ensures Mul(b, x) == Mul(b, y) ==> x == y
  {
    hide Mul;
    MulAssociative(x, a, b);
    MulAssociative(y, a, b);
    MulAssociative(a, b, x);
    MulAssociative(a, b, y);
    MulIdentity(x);
    MulIdentity(y);
  }

  lemma TranslatedBack(c: Vec)
    ensures Mul(TranslationMat(c), TranslationMat(Neg(c))) == IDENTITY
  {
  }

  /** The sine and the cosine of a turn and of its inverse. */
  lemma InverseTurn(sin: real -> real, cos: real -> real, r: Rotation)
    requires IsTrig(sin, cos)
    ensures Square(sin(r.angle)) + Square(cos(r.angle)) == 1.0
    ensures sin(r.Inverse().angle) == -sin(r.angle) && cos(r.Inverse().angle) == cos(r.angle)
  {
    hide Square;
    assert r.angle + (-r.angle) == 0.0;
  }

  /** With no scale between them, the scale orientation and its inverse can be left
      out when they cancel, and only then if the rotation has a unit axis. */
  lemma UndoneRotation(sin: real -> real, cos: real -> real, t: Vec, r: Rotation, sr: Rotation, c: Vec)
    requires IsTrig(sin, cos)
    ensures var same := UnscaledTransformation(sin, cos, t, r, c)
                     == FullTransformation(sin, cos, t, r, Vec(1.0, 1.0, 1.0), sr, c);
      && (Cancels(sr.axis, cos(sr.angle)) ==> same)
      && (Norm2(r.axis) == 1.0 && same ==> Cancels(sr.axis, cos(sr.angle)))
  {
    hide Mul, AxisMat, Norm2, Square, TranslationMat, ScaleMat, IsTrig, Neg, Cancels;
    var back, turn, right := RotationMat(sin, cos, sr.Inverse()), RotationMat(sin, cos, sr), RotationMat(sin, cos, r);
    var pair, move := Mul(back, turn), Mul(TranslationMat(c), TranslationMat(t));
    var rest := Mul(right, move);
    InverseTurn(sin, cos, sr);
    InverseTurn(sin, cos, r);
    NoScale();
    CancelsExactly(sr.axis, sin(sr.Inverse().angle), cos(sr.angle));
    MulIdentity(Mul(turn, rest));
    MulAssociative(back, turn, rest);
    MulIdentity(rest);
    MulIdentity(right);
    if Norm2(r.axis) == 1.0
       && Mul(TranslationMat(Neg(c)), Mul(pair, rest)) == Mul(TranslationMat(Neg(c)), rest) {
      TranslatedBack(c);
      CancelFactor(Mul(pair, rest), rest, TranslationMat(c), TranslationMat(Neg(c)));
      MulAssociative(pair, right, move);
      MovedBack(t, c);
      CancelFactor(Mul(pair, right), right, move, Mul(TranslationMat(Neg(t)), TranslationMat(Neg(c))));
      AxisMatInverse(r.axis, sin(r.angle), cos(r.angle));
      CancelFactor(pair, IDENTITY, right, RotationMat(sin, cos, r.Inverse()));
    }
  }

  lemma MovedBack(t: Vec, c: Vec)
    ensures Mul(Mul(TranslationMat(c), TranslationMat(t)), Mul(TranslationMat(Neg(t)), TranslationMat(Neg(c))))
         == IDENTITY
  {
    hide Mul, TranslationMat, Neg;
    var a, b, d, e := TranslationMat(c), TranslationMat(t), TranslationMat(Neg(t)), TranslationMat(Neg(c));
    TranslatedBack(t);
    TranslatedBack(c);
    MulAssociative(a, b, Mul(d, e));
    MulAssociative(b, d, e);
    MulIdentity(e);
  }

  function Turn(sin: real -> real, cos: real -> real, p: Vec, r: Rotation): Vec {
    Turned(p, r.axis, sin(r.angle), cos(r.angle))
  }

  function Stretch(p: Vec, s: Vec): Vec {
    Vec(p.x * s.x, p.y * s.y, p.z * s.z)
  }

  /** Where a Transform node puts a point: relative to the centre it is turned
      back by the scale orientation, stretched, turned by the scale orientation
      and by the rotation; then it is moved back and translated. */
  function Placed(sin: real -> real, cos: real -> real, p: Vec, t: Vec, r: Rotation, s: Vec, sr: Rotation,
                  c: Vec): Vec {
    var q := Turn(sin, cos, Stretch(Turn(sin, cos, Add(p, Neg(c)), sr.Inverse()), s), sr);
    Add(Add(Turn(sin, cos, q, r), c), t)
  }

  lemma TranslationMaps(p: Vec, t: Vec)
    ensures Affine(TranslationMat(t)) && Finite(p, TranslationMat(t)) && Apply(p, TranslationMat(t)) == Add(p, t)
  {
    AffineApply(p, TranslationMat(t));
    var m := TranslationMat(t);
    assert Linear(p, m) == p;
  }

  lemma ScaleMaps(p: Vec, s: Vec)
    ensures Affine(ScaleMat(s)) && Finite(p, ScaleMat(s)) && Apply(p, ScaleMat(s)) == Stretch(p, s)
  {
    AffineApply(p, ScaleMat(s));
    var m := ScaleMat(s);
    assert Linear(p, m) == Stretch(p, s);
  }

  lemma RotationMaps(sin: real -> real, cos: real -> real, p: Vec, r: Rotation)
    ensures var m := RotationMat(sin, cos, r); Affine(m) && Finite(p, m) && Apply(p, m) == Turn(sin, cos, p, r)
  {
    hide AxisMat, Turned, Linear, Finite, Apply;
    var m := RotationMat(sin, cos, r);
    AxisMatRows(r.axis, sin(r.angle), cos(r.angle));
    AxisMatTurns(p, r.axis, sin(r.angle), cos(r.angle));
    AffineApply(p, m);
  }

  lemma FactorThenRest(p: Vec, a: Mat, b: Mat)
    requires Affine(a) && Affine(b)
    ensures Affine(Mul(a, b)) && Finite(p, a) && Finite(Apply(p, a), b) && Finite(p, Mul(a, b))
    ensures Apply(p, Mul(a, b)) == Apply(Apply(p, a), b)
  {
    hide *;
    AffineMul(a, b);
    AffineApply(p, a);
    AffineApply(Apply(p, a), b);
    ApplyCompose(p, a, b);
  }

  /** The matrix maps every point to where the Transform node puts it. */
  lemma TransformationPlaces(sin: real -> real, cos: real -> real, p: Vec, t: Vec, r: Rotation, s: Vec, sr: Rotation,
                             c: Vec)
    ensures var m := FullTransformation(sin, cos, t, r, s, sr, c);
      && Affine(m) && Finite(p, m)
      && Apply(p, m) == Placed(sin, cos, p, t, r, s, sr, c)
  {
    hide Mul, RotationMat, ScaleMat, TranslationMat, Affine, Finite, Apply, Turn, Stretch, Add, Neg;
    var p1 := Add(p, Neg(c));
    var p2 := Turn(sin, cos, p1, sr.Inverse());
    var p3 := Stretch(p2, s);
    var p4 := Turn(sin, cos, p3, sr);
    var p5 := Turn(sin, cos, p4, r);
    TranslationMaps(p, Neg(c));
    RotationMaps(sin, cos, p1, sr.Inverse());
    ScaleMaps(p2, s);
    RotationMaps(sin, cos, p3, sr);
    RotationMaps(sin, cos, p4, r);
    TranslationMaps(p5, c);
    TranslationMaps(Add(p5, c), t);
    var m1 := TranslationMat(t);
    var m2 := Mul(TranslationMat(c), m1);
    var m3 := Mul(RotationMat(sin, cos, r), m2);
    var m4 := Mul(RotationMat(sin, cos, sr), m3);
    var m5 := Mul(ScaleMat(s), m4);
    var m6 := Mul(RotationMat(sin, cos, sr.Inverse()), m5);
    FactorThenRest(p5, TranslationMat(c), m1);
    FactorThenRest(p4, RotationMat(sin, cos, r), m2);
    FactorThenRest(p3, RotationMat(sin, cos, sr), m3);
    FactorThenRest(p2, ScaleMat(s), m4);
    FactorThenRest(p1, RotationMat(sin, cos, sr.Inverse()), m5);
    FactorThenRest(p, TranslationMat(Neg(c)), m6);
  }

  lemma BuiltIsFull(sin: real -> real, cos: real -> real, t: Vec, r: Rotation, s: Vec, sr: Rotation, c: Vec)
    requires IsTrig(sin, cos) && Cancels(sr.axis, cos(sr.angle))
    ensures Transformation(sin, cos, t, r, s, sr, c) == FullTransformation(sin, cos, t, r, s, sr, c)
  {
    hide FullTransformation, UnscaledTransformation, Cancels, IsTrig;
    UndoneRotation(sin, cos, t, r, sr, c);
  }

  lemma NoTurning(p: Vec, n: Vec, s: real, c: real)
    requires s == 0.0 && c == 1.0
    ensures Turned(p, n, s, c) == p
  {
    hide Dot, Cross;
  }

  /** Without a centre and a scale orientation a point is stretched, turned and
      moved. */
  lemma PlacedSimply(sin: real -> real, cos: real -> real, p: Vec, t: Vec, r: Rotation, s: Vec, sr: Rotation, c: Vec)
    requires IsTrig(sin, cos) && sr.angle == 0.0 && c == ORIGIN
    ensures Placed(sin, cos, p, t, r, s, sr, c) == Add(Turn(sin, cos, Stretch(p, s), r), t)
  {
    var a := sr.Inverse();
    assert sin(sr.angle) == 0.0 == sin(a.angle) && cos(sr.angle) == 1.0 == cos(a.angle);
    hide IsTrig, Turned, Stretch;
    PlainSum(p, c);
    NoTurning(p, a.axis, sin(a.angle), cos(a.angle));
    NoTurning(Stretch(p, s), sr.axis, sin(sr.angle), cos(sr.angle));
    PlainSum(Turn(sin, cos, Stretch(p, s), r), c);
  }

  lemma PlainSum(p: Vec, c: Vec)
    requires c == ORIGIN
    ensures Add(p, Neg(c)) == p == Add(p, c)
  {
  }
}
