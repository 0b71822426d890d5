/** The quaternion of a rotation matrix. */
module MatrixToQuaternion {
  import opened Reals
  import opened Vectors
  import opened Matrices
  import opened BallTransforms
  import opened Quaternions

  datatype Part = X | Y | Z | W

  function PartOf(q: Quat, i: Part): real {
    match i
    case X => q.x
    case Y => q.y
    case Z => q.z
    case W => q.w
  }

  function Entry(m: Mat, i: nat, j: nat): real
    requires i < 3 && j < 3
  {
    var r := if i == 0 then m.r0 else if i == 1 then m.r1 else m.r2;
    if j == 0 then r.x else if j == 1 then r.y else r.z
  }

  /** Four times the product of parts `i` and `j` of the quaternion, read off
      the entries of its rotation matrix. */
  function Outer(m: Mat, i: Part, j: Part): real {
    match (i, j)
    case (X, X) => 1.0 + m.r0.x - m.r1.y - m.r2.z
    case (Y, Y) => 1.0 + m.r1.y - m.r2.z - m.r0.x
    case (Z, Z) => 1.0 + m.r2.z - m.r0.x - m.r1.y
    case (W, W) => 1.0 + m.r0.x + m.r1.y + m.r2.z
    case (X, Y) => m.r0.y + m.r1.x
    case (Y, X) => m.r0.y + m.r1.x
    case (Y, Z) => m.r1.z + m.r2.y
    case (Z, Y) => m.r1.z + m.r2.y
    case (Z, X) => m.r2.x + m.r0.z
    case (X, Z) => m.r2.x + m.r0.z
    case (X, W) => m.r1.z - m.r2.y
    case (W, X) => m.r1.z - m.r2.y
    case (Y, W) => m.r2.x - m.r0.z
    case (W, Y) => m.r2.x - m.r0.z
    case (Z, W) => m.r0.y - m.r1.x
    case (W, Z) => m.r0.y - m.r1.x
  }

  /** The part to divide by: the scalar part when the trace is positive, and the
      vector part of the largest diagonal entry otherwise. */
  function Pivot(m: Mat): Part {
    if m.r0.x + m.r1.y + m.r2.z > 0.0 then W
    else if m.r1.y > m.r0.x then (if m.r2.z > m.r1.y then Z else Y)
    else (if m.r2.z > m.r0.x then Z else X)
  }

  /** For every matrix at all, rotation or not, the square root is taken of a
      number that is at least one. */
  lemma PivotLarge(m: Mat)
    ensures Outer(m, Pivot(m), Pivot(m)) >= 1.0
  {
  }

  function PivotRoot(sqrt: real -> real, m: Mat): (s: real)
    requires IsRoot(sqrt)
    ensures 1.0 <= s && Square(s) == Outer(m, Pivot(m), Pivot(m))
  {
    PivotLarge(m);
    var s := sqrt(Outer(m, Pivot(m), Pivot(m)));
    SquareOrder(1.0, s);
    s
  }

  function PartFrom(sqrt: real -> real, m: Mat, i: Part): real
    requires IsRoot(sqrt)
  {
    var s := PivotRoot(sqrt, m);
    if i == Pivot(m) then s / 2.0 else Product(Outer(m, Pivot(m), i), 0.5 / s)
  }

  function QuatFrom(sqrt: real -> real, m: Mat): Quat
    requires IsRoot(sqrt)
  {
    Quat(PartFrom(sqrt, m, X), PartFrom(sqrt, m, Y), PartFrom(sqrt, m, Z), PartFrom(sqrt, m, W))
  }

  /** The pivot is the scalar part exactly when the trace is positive, and otherwise
      that of a diagonal entry than which none is larger. */
  lemma PivotChoice(m: Mat)
    ensures Pivot(m) == W <==> m.r0.x + m.r1.y + m.r2.z > 0.0
    ensures Pivot(m) == X ==> m.r0.x >= m.r1.y && m.r0.x >= m.r2.z
    ensures Pivot(m) == Y ==> m.r1.y > m.r0.x && m.r1.y >= m.r2.z
    ensures Pivot(m) == Z ==> m.r2.z > m.r0.x && m.r2.z > m.r1.y
  {
  }

  /** For every matrix, rotation or not, the part at the pivot is at least one half, and
      it and any part make up the matrix's entry for the two. */
  lemma PartsByPivot(sqrt: real -> real, m: Mat, i: Part)
    requires IsRoot(sqrt)
    ensures PartOf(QuatFrom(sqrt, m), Pivot(m)) >= 0.5
    ensures 4.0 * Product(PartOf(QuatFrom(sqrt, m), Pivot(m)), PartOf(QuatFrom(sqrt, m), i)) == Outer(m, Pivot(m), i)
  {
    hide Outer, Pivot, IsRoot, Product, Square;
    var p, s := Pivot(m), PivotRoot(sqrt, m);
    PartFromPivot(sqrt, m, i);
    PartAtPivot(sqrt, m);
    HalfTimes(s, Outer(m, p, i));
  }

  lemma PartAtPivot(sqrt: real -> real, m: Mat)
    requires IsRoot(sqrt)
    ensures PartFrom(sqrt, m, Pivot(m)) == PivotRoot(sqrt, m) / 2.0
  {
    hide Outer, Pivot, IsRoot;
  }

  lemma HalfTimes(s: real, o: real)
    requires 1.0 <= s
    ensures 4.0 * Product(s / 2.0, Product(o, 0.5 / s)) == o
  {
    var h := 0.5 / s;
    assert h * s == 0.5;
    assert 4.0 * Product(s / 2.0, Product(o, h)) == 2.0 * Product(o, h * s);
  }

  /** Reads the quaternion off a matrix, by way of its largest part. */
  method MakeQuat(sqrt: real -> real, m: Mat) returns (r: Quat)
    requires IsRoot(sqrt)
    ensures r == QuatFrom(sqrt, m)
  {
    hide Product, IsRoot, Square;
    assert PivotRoot(sqrt, m) == sqrt(Outer(m, Pivot(m), Pivot(m)));
    var q := [0.0, 0.0, 0.0, 0.0];
    var diagonal := m.r0.x + m.r1.y + m.r2.z;
    if diagonal > 0.0 {
      assert diagonal + 1.0 == Outer(m, W, W);
      var s := sqrt(diagonal + 1.0);
      q := q[3 := s / 2.0];
      s := 0.5 / s;
      q := q[0 := Product(m.r1.z - m.r2.y, s)];
      q := q[1 := Product(m.r2.x - m.r0.z, s)];
      q := q[2 := Product(m.r0.y - m.r1.x, s)];
    } else {
      var next := [1, 2, 0];
      var i := 0;
      if m.r1.y > m.r0.x { i := 1; }
      if m.r2.z > Entry(m, i, i) { i := 2; }
      var j := next[i];
      var k := next[j];
      assert (Entry(m, i, i) - (Entry(m, j, j) + Entry(m, k, k))) + 1.0 == Outer(m, Pivot(m), Pivot(m));
      var s := sqrt((Entry(m, i, i) - (Entry(m, j, j) + Entry(m, k, k))) + 1.0);
      q := q[i := s / 2.0];
      if s != 0.0 { s := 0.5 / s; }
      q := q[3 := Product(Entry(m, j, k) - Entry(m, k, j), s)];
      q := q[j := Product(Entry(m, i, j) + Entry(m, j, i), s)];
      q := q[k := Product(Entry(m, i, k) + Entry(m, k, i), s)];
    }
    r := Quat(q[0], q[1], q[2], q[3]);
  }

  lemma RowsInProducts(q: Quat)
    ensures RotationOf(q).r0 == Row(1.0 - 2.0 * (Product(q.y, q.y) + Product(q.z, q.z)),
                                    2.0 * (Product(q.x, q.y) + Product(q.z, q.w)),
                                    2.0 * (Product(q.z, q.x) - Product(q.y, q.w)), 0.0)
    ensures RotationOf(q).r1 == Row(2.0 * (Product(q.x, q.y) - Product(q.z, q.w)),
                                    1.0 - 2.0 * (Product(q.z, q.z) + Product(q.x, q.x)),
                                    2.0 * (Product(q.y, q.z) + Product(q.x, q.w)), 0.0)
    ensures RotationOf(q).r2 == Row(2.0 * (Product(q.z, q.x) + Product(q.y, q.w)),
                                    2.0 * (Product(q.y, q.z) - Product(q.x, q.w)),
                                    1.0 - 2.0 * (Product(q.y, q.y) + Product(q.x, q.x)), 0.0)
    ensures Norm(q) == Product(q.x, q.x) + Product(q.y, q.y) + Product(q.z, q.z) + Product(q.w, q.w)
  {
    Row0InProducts(q);
    Row1InProducts(q);
    Row2InProducts(q);
    NormInProducts(q);
    hide *;
  }

  lemma Row0InProducts(q: Quat)
    ensures RotationOf(q).r0 == Row(1.0 - 2.0 * (Product(q.y, q.y) + Product(q.z, q.z)),
                                    2.0 * (Product(q.x, q.y) + Product(q.z, q.w)),
                                    2.0 * (Product(q.z, q.x) - Product(q.y, q.w)), 0.0)
  {
  }

  lemma Row1InProducts(q: Quat)
    ensures RotationOf(q).r1 == Row(2.0 * (Product(q.x, q.y) - Product(q.z, q.w)),
                                    1.0 - 2.0 * (Product(q.z, q.z) + Product(q.x, q.x)),
                                    2.0 * (Product(q.y, q.z) + Product(q.x, q.w)), 0.0)
  {
  }

  lemma Row2InProducts(q: Quat)
    ensures RotationOf(q).r2 == Row(2.0 * (Product(q.z, q.x) + Product(q.y, q.w)),
                                    2.0 * (Product(q.y, q.z) - Product(q.x, q.w)),
                                    1.0 - 2.0 * (Product(q.y, q.y) + Product(q.x, q.x)), 0.0)
  {
  }

  lemma NormInProducts(q: Quat)
    ensures Norm(q) == Product(q.x, q.x) + Product(q.y, q.y) + Product(q.z, q.z) + Product(q.w, q.w)
  {
  }

  lemma ProductCommutes(q: Quat, i: Part, j: Part)
    ensures Product(PartOf(q, i), PartOf(q, j)) == Product(PartOf(q, j), PartOf(q, i))
  {
  }

  lemma OuterOfRotation(q: Quat, i: Part, j: Part)
    requires Norm(q) == 1.0
    ensures Outer(RotationOf(q), i, j) == 4.0 * Product(PartOf(q, i), PartOf(q, j))
  {
    hide Norm, RotationOf, Product;
    RowsInProducts(q);
    ProductCommutes(q, i, j);
  }

  /** From the matrix of a unit quaternion comes that quaternion or its
      opposite. */
  lemma QuaternionRoundTrip(sqrt: real -> real, q: Quat)
    requires IsRoot(sqrt) && Norm(q) == 1.0
    ensures QuatFrom(sqrt, RotationOf(q)) == q || QuatFrom(sqrt, RotationOf(q)) == Opposite(q)
  {
    hide Norm, RotationOf, Outer, Pivot, Product, IsRoot, Square;
    var m := RotationOf(q);
    var p, s := Pivot(m), PivotRoot(sqrt, m);
    var a := PartOf(q, p);
    OuterOfRotation(q, p, p);
    SignedRoot(s, a);
    PartFromRotation(sqrt, q, X);
    PartFromRotation(sqrt, q, Y);
    PartFromRotation(sqrt, q, Z);
    PartFromRotation(sqrt, q, W);
  }

  lemma PartFromRotation(sqrt: real -> real, q: Quat, i: Part)
    requires IsRoot(sqrt) && Norm(q) == 1.0
    ensures var m := RotationOf(q);
      var a, s, b := PartOf(q, Pivot(m)), PivotRoot(sqrt, m), PartFrom(sqrt, m, i);
      && (s == 2.0 * a ==> b == PartOf(q, i))
      && (s == -2.0 * a ==> b == -PartOf(q, i))
  {
    hide Norm, RotationOf, Outer, Pivot, PivotRoot, Product, IsRoot, Square;
    var m := RotationOf(q);
    OuterOfRotation(q, Pivot(m), i);
    DivideBySign(PivotRoot(sqrt, m), PartOf(q, Pivot(m)), PartOf(q, i));
  }

  lemma SignedRoot(s: real, a: real)
    requires 0.0 <= s && Square(s) == 4.0 * Product(a, a)
    ensures s == 2.0 * a || s == -2.0 * a
  {
    assert Square(2.0 * a) == 4.0 * Product(a, a) == Square(-2.0 * a);
    if 0.0 <= a {
      RootOfSquare(s, 2.0 * a);
    } else {
      RootOfSquare(s, -2.0 * a);
    }
  }

  lemma DivideBySign(s: real, a: real, b: real)
    requires s >= 1.0
    ensures s == 2.0 * a ==> Product(4.0 * Product(a, b), 0.5 / s) == b && s / 2.0 == a
    ensures s == -2.0 * a ==> Product(4.0 * Product(a, b), 0.5 / s) == -b && s / 2.0 == -a
  {
    var h := 0.5 / s;
    assert h * s == 0.5;
    assert Product(Product(s, b), h) == Product(b, Product(h, s)) == b * 0.5;
    assert 4.0 * Product(a, b) * h == 2.0 * Product(Product(2.0 * a, b), h);
    assert 4.0 * Product(a, b) * h == -2.0 * Product(Product(-2.0 * a, b), h);
  }

  /** The matrix of a rotation: orthonormal rows and determinant one. */
  ghost predicate ProperRotation(m: Mat) {
    && Affine(m) && Translation(m) == ORIGIN && Conformal(m, 1.0)
    && Det(Row0(m), Row1(m), Row2(m)) == 1.0
  }

  /** All quadratic relations between the entries of a rotation matrix, row by
      row. */
  ghost predicate Relations(a: real, b: real, c: real, d: real, e: real, f: real, g: real, h: real, i: real) {
    && a * a + b * b + c * c == 1.0 && d * d + e * e + f * f == 1.0 && g * g + h * h + i * i == 1.0
    && a * a + d * d + g * g == 1.0 && b * b + e * e + h * h == 1.0 && c * c + f * f + i * i == 1.0
    && a * d + b * e + c * f == 0.0 && a * g + b * h + c * i == 0.0 && d * g + e * h + f * i == 0.0
    && a * b + d * e + g * h == 0.0 && a * c + d * f + g * i == 0.0 && b * c + e * f + h * i == 0.0
    && a == e * i - f * h && b == f * g - d * i && c == d * h - e * g
    && d == c * h - b * i && e == a * i - c * g && f == b * g - a * h
    && g == b * f - c * e && h == c * d - a * f && i == a * e - b * d
  }

  /** The same relations between the rows and columns as vectors. */
  ghost predicate VectorRelations(a: real, b: real, c: real, d: real, e: real, f: real, g: real, h: real, i: real) {
    && Norm2(Vec(a, b, c)) == 1.0 && Norm2(Vec(d, e, f)) == 1.0 && Norm2(Vec(g, h, i)) == 1.0
    && Norm2(Vec(a, d, g)) == 1.0 && Norm2(Vec(b, e, h)) == 1.0 && Norm2(Vec(c, f, i)) == 1.0
    && Dot(Vec(a, b, c), Vec(d, e, f)) == 0.0 && Dot(Vec(a, b, c), Vec(g, h, i)) == 0.0
    && Dot(Vec(d, e, f), Vec(g, h, i)) == 0.0
    && Dot(Vec(a, d, g), Vec(b, e, h)) == 0.0 && Dot(Vec(a, d, g), Vec(c, f, i)) == 0.0
    && Dot(Vec(b, e, h), Vec(c, f, i)) == 0.0
    && Vec(a, b, c) == Cross(Vec(d, e, f), Vec(g, h, i))
    && Vec(d, e, f) == Cross(Vec(g, h, i), Vec(a, b, c))
    && Vec(g, h, i) == Cross(Vec(a, b, c), Vec(d, e, f))
  }

  lemma RelationsOfEntries(a: real, b: real, c: real, d: real, e: real, f: real, g: real, h: real, i: real)
    requires VectorRelations(a, b, c, d, e, f, g, h, i)
    ensures Relations(a, b, c, d, e, f, g, h, i)
  {
    hide Dot, Norm2, Cross;
    DotEntries(a, b, c, a, b, c);
    DotEntries(d, e, f, d, e, f);
    DotEntries(g, h, i, g, h, i);
    DotEntries(a, d, g, a, d, g);
    DotEntries(b, e, h, b, e, h);
    DotEntries(c, f, i, c, f, i);
    DotEntries(a, b, c, d, e, f);
    DotEntries(a, b, c, g, h, i);
    DotEntries(d, e, f, g, h, i);
    DotEntries(a, d, g, b, e, h);
    DotEntries(a, d, g, c, f, i);
    DotEntries(b, e, h, c, f, i);
    CrossEntries(d, e, f, g, h, i);
    CrossEntries(g, h, i, a, b, c);
    CrossEntries(a, b, c, d, e, f);
  }

  lemma DotEntries(ax: real, ay: real, az: real, bx: real, bY: real, bz: real)
    ensures Dot(Vec(ax, ay, az), Vec(bx, bY, bz)) == ax * bx + ay * bY + az * bz
  {
  }

  lemma CrossEntries(ax: real, ay: real, az: real, bx: real, bY: real, bz: real)
    ensures Cross(Vec(ax, ay, az), Vec(bx, bY, bz)) == Vec(ay * bz - az * bY, az * bx - ax * bz, ax * bY - ay * bx)
  {
  }

  lemma RotationRelations(m: Mat)
    requires ProperRotation(m)
    ensures Relations(m.r0.x, m.r0.y, m.r0.z, m.r1.x, m.r1.y, m.r1.z, m.r2.x, m.r2.y, m.r2.z)
  {
    hide Relations, Dot, Norm2, Det, Cross;
    ConformalColumns(m, 1.0);
    var u, v, w := Row0(m), Row1(m), Row2(m);
    DetCycles(u, v, w);
    DotSymmetric(u, v);
    DotSymmetric(u, w);
    DotSymmetric(v, w);
    CrossOfOthers(u, v, w);
    CrossOfOthers(v, w, u);
    CrossOfOthers(w, u, v);
    RelationsOfEntries(m.r0.x, m.r0.y, m.r0.z, m.r1.x, m.r1.y, m.r1.z, m.r2.x, m.r2.y, m.r2.z);
  }

  lemma CrossOfOthers(u: Vec, v: Vec, w: Vec)
    requires Norm2(u) == 1.0 && Dot(u, v) == 0.0 && Dot(u, w) == 0.0 && Det(u, v, w) == 1.0
    ensures u == Cross(v, w)
  {
    hide Dot, Norm2, Cross;
    var x := Cross(v, w);
    DoubleCross(u, v, w);
    UnitCrossTwice(u, x);
    CrossLinear(u, ORIGIN, ORIGIN, 0.0);
    DotSymmetric(u, x);
    assert Cross(u, x) == ORIGIN;
    CrossOrigin(u);
    assert Sub(Scale(u, 1.0), x) == ORIGIN;
  }

  function Minor(a: real, b: real, c: real, d: real): real {
    a * d - b * c
  }

  lemma CrossMinors(a: Vec, b: Vec)
    ensures Cross(a, b) == Vec(Minor(a.y, a.z, b.y, b.z), Minor(a.z, a.x, b.z, b.x), Minor(a.x, a.y, b.x, b.y))
  {
  }

  lemma DifferenceMinors(v: Vec, q: real, w: Vec, p: real)
    ensures Sub(Scale(v, q), Scale(w, p)) == Vec(Minor(v.x, w.x, p, q), Minor(v.y, w.y, p, q), Minor(v.z, w.z, p, q))
  {
  }

  lemma DoubleCross(u: Vec, v: Vec, w: Vec)
    ensures Cross(u, Cross(v, w)) == Sub(Scale(v, Dot(u, w)), Scale(w, Dot(u, v)))
  {
    hide *;
    var x := Cross(v, w);
    var p, q := Dot(u, v), Dot(u, w);
    CrossMinors(v, w);
    CrossMinors(u, x);
    DifferenceMinors(v, q, w, p);
    DotRotations(u, v);
    DotRotations(u, w);
    DoubleCrossCoordinate(u.x, u.y, u.z, v.x, v.y, v.z, w.x, w.y, w.z, x.y, x.z, p, q);
    DoubleCrossCoordinate(u.y, u.z, u.x, v.y, v.z, v.x, w.y, w.z, w.x, x.z, x.x, p, q);
    DoubleCrossCoordinate(u.z, u.x, u.y, v.z, v.x, v.y, w.z, w.x, w.y, x.x, x.y, p, q);
  }

  lemma DotRotations(a: Vec, b: Vec)
    ensures Dot(a, b) == Sum3(a.x, b.x, a.y, b.y, a.z, b.z)
    ensures Dot(a, b) == Sum3(a.y, b.y, a.z, b.z, a.x, b.x)
    ensures Dot(a, b) == Sum3(a.z, b.z, a.x, b.x, a.y, b.y)
  {
  }

  function Sum3(a: real, b: real, c: real, d: real, e: real, f: real): real {
    a * b + c * d + e * f
  }

  lemma DoubleCrossCoordinate(u0: real, u1: real, u2: real, v0: real, v1: real, v2: real, w0: real, w1: real, w2: real,
                              x1: real, x2: real, p: real, q: real)
    requires x1 == Minor(v2, v0, w2, w0) && x2 == Minor(v0, v1, w0, w1)
    requires p == Sum3(u0, v0, u1, v1, u2, v2) && q == Sum3(u0, w0, u1, w1, u2, w2)
    ensures Minor(u1, u2, x1, x2) == Minor(v0, w0, p, q)
  {
    assert Minor(u1, u2, v2 * w0 - v0 * w2, v0 * w1 - v1 * w0)
        == Minor(v0, w0, u0 * v0 + u1 * v1 + u2 * v2, u0 * w0 + u1 * w1 + u2 * w2);
    assert Minor(v2, v0, w2, w0) == v2 * w0 - v0 * w2;
    assert Minor(v0, v1, w0, w1) == v0 * w1 - v1 * w0;
  }

  lemma CrossOrigin(u: Vec)
    ensures Cross(u, ORIGIN) == ORIGIN
  {
  }

  /** The table of `Outer` is the square of one row: it has rank one. */
  lemma RankOneX(a: real, b: real, c: real, d: real, e: real, f: real, g: real, h: real, i: real)
    requires Relations(a, b, c, d, e, f, g, h, i)
    ensures Product(1.0 + a - e - i, 1.0 + e - i - a) == Product(b + d, b + d)
    ensures Product(1.0 + a - e - i, f + h) == Product(b + d, g + c)
    ensures Product(1.0 + a - e - i, g - c) == Product(b + d, f - h)
    ensures Product(1.0 + a - e - i, b - d) == Product(g + c, f - h)
    ensures Product(1.0 + a - e - i, 1.0 + a + e + i) == Product(f - h, f - h)
    ensures Product(1.0 + a + e + i, b + d) == Product(f - h, g - c)
  {
  }

  lemma RelationsCycle(a: real, b: real, c: real, d: real, e: real, f: real, g: real, h: real, i: real)
    requires Relations(a, b, c, d, e, f, g, h, i)
    ensures Relations(e, f, d, h, i, g, b, c, a)
  {
  }

  lemma RankOne(m: Mat, p: Part, i: Part, j: Part)
    requires ProperRotation(m)
    ensures Product(Outer(m, p, p), Outer(m, i, j)) == Product(Outer(m, p, i), Outer(m, p, j))
  {
    hide Relations, ProperRotation, Product;
    var (a, b, c) := (m.r0.x, m.r0.y, m.r0.z);
    var (d, e, f) := (m.r1.x, m.r1.y, m.r1.z);
    var (g, h, k) := (m.r2.x, m.r2.y, m.r2.z);
    RotationRelations(m);
    RelationsCycle(a, b, c, d, e, f, g, h, k);
    RelationsCycle(e, f, d, h, k, g, b, c, a);
    RankOneX(a, b, c, d, e, f, g, h, k);
    RankOneX(e, f, d, h, k, g, b, c, a);
    RankOneX(k, g, h, c, a, b, f, d, e);
    ProductSymmetric(Outer(m, p, p), Outer(m, i, j));
    ProductSymmetric(Outer(m, p, i), Outer(m, p, j));
  }

  lemma ProductSymmetric(a: real, b: real)
    ensures Product(a, b) == Product(b, a)
  {
  }

  lemma PartFromPivot(sqrt: real -> real, m: Mat, i: Part)
    requires IsRoot(sqrt)
    ensures PartFrom(sqrt, m, i) == Product(Outer(m, Pivot(m), i), 0.5 / PivotRoot(sqrt, m))
  {
    hide Outer, Pivot, IsRoot;
    var s := PivotRoot(sqrt, m);
    assert Product(Square(s), 0.5 / s) == s * (s * (0.5 / s));
  }

  lemma ScaledParts(s: real, h: real, opi: real, opj: real, oij: real)
    requires s * h == 0.5 && Product(Square(s), oij) == Product(opi, opj)
    ensures 4.0 * Product(Product(opi, h), Product(opj, h)) == oij
  {
    var sh := s * h;
    assert Product(Product(opi, h), Product(opj, h)) == Product(Product(opi, opj), Square(h));
    assert Product(Product(Square(s), oij), Square(h)) == Product(oij, Square(s * h));
    assert Square(s * h) == 0.25 by { assert Square(0.5) == 0.25; }
    assert Product(oij, 0.25) == oij * 0.25;
  }

  lemma OuterOfQuatFrom(sqrt: real -> real, m: Mat, i: Part, j: Part)
    requires IsRoot(sqrt) && ProperRotation(m)
    ensures 4.0 * Product(PartOf(QuatFrom(sqrt, m), i), PartOf(QuatFrom(sqrt, m), j)) == Outer(m, i, j)
  {
    hide Outer, Pivot, IsRoot, Product, Square, ProperRotation, PartFrom;
    var p, s := Pivot(m), PivotRoot(sqrt, m);
    PartFromPivot(sqrt, m, i);
    PartFromPivot(sqrt, m, j);
    RankOne(m, p, i, j);
    assert s * (0.5 / s) == 0.5;
    ScaledParts(s, 0.5 / s, Outer(m, p, i), Outer(m, p, j), Outer(m, i, j));
  }

  /** The quaternion read off a rotation matrix is a unit quaternion, and its
      rotation matrix is the given one. */
  lemma MatrixRoundTrip(sqrt: real -> real, m: Mat)
    requires IsRoot(sqrt) && ProperRotation(m)
    ensures Norm(QuatFrom(sqrt, m)) == 1.0 && RotationOf(QuatFrom(sqrt, m)) == m
  {
    hide Norm, RotationOf, IsRoot, Product, QuatFrom, Det, Conformal;
    var q := QuatFrom(sqrt, m);
    RowsInProducts(q);
    RotationParts(q);
    OuterOfQuatFrom(sqrt, m, X, X);
    OuterOfQuatFrom(sqrt, m, Y, Y);
    OuterOfQuatFrom(sqrt, m, Z, Z);
    OuterOfQuatFrom(sqrt, m, W, W);
    OuterOfQuatFrom(sqrt, m, X, Y);
    OuterOfQuatFrom(sqrt, m, Y, Z);
    OuterOfQuatFrom(sqrt, m, Z, X);
    OuterOfQuatFrom(sqrt, m, X, W);
    OuterOfQuatFrom(sqrt, m, Y, W);
    OuterOfQuatFrom(sqrt, m, Z, W);
  }
}
