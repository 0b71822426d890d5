/** Taking a matrix apart into translation, rotation, scale and shear. */
module Decomposition {
  import opened Reals
  import opened Vectors
  import opened Matrices
  import opened Balls
  import opened BallTransforms
  import opened Quaternions
  import opened MatrixToQuaternion
  import opened TransformBuilder
  import opened AxisQuaternions

  function At(m: Mat, i: nat, j: nat): real
    requires i < 4 && j < 4
  {
    var r := if i == 0 then m.r0 else if i == 1 then m.r1 else if i == 2 then m.r2 else m.r3;
    if j == 0 then r.x else if j == 1 then r.y else if j == 2 then r.z else r.w
  }

  function WithoutPerspective(m: Mat): Mat {
    m.(r0 := m.r0.(w := 0.0), r1 := m.r1.(w := 0.0), r2 := m.r2.(w := 0.0))
  }

  function DivRow(r: Row, k: real): Row
    requires k != 0.0
  {
    Row(r.x / k, r.y / k, r.z / k, r.w / k)
  }

  /** `m` with its perspective ignored and its last entry made one. */
  function Normalized(m: Mat): Mat
    requires m.r3.w != 0.0
  {
    var n, k := WithoutPerspective(m), m.r3.w;
    Mat(DivRow(n.r0, k), DivRow(n.r1, k), DivRow(n.r2, k), DivRow(n.r3, k))
  }

  /** Divides every entry by the last one, in place: the last entry is divided
      by itself only after all others have been divided by it. */
  method DivideByLast(a: array2<real>)
    requires a.Length0 == 4 && a.Length1 == 4 && a[3, 3] != 0.0
    modifies a
    ensures forall i, j :: 0 <= i < 4 && 0 <= j < 4 ==> a[i, j] == old(a[i, j]) / old(a[3, 3])
  {
    for i := 0 to 4
      invariant forall p, q :: 0 <= p < i && 0 <= q < 4 ==> a[p, q] == old(a[p, q]) / old(a[3, 3])
      invariant forall p, q :: i <= p < 4 && 0 <= q < 4 ==> a[p, q] == old(a[p, q])
    {
      for j := 0 to 4
        invariant forall p, q :: 0 <= p < i && 0 <= q < 4 ==> a[p, q] == old(a[p, q]) / old(a[3, 3])
        invariant forall q :: 0 <= q < j ==> a[i, q] == old(a[i, q]) / old(a[3, 3])
        invariant forall q :: j <= q < 4 ==> a[i, q] == old(a[i, q])
        invariant forall p, q :: i < p < 4 && 0 <= q < 4 ==> a[p, q] == old(a[p, q])
      {
        a[i, j] := a[i, j] / a[3, 3];
      }
    }
  }

  /** Drops the perspective and divides by the last entry. */
  method Normalize4(m: Mat) returns (n: Mat)
    requires m.r3.w != 0.0
    ensures n == Normalized(m)
  {
    var tmp := new real[4, 4];
    forall i, j | 0 <= i < 4 && 0 <= j < 4 {
      tmp[i, j] := At(m, i, j);
    }
    tmp[0, 3], tmp[1, 3], tmp[2, 3] := 0.0, 0.0, 0.0;
    DivideByLast(tmp);
    n := Mat(Row(tmp[0, 0], tmp[0, 1], tmp[0, 2], tmp[0, 3]), Row(tmp[1, 0], tmp[1, 1], tmp[1, 2], tmp[1, 3]),
             Row(tmp[2, 0], tmp[2, 1], tmp[2, 2], tmp[2, 3]), Row(tmp[3, 0], tmp[3, 1], tmp[3, 2], tmp[3, 3]));
  }

  lemma NormalizedIsAffine(m: Mat)
    requires m.r3.w != 0.0
    ensures Affine(Normalized(m))
  {
    var k := m.r3.w;
    assert k / k == 1.0 && 0.0 / k == 0.0;
  }

  datatype Parts = Singular | Parts(t: Vec, r: Quat, s: Vec, shear: Vec, u0: Vec, u1: Vec, u2: Vec)

  ghost predicate Orthonormal(u: Vec, v: Vec, w: Vec) {
    && Norm2(u) == 1.0 && Norm2(v) == 1.0 && Norm2(w) == 1.0
    && Dot(u, v) == 0.0 && Dot(u, w) == 0.0 && Dot(v, w) == 0.0
  }

  /** The rows of `n` as scaled and sheared combinations of `u0`, `u1`, `u2`. */
  ghost predicate RebuildsRows(n: Mat, s: Vec, shear: Vec, u0: Vec, u1: Vec, u2: Vec) {
    && Row0(n) == Scale(u0, s.x)
    && Row1(n) == Scale(Add(Scale(u0, shear.x), u1), s.y)
    && Row2(n) == Scale(Add(Add(Scale(u0, shear.y), Scale(u1, shear.z)), u2), s.z)
  }

  /** What the decomposition of a nonsingular matrix consists of. */
  ghost predicate DecompositionOf(sqrt: real -> real, m: Mat, p: Parts)
    requires IsRoot(sqrt) && m.r3.w != 0.0 && p.Parts?
  {
    && p.t == Translation(Normalized(m))
    && 0.0 < p.s.x && 0.0 < p.s.y && 0.0 < p.s.z
    && Orthonormal(p.u0, p.u1, p.u2)
    && (Det(p.u0, p.u1, p.u2) > 0.0 <==> Det3(Normalized(m)) > 0.0)
    && RebuildsRows(Normalized(m), p.s, p.shear, p.u0, p.u1, p.u2)
    && p.r == QuatFrom(sqrt, LinearMat(p.u0, p.u1, p.u2))
  }

  /** The decomposition with shear.  The rotation is left as a quaternion; its
      axis and angle are not computed. */
  method Decompose(sqrt: real -> real, m: Mat) returns (p: Parts)
    requires IsRoot(sqrt) && m.r3.w != 0.0
    ensures p.Singular? <==> Det3(m) == 0.0
    ensures p.Parts? ==> DecompositionOf(sqrt, m, p)
  {
    hide *;
    if Det3(m) == 0.0 {
      return Singular;
    }
    var n := Normalize4(m);
    var t := Translation(n);
    var row0, row1, row2 := Row0(n), Row1(n), Row2(n);
    ghost var a0, a1, a2 := row0, row1, row2;
    NormalizedDet(m);

    var sx := Length(sqrt, row0);
    row0 := Normalize(sqrt, row0);
    FirstRow(sqrt, a0, a1, a2);

    var shearXY := Dot(row0, row1);
    row1 := Sub(row1, Scale(row0, shearXY));
    SecondRow(sqrt, row0, a1, a2);

    var sy := Length(sqrt, row1);
    row1 := Normalize(sqrt, row1);
    RebuildSecond(a1, row0, row1, shearXY, sy);

    var shearXZ := Dot(row0, row2);
    row2 := Sub(row2, Scale(row0, shearXZ));
    var shearYZ := Dot(row1, row2);
    row2 := Sub(row2, Scale(row1, shearYZ));
    ThirdRow(sqrt, row0, row1, a2);

    var sz := Length(sqrt, row2);
    row2 := Normalize(sqrt, row2);
    RebuildThird(a2, row0, row1, row2, shearXZ, shearYZ, sz);

    var quat := MakeQuat(sqrt, LinearMat(row0, row1, row2));
    p := Parts(t, quat, Vec(sx, sy, sz), Vec(shearXY / sy, shearXZ / sz, shearYZ / sz), row0, row1, row2);
    OrthonormalByParts(row0, row1, row2);
    RebuildsByRows(n, p.s, p.shear, row0, row1, row2);
    DecompositionByParts(sqrt, m, p);
  }

  lemma DetScales(u: Vec, v: Vec, w: Vec, k: real)
    ensures Det(Scale(u, k), v, w) == Product(k, Det(u, v, w))
    ensures Det(u, Scale(v, k), w) == Product(k, Det(u, v, w))
    ensures Det(u, v, Scale(w, k)) == Product(k, Det(u, v, w))
  {
    hide Dot, Cross;
    DetCycles(u, v, w);
    DetCycles(u, Scale(v, k), w);
    DetCycles(u, v, Scale(w, k));
    DotScale(u, Cross(v, w), k, k);
    DotScale(v, Cross(w, u), k, k);
    DotScale(w, Cross(u, v), k, k);
  }

  /** Subtracting a multiple of an earlier row keeps the determinant. */
  lemma DetShears(u: Vec, v: Vec, w: Vec, k: real)
    ensures Det(u, Sub(v, Scale(u, k)), w) == Det(u, v, w)
    ensures Det(u, v, Sub(w, Scale(u, k))) == Det(u, v, w)
    ensures Det(u, v, Sub(w, Scale(v, k))) == Det(u, v, w)
  {
    hide Dot, Cross, Sub, Scale;
    DetCycles(u, v, w);
    DetCycles(w, u, w);
    DetCycles(u, Sub(v, Scale(u, k)), w);
    DetCycles(u, v, Sub(w, Scale(u, k)));
    DetCycles(u, v, Sub(w, Scale(v, k)));
    DotAdd(v, Scale(u, k), Cross(w, u));
    DotScale(u, Cross(w, u), k, k);
    DotAdd(w, Scale(u, k), Cross(u, v));
    DotScale(u, Cross(u, v), k, k);
    DotAdd(w, Scale(v, k), Cross(u, v));
    DotScale(v, Cross(u, v), k, k);
  }

  lemma DetOfOrigin(u: Vec, v: Vec)
    ensures Det(ORIGIN, u, v) == 0.0 && Det(u, ORIGIN, v) == 0.0 && Det(u, v, ORIGIN) == 0.0
  {
  }

  lemma NormalizedDet(m: Mat)
    requires m.r3.w != 0.0 && Det3(m) != 0.0
    ensures var n := Normalized(m);
      Det3(n) == Det(Row0(n), Row1(n), Row2(n)) && Det3(n) != 0.0
  {
    hide Det3, Det, Scale;
    var n, k := Normalized(m), m.r3.w;
    var u, v, w := Row0(n), Row1(n), Row2(n);
    Det3ByRowsAndColumns(m);
    Det3ByRowsAndColumns(n);
    UndividedRow(m.r0, k);
    UndividedRow(m.r1, k);
    UndividedRow(m.r2, k);
    DetScales(u, Scale(v, k), Scale(w, k), k);
    DetScales(u, v, Scale(w, k), k);
    DetScales(u, v, w, k);
  }

  lemma UndividedRow(r: Row, k: real)
    requires k != 0.0
    ensures Vec(r.x, r.y, r.z) == Scale(Vec(r.x / k, r.y / k, r.z / k), k)
  {
  }

  lemma PositiveLength(sqrt: real -> real, v: Vec)
    requires IsRoot(sqrt) && v != ORIGIN
    ensures 0.0 < Length(sqrt, v) && Norm2(Normalize(sqrt, v)) == 1.0
    ensures v == Scale(Normalize(sqrt, v), Length(sqrt, v))
  {
    hide Norm2, Dot;
  }

  lemma FirstRow(sqrt: real -> real, a0: Vec, a1: Vec, a2: Vec)
    requires IsRoot(sqrt) && Det(a0, a1, a2) != 0.0
    ensures var u0, s := Normalize(sqrt, a0), Length(sqrt, a0);
      && 0.0 < s && a0 == Scale(u0, s) && Norm2(u0) == 1.0
      && Det(u0, a1, a2) != 0.0 && (Det(u0, a1, a2) > 0.0 <==> Det(a0, a1, a2) > 0.0)
  {
    hide *;
    DetOfOrigin(a1, a2);
    PositiveLength(sqrt, a0);
    DetScales(Normalize(sqrt, a0), a1, a2, Length(sqrt, a0));
    ProductSign(Length(sqrt, a0), Det(Normalize(sqrt, a0), a1, a2));
  }

  lemma SecondRow(sqrt: real -> real, u0: Vec, a1: Vec, a2: Vec)
    requires IsRoot(sqrt) && Norm2(u0) == 1.0 && Det(u0, a1, a2) != 0.0
    ensures var b := Sub(a1, Scale(u0, Dot(u0, a1)));
      var u1, s := Normalize(sqrt, b), Length(sqrt, b);
      && 0.0 < s && b == Scale(u1, s) && Norm2(u1) == 1.0 && Dot(u0, u1) == 0.0
      && Det(u0, u1, a2) != 0.0 && (Det(u0, u1, a2) > 0.0 <==> Det(u0, a1, a2) > 0.0)
  {
    hide *;
    var k := Dot(u0, a1);
    var b := Sub(a1, Scale(u0, k));
    DetOfOrigin(u0, a2);
    DetShears(u0, a1, a2, k);
    PositiveLength(sqrt, b);
    var u1, s := Normalize(sqrt, b), Length(sqrt, b);
    DetScales(u0, u1, a2, s);
    ProductSign(s, Det(u0, u1, a2));
    ProjectionRemoved(u0, a1);
    DotScale(u0, u1, s, s);
    Cancel(s, Dot(u0, u1), 0.0);
  }

  lemma ProjectionRemoved(u: Vec, v: Vec)
    requires Norm2(u) == 1.0
    ensures Dot(u, Sub(v, Scale(u, Dot(u, v)))) == 0.0
  {
    hide Dot, Sub, Scale;
    DotAdd(v, Scale(u, Dot(u, v)), u);
    DotScale(u, u, Dot(u, v), Dot(u, v));
    DotSymmetric(u, v);
  }

  lemma ThirdRow(sqrt: real -> real, u0: Vec, u1: Vec, a2: Vec)
    requires IsRoot(sqrt) && Norm2(u0) == 1.0 && Norm2(u1) == 1.0 && Dot(u0, u1) == 0.0
    requires Det(u0, u1, a2) != 0.0
    ensures var c := Sub(a2, Scale(u0, Dot(u0, a2)));
      var d := Sub(c, Scale(u1, Dot(u1, c)));
      var u2, s := Normalize(sqrt, d), Length(sqrt, d);
      && 0.0 < s && d == Scale(u2, s) && Norm2(u2) == 1.0 && Dot(u0, u2) == 0.0 && Dot(u1, u2) == 0.0
      && (Det(u0, u1, u2) > 0.0 <==> Det(u0, u1, a2) > 0.0)
  {
    hide *;
    var k := Dot(u0, a2);
    var c := Sub(a2, Scale(u0, k));
    var l := Dot(u1, c);
    var d := Sub(c, Scale(u1, l));
    DetOfOrigin(u0, u1);
    DetShears(u0, u1, a2, k);
    DetShears(u0, u1, c, l);
    PositiveLength(sqrt, d);
    var u2, s := Normalize(sqrt, d), Length(sqrt, d);
    DetScales(u0, u1, u2, s);
    ProductSign(s, Det(u0, u1, u2));
    ProjectionRemoved(u0, a2);
    ProjectionRemoved(u1, c);
    DotAdd(c, Scale(u1, l), u0);
    DotScale(u0, u1, l, l);
    DotScale(u0, u2, s, s);
    DotScale(u1, u2, s, s);
    Cancel(s, Dot(u0, u2), 0.0);
    Cancel(s, Dot(u1, u2), 0.0);
  }

  lemma RebuildSecond(a: Vec, u0: Vec, u1: Vec, k: real, s: real)
    requires s != 0.0 && Sub(a, Scale(u0, k)) == Scale(u1, s)
    ensures a == Scale(Add(Scale(u0, k / s), u1), s)
  {
    SumOfParts(a, Scale(u0, k), Scale(u1, s));
    hide Scale, Add;
    ScaledBack(u0, k, s);
    ScaleAdd(Scale(u0, k / s), u1, s, s);
  }

  lemma RebuildThird(a: Vec, u0: Vec, u1: Vec, u2: Vec, k: real, l: real, s: real)
    requires s != 0.0 && Sub(Sub(a, Scale(u0, k)), Scale(u1, l)) == Scale(u2, s)
    ensures a == Scale(Add(Add(Scale(u0, k / s), Scale(u1, l / s)), u2), s)
  {
    SumOfParts(a, Scale(u0, k), Sub(a, Scale(u0, k)));
    SumOfParts(Sub(a, Scale(u0, k)), Scale(u1, l), Scale(u2, s));
    AddAssociates(Scale(u0, k), Scale(u1, l), Scale(u2, s));
    hide Scale, Add, Sub;
    ScaledBack(u0, k, s);
    ScaledBack(u1, l, s);
    ScaleAdd(Scale(u0, k / s), Scale(u1, l / s), s, s);
    ScaleAdd(Add(Scale(u0, k / s), Scale(u1, l / s)), u2, s, s);
  }

  lemma SumOfParts(a: Vec, b: Vec, c: Vec)
    requires Sub(a, b) == c
    ensures a == Add(b, c)
  {
  }

  lemma AddAssociates(a: Vec, b: Vec, c: Vec)
    ensures Add(a, Add(b, c)) == Add(Add(a, b), c)
  {
  }

  lemma ScaledBack(a: Vec, k: real, s: real)
    requires s != 0.0
    ensures Scale(Scale(a, k / s), s) == Scale(a, k)
  {
    var p := k / s;
    assert k == p * s;
    Regrouped(a.x, p, s, k);
    Regrouped(a.y, p, s, k);
    Regrouped(a.z, p, s, k);
  }

  lemma Regrouped(a: real, p: real, s: real, k: real)
    requires k == p * s
    ensures a * p * s == a * k
  {
  }

  lemma OrthonormalByParts(u: Vec, v: Vec, w: Vec)
    requires Norm2(u) == 1.0 && Norm2(v) == 1.0 && Norm2(w) == 1.0
    requires Dot(u, v) == 0.0 && Dot(u, w) == 0.0 && Dot(v, w) == 0.0
    ensures Orthonormal(u, v, w)
  {
  }

  lemma RebuildsByRows(n: Mat, s: Vec, shear: Vec, u0: Vec, u1: Vec, u2: Vec)
    requires Row0(n) == Scale(u0, s.x)
    requires Row1(n) == Scale(Add(Scale(u0, shear.x), u1), s.y)
    requires Row2(n) == Scale(Add(Add(Scale(u0, shear.y), Scale(u1, shear.z)), u2), s.z)
    ensures RebuildsRows(n, s, shear, u0, u1, u2)
  {
  }

  lemma DecompositionByParts(sqrt: real -> real, m: Mat, p: Parts)
    requires IsRoot(sqrt) && m.r3.w != 0.0 && p.Parts?
    requires p.t == Translation(Normalized(m)) && 0.0 < p.s.x && 0.0 < p.s.y && 0.0 < p.s.z
    requires Orthonormal(p.u0, p.u1, p.u2)
    requires Det(p.u0, p.u1, p.u2) > 0.0 <==> Det3(Normalized(m)) > 0.0
    requires RebuildsRows(Normalized(m), p.s, p.shear, p.u0, p.u1, p.u2)
    requires p.r == QuatFrom(sqrt, LinearMat(p.u0, p.u1, p.u2))
    ensures DecompositionOf(sqrt, m, p)
  {
  }

  lemma OrthonormalDet(u: Vec, v: Vec, w: Vec)
    requires Orthonormal(u, v, w)
    ensures Square(Det(u, v, w)) == 1.0
  {
    hide Dot, Cross, Norm2;
    var x := Cross(v, w);
    DoubleCross(u, v, w);
    UnitCrossTwice(u, x);
    CrossOrigin(u);
    DotSymmetric(u, x);
    Lagrange(v, w);
    assert Cross(u, x) == ORIGIN;
    assert x == Scale(u, Det(u, v, w));
    ScaledDot(u, u, Det(u, v, w), 0.0);
  }

  function DetOfEntries(a: real, b: real, c: real, d: real, e: real, f: real, g: real, h: real, i: real): real {
    a * e * i - a * f * h + b * f * g - b * d * i + c * d * h - c * e * g
  }

  lemma RotationDetPolynomial(x: real, y: real, z: real, w: real)
    ensures DetOfEntries(1.0 - 2.0 * (y * y + z * z), 2.0 * (x * y + z * w), 2.0 * (z * x - y * w),
                         2.0 * (x * y - z * w), 1.0 - 2.0 * (z * z + x * x), 2.0 * (y * z + x * w),
                         2.0 * (z * x + y * w), 2.0 * (y * z - x * w), 1.0 - 2.0 * (y * y + x * x))
         == Square(1.0 - 2.0 * (x * x + y * y + z * z)) + 4.0 * Product(w * w, x * x + y * y + z * z)
  {
  }

  lemma Det3OfEntries(m: Mat)
    ensures Det3(m) == DetOfEntries(m.r0.x, m.r0.y, m.r0.z, m.r1.x, m.r1.y, m.r1.z, m.r2.x, m.r2.y, m.r2.z)
  {
  }

  lemma DetOfRotationEntries(x: real, y: real, z: real, w: real, m: Mat)
    requires m.r0.x == 1.0 - 2.0 * (y * y + z * z) && m.r0.y == 2.0 * (x * y + z * w) && m.r0.z == 2.0 * (z * x - y * w)
    requires m.r1.x == 2.0 * (x * y - z * w) && m.r1.y == 1.0 - 2.0 * (z * z + x * x) && m.r1.z == 2.0 * (y * z + x * w)
    requires m.r2.x == 2.0 * (z * x + y * w) && m.r2.y == 2.0 * (y * z - x * w) && m.r2.z == 1.0 - 2.0 * (y * y + x * x)
    ensures Det3(m) == Square(1.0 - 2.0 * (x * x + y * y + z * z)) + 4.0 * Product(w * w, x * x + y * y + z * z)
  {
    hide *;
    Det3OfEntries(m);
    RotationDetPolynomial(x, y, z, w);
  }

  lemma FirstEntries(q: Quat)
    ensures var x, y, z, w, r := q.x, q.y, q.z, q.w, RotationOf(q).r0;
      r.x == 1.0 - 2.0 * (y * y + z * z) && r.y == 2.0 * (x * y + z * w) && r.z == 2.0 * (z * x - y * w)
  {
  }

  lemma SecondEntries(q: Quat)
    ensures var x, y, z, w, r := q.x, q.y, q.z, q.w, RotationOf(q).r1;
      r.x == 2.0 * (x * y - z * w) && r.y == 1.0 - 2.0 * (z * z + x * x) && r.z == 2.0 * (y * z + x * w)
  {
  }

  lemma ThirdEntries(q: Quat)
    ensures var x, y, z, w, r := q.x, q.y, q.z, q.w, RotationOf(q).r2;
      r.x == 2.0 * (z * x + y * w) && r.y == 2.0 * (y * z - x * w) && r.z == 1.0 - 2.0 * (y * y + x * x)
  {
  }

  lemma RotationDet(q: Quat)
    ensures Det3(RotationOf(q))
         == Square(1.0 - 2.0 * (q.x * q.x + q.y * q.y + q.z * q.z))
            + 4.0 * Product(q.w * q.w, q.x * q.x + q.y * q.y + q.z * q.z)
  {
    hide *;
    FirstEntries(q);
    SecondEntries(q);
    ThirdEntries(q);
    DetOfRotationEntries(q.x, q.y, q.z, q.w, RotationOf(q));
  }

  /** The rotation matrix of a quaternion, unit or not, is never a reflection. */
  lemma RotationDetNonNegative(q: Quat)
    ensures 0.0 <= Det3(RotationOf(q))
  {
    hide Det3, Product, RotationOf;
    RotationDet(q);
    var p := q.x * q.x + q.y * q.y + q.z * q.z;
    assert p == Square(q.x) + Square(q.y) + Square(q.z);
    assert q.w * q.w == Square(q.w);
    ProductSign(q.w * q.w, p);
  }

  function ShearScale(s: Vec, shear: Vec): Mat {
    LinearMat(Vec(s.x, 0.0, 0.0), Vec(shear.x * s.y, s.y, 0.0), Vec(shear.y * s.z, shear.z * s.z, s.z))
  }

  /** The parts multiplied together again, with `r` as the rotation. */
  function Recomposed(p: Parts, r: Mat): Mat
    requires p.Parts?
  {
    Mul(ShearScale(p.s, p.shear), Mul(r, TranslationMat(p.t)))
  }

  lemma RecomposedParts(p: Parts, r: Mat)
    requires p.Parts? && Affine(r) && Translation(r) == ORIGIN
    ensures var n := Recomposed(p, r);
      && Affine(n) && Translation(n) == Add(ORIGIN, p.t)
      && RebuildsRows(n, p.s, p.shear, Row0(r), Row1(r), Row2(r))
  {
    hide Mul, Linear, Scale, Add, Combine;
    var k, t := ShearScale(p.s, p.shear), TranslationMat(p.t);
    var f := Mul(r, t);
    AffineMul(r, t);
    TranslationIsLinearIdentity(Row0(r), p.t);
    TranslationIsLinearIdentity(Row1(r), p.t);
    TranslationIsLinearIdentity(Row2(r), p.t);
    LinearOfOrigin(t);
    AffineMul(k, f);
    LinearOfOrigin(f);
    LinearIsCombination(Row0(k), f);
    LinearIsCombination(Row1(k), f);
    LinearIsCombination(Row2(k), f);
    ShearedRows(k, p.s, p.shear, Row0(r), Row1(r), Row2(r));
    AddOrigin(p.t);
  }

  lemma AddOrigin(a: Vec)
    ensures Add(ORIGIN, a) == a
  {
  }

  lemma TranslationIsLinearIdentity(d: Vec, t: Vec)
    ensures Linear(d, TranslationMat(t)) == d
  {
  }

  lemma ShearedRows(k: Mat, s: Vec, shear: Vec, u: Vec, v: Vec, w: Vec)
    requires k == ShearScale(s, shear)
    ensures Combine(Row0(k), u, v, w) == Scale(u, s.x)
    ensures Combine(Row1(k), u, v, w) == Scale(Add(Scale(u, shear.x), v), s.y)
    ensures Combine(Row2(k), u, v, w) == Scale(Add(Add(Scale(u, shear.y), Scale(v, shear.z)), w), s.z)
  {
    hide Scale, Add;
    AddZeroScale(Scale(u, s.x), v);
    AddZeroScale(Scale(u, s.x), w);
    ScaleAdd(Scale(u, shear.x), v, s.y, s.y);
    ScaleBy(u, shear.x, s.y, k.r1.x);
    AddZeroScale(Add(Scale(Scale(u, shear.x), s.y), Scale(v, s.y)), w);
    ScaleAdd(Add(Scale(u, shear.y), Scale(v, shear.z)), w, s.z, s.z);
    ScaleAdd(Scale(u, shear.y), Scale(v, shear.z), s.z, s.z);
    ScaleBy(u, shear.y, s.z, k.r2.x);
    ScaleBy(v, shear.z, s.z, k.r2.y);
  }

  lemma AddZeroScale(a: Vec, b: Vec)
    ensures Add(a, Scale(b, 0.0)) == a
  {
  }

  /** The same rows come from the same scales and shears of one triple only. */
  lemma RebuildUnique(n: Mat, s: Vec, shear: Vec, u0: Vec, u1: Vec, u2: Vec, v0: Vec, v1: Vec, v2: Vec)
    requires 0.0 < s.x && 0.0 < s.y && 0.0 < s.z
    requires RebuildsRows(n, s, shear, u0, u1, u2) && RebuildsRows(n, s, shear, v0, v1, v2)
    ensures u0 == v0 && u1 == v1 && u2 == v2
  {
    hide Scale, Add;
    CancelScale(u0, v0, s.x);
    CancelScale(Add(Scale(u0, shear.x), u1), Add(Scale(v0, shear.x), v1), s.y);
    CancelAdd(Scale(u0, shear.x), u1, v1);
    CancelScale(Add(Add(Scale(u0, shear.y), Scale(u1, shear.z)), u2),
                Add(Add(Scale(v0, shear.y), Scale(v1, shear.z)), v2), s.z);
    CancelAdd(Add(Scale(u0, shear.y), Scale(u1, shear.z)), u2, v2);
  }

  lemma CancelAdd(a: Vec, b: Vec, c: Vec)
    requires Add(a, b) == Add(a, c)
    ensures b == c
  {
  }

  lemma PartsOfLinearMat(u: Vec, v: Vec, w: Vec)
    ensures var m := LinearMat(u, v, w);
      Affine(m) && Translation(m) == ORIGIN && Row0(m) == u && Row1(m) == v && Row2(m) == w
  {
  }

  lemma SameMat(a: Mat, b: Mat)
    requires Affine(a) && Affine(b) && Translation(a) == Translation(b)
    requires Row0(a) == Row0(b) && Row1(a) == Row1(b) && Row2(a) == Row2(b)
    ensures a == b
  {
  }

  /** The parts multiply together to the normalized matrix with one rotation only, the
      orthonormal rows. */
  lemma RecomposedExactly(sqrt: real -> real, m: Mat, p: Parts, r: Mat)
    requires IsRoot(sqrt) && m.r3.w != 0.0 && p.Parts? && DecompositionOf(sqrt, m, p)
    requires Affine(r) && Translation(r) == ORIGIN
    ensures Recomposed(p, r) == Normalized(m) <==> r == LinearMat(p.u0, p.u1, p.u2)
  {
    hide Recomposed, Det3, Det, RebuildsRows, Orthonormal, Normalized, RotationOf, IsRoot, QuatFrom, LinearMat;
    hide Row0, Row1, Row2, Affine, Translation;
    var n, u := Normalized(m), LinearMat(p.u0, p.u1, p.u2);
    NormalizedIsAffine(m);
    RecomposedParts(p, r);
    PartsOfLinearMat(p.u0, p.u1, p.u2);
    if r == u {
      SameRebuild(Recomposed(p, r), n, p.s, p.shear, p.u0, p.u1, p.u2);
    } else if Recomposed(p, r) == n {
      RebuildUnique(n, p.s, p.shear, p.u0, p.u1, p.u2, Row0(r), Row1(r), Row2(r));
      SameMat(r, u);
      assert false;
    }
  }

  lemma OrthonormalIsProper(u: Vec, v: Vec, w: Vec)
    requires Orthonormal(u, v, w) && Det(u, v, w) == 1.0
    ensures ProperRotation(LinearMat(u, v, w))
    ensures var m := LinearMat(u, v, w); Row0(m) == u && Row1(m) == v && Row2(m) == w
  {
    hide Dot, Norm2, Det;
  }

  lemma SameRebuild(a: Mat, b: Mat, s: Vec, shear: Vec, u: Vec, v: Vec, w: Vec)
    requires Affine(a) && Affine(b) && Translation(a) == Add(ORIGIN, Translation(b))
    requires RebuildsRows(a, s, shear, u, v, w) && RebuildsRows(b, s, shear, u, v, w)
    ensures a == b
  {
    hide Scale;
  }

  /** Taken apart, a matrix that does not reflect never gives the quaternion that has
      no axis and angle. */
  lemma QuatFromScalar(sqrt: real -> real, m: Mat)
    requires IsRoot(sqrt) && ProperRotation(m)
    ensures QuatFrom(sqrt, m).w != -1.0
  {
    var q := QuatFrom(sqrt, m);
    hide ProperRotation, Norm;
    MatrixRoundTrip(sqrt, m);
    if q.w == -1.0 {
      UnitScalar(q);
      RotationOfMinusOne();
      assert m == IDENTITY;
      IdentityPivot(sqrt);
      assert false;
    }
  }

  lemma RotationOfMinusOne()
    ensures RotationOf(Quat(0.0, 0.0, 0.0, -1.0)) == IDENTITY
  {
  }

  lemma IdentityPivot(sqrt: real -> real)
    requires IsRoot(sqrt)
    ensures 0.0 < QuatFrom(sqrt, IDENTITY).w
  {
    hide IsRoot;
    assert Pivot(IDENTITY) == W;
  }

  lemma QuatFromNonzero(sqrt: real -> real, m: Mat)
    requires IsRoot(sqrt)
    ensures QuatFrom(sqrt, m) != Quat(0.0, 0.0, 0.0, 0.0)
  {
    hide Pivot, IsRoot, Outer;
    assert PartFrom(sqrt, m, Pivot(m)) >= 0.5;
  }

  /** A matrix with orthonormal rows that reflects is not that of any axis and angle
      which are read off a quaternion other than zero. */
  lemma ReflectionHasNoAxis(sin: real -> real, cos: real -> real, sqrt: real -> real, q: Quat, r: Rotation,
                            u: Vec, v: Vec, w: Vec)
    requires IsTrig(sin, cos) && DoublesAngles(sin, cos) && IsRoot(sqrt)
    requires Orthonormal(u, v, w) && Det(u, v, w) < 0.0 && q != Quat(0.0, 0.0, 0.0, 0.0)
    requires -1.0 < q.w <= 1.0 && (q.w == 1.0 ==> r == Rotation(Z_DIRECTION, 0.0))
    requires q.w < 1.0 ==>
      && r.axis == Normalize(sqrt, Vec(q.x, q.y, q.z)) && RotationMat(sin, cos, r) == HalfAngleMat(sqrt, r.axis, q.w)
    ensures RotationMat(sin, cos, r) != LinearMat(u, v, w)
  {
    if RotationMat(sin, cos, r) == LinearMat(u, v, w) {
      var a := Vec(q.x, q.y, q.z);
      assert Norm2(u) == 1.0 && (q.w < 1.0 && a == ORIGIN ==> q.w != 0.0);
      hide *;
      PartsOfLinearMat(u, v, w);
      UnitZ();
      NormalizeLength(sqrt, a);
      if q.w == 1.0 || a != ORIGIN {
        QuatOfRotates(sin, cos, r);
        RotationDetNonNegative(QuatOf(sin, cos, r));
        Det3ByRowsAndColumns(LinearMat(u, v, w));
      } else {
        ShortRow(sqrt, r.axis, q.w);
      }
      assert false;
    }
  }

  lemma NormalizeLength(sqrt: real -> real, a: Vec)
    requires IsRoot(sqrt)
    ensures Normalize(sqrt, a) == ORIGIN || Norm2(Normalize(sqrt, a)) == 1.0
    ensures a != ORIGIN ==> Norm2(Normalize(sqrt, a)) == 1.0
    ensures a == ORIGIN ==> Normalize(sqrt, a) == ORIGIN
  {
  }

  /** Without an axis the rows are shorter than one. */
  lemma ShortRow(sqrt: real -> real, n: Vec, w: real)
    requires IsRoot(sqrt) && n == ORIGIN && -1.0 < w < 1.0 && w != 0.0
    ensures Norm2(Row0(HalfAngleMat(sqrt, n, w))) < 1.0
  {
    var h := sqrt(1.0 - Square(w));
    var c := 1.0 - Product(2.0 * h, h);
    SquareDifference(w, 1.0);
    ProductSign(w - 1.0, w + 1.0);
    assert Square(h) == 1.0 - Square(w);
    assert Row0(HalfAngleMat(sqrt, n, w)) == Vec(c, 0.0, 0.0);
    assert c == 2.0 * Square(w) - 1.0;
    hide IsRoot, HalfAngleMat, Norm2, Square, Product;
    NormOfReals(c, 0.0, 0.0);
    SquareOrder(if c < 0.0 then -c else c, 1.0);
    SquareOfNegative(c);
  }

  lemma SquareOfNegative(c: real)
    ensures Square(if c < 0.0 then -c else c) == Square(c) && Square(0.0) == 0.0 && Square(1.0) == 1.0
  {
  }

  /** The decomposition with shear, to the end: the quaternion is turned into an axis
      and an angle.  With these the parts multiply together to the normalized matrix
      exactly when that matrix does not reflect. */
  method Transformation(sin: real -> real, cos: real -> real, acos: real -> real, sqrt: real -> real, m: Mat)
    returns (p: Parts, r: Turning)
    requires IsTrig(sin, cos) && DoublesAngles(sin, cos) && IsArcCosine(acos, sin, cos) && IsRoot(sqrt)
    requires m.r3.w != 0.0
    ensures p.Singular? <==> Det3(m) == 0.0
    ensures p.Parts? ==> DecompositionOf(sqrt, m, p) && IsTurnOf(sin, cos, sqrt, r, p.r)
    ensures p.Parts? ==>
      (r.Turning? && Recomposed(p, RotationMat(sin, cos, r.rotation)) == Normalized(m) <==> Det3(Normalized(m)) > 0.0)
    ensures p.Parts? && Det3(Normalized(m)) > 0.0 ==>
      && r.Turning? && Norm2(r.rotation.axis) == 1.0
      && RotationMat(sin, cos, r.rotation) == LinearMat(p.u0, p.u1, p.u2) == RotationOf(p.r)
  {
    hide *;
    p := Decompose(sqrt, m);
    r := Undefined;
    if p.Parts? {
      r := MakeRotation(sin, cos, acos, sqrt, p.r);
      PartsAgree(sqrt, m, p);
      TurnOf(sin, cos, sqrt, r, p.r);
      if r.Turning? {
        RotationMatParts(sin, cos, r.rotation);
        RecomposedExactly(sqrt, m, p, RotationMat(sin, cos, r.rotation));
      }
      if Det3(Normalized(m)) > 0.0 {
        RotationOfParts(sqrt, m, p);
      } else if r.Turning? {
        QuatFromNonzero(sqrt, LinearMat(p.u0, p.u1, p.u2));
        ReflectionHasNoAxis(sin, cos, sqrt, p.r, r.rotation, p.u0, p.u1, p.u2);
      }
    }
  }

  lemma RotationMatParts(sin: real -> real, cos: real -> real, r: Rotation)
    ensures Affine(RotationMat(sin, cos, r)) && Translation(RotationMat(sin, cos, r)) == ORIGIN
  {
  }

  lemma PartsAgree(sqrt: real -> real, m: Mat, p: Parts)
    requires IsRoot(sqrt) && m.r3.w != 0.0 && p.Parts? && DecompositionOf(sqrt, m, p)
    ensures p.r == QuatFrom(sqrt, LinearMat(p.u0, p.u1, p.u2)) && Orthonormal(p.u0, p.u1, p.u2)
    ensures Det3(Normalized(m)) > 0.0 || Det(p.u0, p.u1, p.u2) < 0.0
  {
    hide Det, Det3, Normalized, RebuildsRows, QuatFrom;
    OrthonormalDet(p.u0, p.u1, p.u2);
  }

  lemma RotationOfParts(sqrt: real -> real, m: Mat, p: Parts)
    requires IsRoot(sqrt) && m.r3.w != 0.0 && p.Parts? && DecompositionOf(sqrt, m, p) && Det3(Normalized(m)) > 0.0
    ensures Norm(p.r) == 1.0 && p.r.w != -1.0 && RotationOf(p.r) == LinearMat(p.u0, p.u1, p.u2)
  {
    hide IsRoot, Orthonormal, Det, Det3, RebuildsRows, QuatFrom, RotationOf, Norm, ProperRotation, LinearMat;
    OrthonormalDet(p.u0, p.u1, p.u2);
    UnitSquare(Det(p.u0, p.u1, p.u2));
    OrthonormalIsProper(p.u0, p.u1, p.u2);
    MatrixRoundTrip(sqrt, LinearMat(p.u0, p.u1, p.u2));
    QuatFromScalar(sqrt, LinearMat(p.u0, p.u1, p.u2));
  }

  /** The reflection of the x axis. */
  const REFLECTION := Mat(Row(-1.0, 0.0, 0.0, 0.0), Row(0.0, 1.0, 0.0, 0.0),
                          Row(0.0, 0.0, 1.0, 0.0), Row(0.0, 0.0, 0.0, 1.0))

  lemma ReflectionDet()
    ensures REFLECTION.r3.w == 1.0 && Normalized(REFLECTION) == REFLECTION && Det3(REFLECTION) == -1.0
  {
  }

  /** A reflection is taken apart, but what is returned does not make it up again. */
  method DecomposeReflection(sin: real -> real, cos: real -> real, acos: real -> real, sqrt: real -> real)
    returns (p: Parts, r: Turning)
    requires IsTrig(sin, cos) && DoublesAngles(sin, cos) && IsArcCosine(acos, sin, cos) && IsRoot(sqrt)
    ensures p.Parts? && (r.Turning? ==> Recomposed(p, RotationMat(sin, cos, r.rotation)) != REFLECTION)
  {
    hide *;
    ReflectionDet();
    p, r := Transformation(sin, cos, acos, sqrt, REFLECTION);
  }
}
