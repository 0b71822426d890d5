/** Four-by-four matrices in row-major order; row vectors multiply from the
    left. */
module Matrices {
  import opened Reals
  import opened Vectors

  datatype Row = Row(x: real, y: real, z: real, w: real)

  datatype Mat = Mat(r0: Row, r1: Row, r2: Row, r3: Row)

  const IDENTITY := Mat(Row(1.0, 0.0, 0.0, 0.0), Row(0.0, 1.0, 0.0, 0.0),
                        Row(0.0, 0.0, 1.0, 0.0), Row(0.0, 0.0, 0.0, 1.0))

  function Dot4(a: Row, b: Row): real {
    a.x * b.x + a.y * b.y + a.z * b.z + a.w * b.w
  }

  function ColX(m: Mat): Row { Row(m.r0.x, m.r1.x, m.r2.x, m.r3.x) }
  function ColY(m: Mat): Row { Row(m.r0.y, m.r1.y, m.r2.y, m.r3.y) }
  function ColZ(m: Mat): Row { Row(m.r0.z, m.r1.z, m.r2.z, m.r3.z) }
  function ColW(m: Mat): Row { Row(m.r0.w, m.r1.w, m.r2.w, m.r3.w) }

  /** The row vector `v` times `m`. */
  function RowMul(v: Row, m: Mat): Row {
    Row(Dot4(v, ColX(m)), Dot4(v, ColY(m)), Dot4(v, ColZ(m)), Dot4(v, ColW(m)))
  }

  /** `m` times the column vector `c`. */
  function ColMul(m: Mat, c: Row): Row {
    Row(Dot4(m.r0, c), Dot4(m.r1, c), Dot4(m.r2, c), Dot4(m.r3, c))
  }

  function Mul(a: Mat, b: Mat): Mat {
    Mat(RowMul(a.r0, b), RowMul(a.r1, b), RowMul(a.r2, b), RowMul(a.r3, b))
  }

  function AddRow(a: Row, b: Row): Row {
    Row(a.x + b.x, a.y + b.y, a.z + b.z, a.w + b.w)
  }

  function ScaleRow(v: Row, k: real): Row {
    Row(v.x * k, v.y * k, v.z * k, v.w * k)
  }

  lemma Dot4Linear(a: Row, b: Row, k: real, c: Row)
    ensures Dot4(AddRow(a, b), c) == Dot4(a, c) + Dot4(b, c)
    ensures Dot4(ScaleRow(a, k), c) == Dot4(a, c) * k
  {
  }

  /** A row vector times a matrix is a combination of the matrix's rows. */
  function Combination(v: Row, m: Mat): Row {
    AddRow(AddRow(ScaleRow(m.r0, v.x), ScaleRow(m.r1, v.y)), AddRow(ScaleRow(m.r2, v.z), ScaleRow(m.r3, v.w)))
  }

  lemma RowMulIsCombination(v: Row, m: Mat)
    ensures RowMul(v, m) == Combination(v, m)
  {
  }

  lemma Dot4Combination(v: Row, m: Mat, c: Row)
    ensures Dot4(Combination(v, m), c)
         == Dot4(m.r0, c) * v.x + Dot4(m.r1, c) * v.y + Dot4(m.r2, c) * v.z + Dot4(m.r3, c) * v.w
  {
    hide Dot4;
    Dot4Linear(ScaleRow(m.r0, v.x), ScaleRow(m.r1, v.y), 1.0, c);
    Dot4Linear(ScaleRow(m.r2, v.z), ScaleRow(m.r3, v.w), 1.0, c);
    Dot4Linear(AddRow(ScaleRow(m.r0, v.x), ScaleRow(m.r1, v.y)),
               AddRow(ScaleRow(m.r2, v.z), ScaleRow(m.r3, v.w)), 1.0, c);
    Dot4Linear(m.r0, m.r0, v.x, c);
    Dot4Linear(m.r1, m.r1, v.y, c);
    Dot4Linear(m.r2, m.r2, v.z, c);
    Dot4Linear(m.r3, m.r3, v.w, c);
  }

  /** A row, a matrix and a column multiply to one number in either order. */
  lemma RowColAssociative(v: Row, a: Mat, c: Row)
    ensures Dot4(RowMul(v, a), c) == Dot4(v, ColMul(a, c))
  {
    hide Dot4, Combination;
    RowMulIsCombination(v, a);
    Dot4Combination(v, a, c);
    Dot4OfSums(v, Dot4(a.r0, c), Dot4(a.r1, c), Dot4(a.r2, c), Dot4(a.r3, c));
  }

  lemma Dot4OfSums(v: Row, x: real, y: real, z: real, w: real)
    ensures Dot4(v, Row(x, y, z, w)) == x * v.x + y * v.y + z * v.z + w * v.w
  {
  }

  lemma RowMulAssociative(v: Row, a: Mat, b: Mat)
    ensures RowMul(RowMul(v, a), b) == RowMul(v, Mul(a, b))
  {
    hide Dot4;
    RowColAssociative(v, a, ColX(b));
    RowColAssociative(v, a, ColY(b));
    RowColAssociative(v, a, ColZ(b));
    RowColAssociative(v, a, ColW(b));
  }

  lemma MulAssociative(a: Mat, b: Mat, c: Mat)
    ensures Mul(Mul(a, b), c) == Mul(a, Mul(b, c))
  {
    hide RowMul;
    RowMulAssociative(a.r0, b, c);
    RowMulAssociative(a.r1, b, c);
    RowMulAssociative(a.r2, b, c);
    RowMulAssociative(a.r3, b, c);
  }

  lemma MulIdentity(a: Mat)
    ensures Mul(a, IDENTITY) == a == Mul(IDENTITY, a)
  {
  }

  function Homogeneous(v: Vec): Row {
    Row(v.x, v.y, v.z, 1.0)
  }

  function Project(v: Row): Vec
    requires v.w != 0.0
  {
    Vec(v.x / v.w, v.y / v.w, v.z / v.w)
  }

  /** Whether dividing by the fourth coordinate of `v` times `m` is defined. */
  predicate Finite(v: Vec, m: Mat) {
    RowMul(Homogeneous(v), m).w != 0.0
  }

  /** The point `v` mapped by `m`. */
  function Apply(v: Vec, m: Mat): Vec
    requires Finite(v, m)
  {
    Project(RowMul(Homogeneous(v), m))
  }

  lemma ScaleRowMul(v: Row, k: real, m: Mat)
    ensures RowMul(ScaleRow(v, k), m) == ScaleRow(RowMul(v, m), k)
  {
    hide Dot4;
    Dot4Linear(v, v, k, ColX(m));
    Dot4Linear(v, v, k, ColY(m));
    Dot4Linear(v, v, k, ColZ(m));
    Dot4Linear(v, v, k, ColW(m));
  }

  lemma ProjectScale(v: Row, k: real)
    requires k != 0.0 && v.w != 0.0
    ensures ScaleRow(v, k).w != 0.0 && Project(ScaleRow(v, k)) == Project(v)
  {
    assert v.w * k != 0.0;
  }

  lemma HomogeneousProject(v: Row)
    requires v.w != 0.0
    ensures v == ScaleRow(Homogeneous(Project(v)), v.w)
  {
  }

  /** Mapping by `a` and then by `b` is mapping by their product, whenever both
      steps are defined. */
  lemma ApplyCompose(v: Vec, a: Mat, b: Mat)
    requires Finite(v, a) && Finite(Apply(v, a), b)
    ensures Finite(v, Mul(a, b)) && Apply(Apply(v, a), b) == Apply(v, Mul(a, b))
  {
    hide RowMul, Project, ScaleRow, Homogeneous, Mul;
    var h := RowMul(Homogeneous(v), a);
    var p := Homogeneous(Apply(v, a));
    HomogeneousProject(h);
    ScaleRowMul(p, h.w, b);
    ProjectScale(RowMul(p, b), h.w);
    RowMulAssociative(Homogeneous(v), a, b);
  }

  predicate Affine(m: Mat) {
    m.r0.w == 0.0 && m.r1.w == 0.0 && m.r2.w == 0.0 && m.r3.w == 1.0
  }

  function Row0(m: Mat): Vec { Vec(m.r0.x, m.r0.y, m.r0.z) }
  function Row1(m: Mat): Vec { Vec(m.r1.x, m.r1.y, m.r1.z) }
  function Row2(m: Mat): Vec { Vec(m.r2.x, m.r2.y, m.r2.z) }
  function Translation(m: Mat): Vec { Vec(m.r3.x, m.r3.y, m.r3.z) }
  function Col0(m: Mat): Vec { Vec(m.r0.x, m.r1.x, m.r2.x) }
  function Col1(m: Mat): Vec { Vec(m.r0.y, m.r1.y, m.r2.y) }
  function Col2(m: Mat): Vec { Vec(m.r0.z, m.r1.z, m.r2.z) }

  /** The linear part of `m` applied to a displacement. */
  function Linear(d: Vec, m: Mat): Vec {
    Vec(Dot(d, Col0(m)), Dot(d, Col1(m)), Dot(d, Col2(m)))
  }

  lemma AffineApply(v: Vec, m: Mat)
    requires Affine(m)
    ensures Finite(v, m) && Apply(v, m) == Add(Linear(v, m), Translation(m))
  {
    var h := RowMul(Homogeneous(v), m);
    assert h.w == 1.0;
  }

  lemma AffineDifference(p: Vec, q: Vec, m: Mat)
    requires Affine(m)
    ensures Finite(p, m) && Finite(q, m)
    ensures Sub(Apply(p, m), Apply(q, m)) == Linear(Sub(p, q), m)
  {
    hide RowMul, Apply, Dot;
    AffineApply(p, m);
    AffineApply(q, m);
    DotAdd(p, q, Col0(m));
    DotAdd(p, q, Col1(m));
    DotAdd(p, q, Col2(m));
  }

  function Combine(x: Vec, a: Vec, b: Vec, c: Vec): Vec {
    Add(Add(Scale(a, x.x), Scale(b, x.y)), Scale(c, x.z))
  }

  lemma LinearIsCombination(d: Vec, m: Mat)
    ensures Linear(d, m) == Combine(d, Row0(m), Row1(m), Row2(m))
  {
  }

  lemma LinearOfCombination(d: Vec, a: Vec, b: Vec, c: Vec, m: Mat)
    ensures Linear(Combine(d, a, b, c), m) == Combine(d, Linear(a, m), Linear(b, m), Linear(c, m))
  {
    hide Dot, Combine;
    CombineCoordinates(d, Linear(a, m), Linear(b, m), Linear(c, m));
    DotOfCombination(d, a, b, c, Col0(m));
    DotOfCombination(d, a, b, c, Col1(m));
    DotOfCombination(d, a, b, c, Col2(m));
  }

  lemma CombineCoordinates(d: Vec, a: Vec, b: Vec, c: Vec)
    ensures Combine(d, a, b, c)
         == Vec(a.x * d.x + b.x * d.y + c.x * d.z, a.y * d.x + b.y * d.y + c.y * d.z, a.z * d.x + b.z * d.y + c.z * d.z)
  {
  }

  lemma DotOfCombination(d: Vec, a: Vec, b: Vec, c: Vec, v: Vec)
    ensures Dot(Combine(d, a, b, c), v) == Dot(a, v) * d.x + Dot(b, v) * d.y + Dot(c, v) * d.z
  {
    hide Dot;
    DotAdd(Add(Scale(a, d.x), Scale(b, d.y)), Scale(c, d.z), v);
    DotAdd(Scale(a, d.x), Scale(b, d.y), v);
    DotScale(a, v, d.x, d.x);
    DotScale(b, v, d.y, d.y);
    DotScale(c, v, d.z, d.z);
  }

  lemma CombineOfAxes(v: Vec)
    ensures Combine(v, X_DIRECTION, Y_DIRECTION, Z_DIRECTION) == v
  {
  }

  lemma LinearOfOrigin(m: Mat)
    ensures Linear(ORIGIN, m) == ORIGIN
  {
  }

  lemma LinearDifference(p: Vec, c: Vec, q: Mat)
    ensures Linear(Sub(p, c), q) == Sub(Linear(p, q), Linear(c, q))
  {
    hide Dot;
    DotAdd(p, c, Col0(q));
    DotAdd(p, c, Col1(q));
    DotAdd(p, c, Col2(q));
  }

  lemma LinearScale(u: Vec, d: real, q: Mat)
    ensures Linear(Scale(u, d), q) == Scale(Linear(u, q), d)
  {
    hide Dot;
    DotScale(u, Col0(q), d, d);
    DotScale(u, Col1(q), d, d);
    DotScale(u, Col2(q), d, d);
  }

  /** The rows of a matrix are the images of the coordinate axes. */
  lemma RowsAreImages(m: Mat)
    ensures Linear(X_DIRECTION, m) == Row0(m) && Linear(Y_DIRECTION, m) == Row1(m) && Linear(Z_DIRECTION, m) == Row2(m)
  {
  }

  lemma SameParts(a: Mat, b: Mat)
    requires Affine(a) && Affine(b) && Add(ORIGIN, Translation(a)) == Translation(b)
    requires Row0(a) == Row0(b) && Row1(a) == Row1(b) && Row2(a) == Row2(b)
    ensures a == b
  {
  }

  lemma Dot4Split(a: Row, b: Row)
    ensures Dot4(a, b) == Dot(Vec(a.x, a.y, a.z), Vec(b.x, b.y, b.z)) + a.w * b.w
  {
  }

  /** The product of two affine matrices, part by part. */
  lemma AffineMul(a: Mat, b: Mat)
    requires Affine(a) && Affine(b)
    ensures var p := Mul(a, b);
      && Affine(p)
      && Row0(p) == Linear(Row0(a), b) && Row1(p) == Linear(Row1(a), b) && Row2(p) == Linear(Row2(a), b)
      && Translation(p) == Add(Linear(Translation(a), b), Translation(b))
  {
    AffineRowMul(a.r0, b);
    AffineRowMul(a.r1, b);
    AffineRowMul(a.r2, b);
    AffineRowMul(a.r3, b);
  }

  lemma AffineRowMul(r: Row, b: Mat)
    requires Affine(b)
    ensures var p, t := RowMul(r, b), Linear(Vec(r.x, r.y, r.z), b);
      && p.w == r.w
      && Vec(p.x, p.y, p.z) == Add(t, Scale(Translation(b), r.w))
  {
    hide Dot, Dot4;
    Dot4Split(r, ColX(b));
    Dot4Split(r, ColY(b));
    Dot4Split(r, ColZ(b));
    Dot4OfSums(r, 0.0, 0.0, 0.0, 1.0);
  }

  /** The determinant of the linear part. */
  function Det3(m: Mat): real {
    m.r0.x * m.r1.y * m.r2.z - m.r0.x * m.r1.z * m.r2.y
    + m.r0.y * m.r1.z * m.r2.x - m.r0.y * m.r1.x * m.r2.z
    + m.r0.z * m.r1.x * m.r2.y - m.r0.z * m.r1.y * m.r2.x
  }

  lemma Det3ByRowsAndColumns(m: Mat)
    ensures Det3(m) == Det(Row0(m), Row1(m), Row2(m)) == Det(Col0(m), Col1(m), Col2(m))
  {
  }

  /** The determinant changes sign with each swap, and vanishes on a repeated
      argument. */
  lemma DetCycles(u: Vec, v: Vec, w: Vec)
    ensures Det(u, v, w) == Det(v, w, u) == Det(w, u, v)
    ensures Det(u, v, w) == -Det(u, w, v)
    ensures Dot(u, Cross(u, v)) == 0.0 && Dot(v, Cross(u, v)) == 0.0
  {
    hide Det;
    DetExpanded(u, v, w);
    DetExpanded(v, w, u);
    DetExpanded(w, u, v);
    DetExpanded(u, w, v);
  }

  lemma DetExpanded(u: Vec, v: Vec, w: Vec)
    ensures Det(u, v, w)
         == u.x * v.y * w.z - u.x * v.z * w.y + u.y * v.z * w.x - u.y * v.x * w.z + u.z * v.x * w.y - u.z * v.y * w.x
  {
  }

  /** The determinant of the rows `u`, `v` and `w`. */
  function Det(u: Vec, v: Vec, w: Vec): real {
    Dot(u, Cross(v, w))
  }
}
