/** Inverting an affine matrix by its adjugate. */
module AffineInverse {
  import opened Reals
  import opened Vectors
  import opened Matrices

  const PRECISION_LIMIT := 1.0 / 10000000000000000000000000.0

  /** The precision test: the squared determinant is not too small. */
  predicate Invertible(m: Mat) {
    Square(Det3(m)) >= PRECISION_LIMIT
  }

  method Accumulate(pos: real, neg: real, temp: real) returns (pos': real, neg': real)
    ensures pos' + neg' == pos + neg + temp
    ensures pos <= pos' && neg' <= neg
  {
    if temp >= 0.0 {
      return pos + temp, neg;
    } else {
      return pos, neg + temp;
    }
  }

  /** Sums the positive and the negative terms of the determinant apart. */
  method Determinant(m: Mat) returns (det: real)
    ensures det == Det3(m)
  {
    var pos, neg := 0.0, 0.0;
    pos, neg := Accumulate(pos, neg, m.r0.x * m.r1.y * m.r2.z);
    pos, neg := Accumulate(pos, neg, m.r0.y * m.r1.z * m.r2.x);
    pos, neg := Accumulate(pos, neg, m.r0.z * m.r1.x * m.r2.y);
    pos, neg := Accumulate(pos, neg, -m.r0.z * m.r1.y * m.r2.x);
    pos, neg := Accumulate(pos, neg, -m.r0.y * m.r1.x * m.r2.z);
    pos, neg := Accumulate(pos, neg, -m.r0.x * m.r1.z * m.r2.y);
    det := pos + neg;
  }

  /** Inverts an affine matrix, or leaves `out` as it is when the precision test
      fails. */
  method GetAffineInverse(m: Mat, unwritten: Mat) returns (out: Mat)
    requires Affine(m)
    ensures 10000000000000000000000000.0 * Square(Det3(m)) < 1.0 ==> out == unwritten
    ensures 10000000000000000000000000.0 * Square(Det3(m)) >= 1.0 ==>
      && Affine(out)
      && Mul(m, out) == IDENTITY && Mul(out, m) == IDENTITY
    ensures Det3(m) >= 0.000000000001 || Det3(m) <= -0.000000000001 ==>
      && Affine(out)
      && Mul(m, out) == IDENTITY && Mul(out, m) == IDENTITY
    ensures -0.0000000000001 <= Det3(m) <= 0.0000000000001 ==> out == unwritten
  {
    hide Mul, Det3, ScaledAdjugate;
    FarFromZero(Det3(m));
    CloseToZero(Det3(m));
    var det := Determinant(m);

    if Square(det) < PRECISION_LIMIT {
      return unwritten;
    }

    assert det != 0.0;
    det := 1.0 / det;
    var out00 := (m.r1.y * m.r2.z - m.r1.z * m.r2.y) * det;
    var out10 := -((m.r1.x * m.r2.z - m.r1.z * m.r2.x) * det);
    var out20 := (m.r1.x * m.r2.y - m.r1.y * m.r2.x) * det;
    var out01 := -((m.r0.y * m.r2.z - m.r0.z * m.r2.y) * det);
    var out11 := (m.r0.x * m.r2.z - m.r0.z * m.r2.x) * det;
    var out21 := -((m.r0.x * m.r2.y - m.r0.y * m.r2.x) * det);
    var out02 := (m.r0.y * m.r1.z - m.r0.z * m.r1.y) * det;
    var out12 := -((m.r0.x * m.r1.z - m.r0.z * m.r1.x) * det);
    var out22 := (m.r0.x * m.r1.y - m.r0.y * m.r1.x) * det;

    var out30 := -(m.r3.x * out00 + m.r3.y * out10 + m.r3.z * out20);
    var out31 := -(m.r3.x * out01 + m.r3.y * out11 + m.r3.z * out21);
    var out32 := -(m.r3.x * out02 + m.r3.y * out12 + m.r3.z * out22);

    out := Mat(Row(out00, out01, out02, 0.0), Row(out10, out11, out12, 0.0),
               Row(out20, out21, out22, 0.0), Row(out30, out31, out32, 1.0));
    AdjugateByColumns(m, out, det);
    AdjugateInverts(m, out, det);
  }

  lemma FarFromZero(det: real)
    ensures det >= 0.000000000001 || det <= -0.000000000001 ==> Square(det) >= PRECISION_LIMIT
  {
    var limit := 0.000000000001;
    assert Square(limit) >= PRECISION_LIMIT;
    if det >= limit {
      SquareOrder(limit, det);
    } else if det <= -limit {
      SquareOrder(limit, -det);
      assert Square(-det) == Square(det);
    }
  }

  lemma CloseToZero(det: real)
    ensures -0.0000000000001 <= det <= 0.0000000000001 ==> Square(det) < PRECISION_LIMIT
  {
    var limit := 0.0000000000001;
    assert Square(limit) < PRECISION_LIMIT;
    if 0.0 <= det <= limit {
      SquareOrder(det, limit);
    } else if -limit <= det < 0.0 {
      SquareOrder(-det, limit);
      assert Square(-det) == Square(det);
    }
  }

  /** The columns of the adjugate are the cross products of the rows, and its
      rows are the cross products of the columns. */
  ghost predicate ScaledAdjugate(m: Mat, out: Mat, e: real) {
    && Affine(m) && Affine(out)
    && Col0(out) == Scale(Cross(Row1(m), Row2(m)), e)
    && Col1(out) == Scale(Cross(Row2(m), Row0(m)), e)
    && Col2(out) == Scale(Cross(Row0(m), Row1(m)), e)
    && Row0(out) == Scale(Cross(Col1(m), Col2(m)), e)
    && Row1(out) == Scale(Cross(Col2(m), Col0(m)), e)
    && Row2(out) == Scale(Cross(Col0(m), Col1(m)), e)
    && Translation(out) == Neg(Linear(Translation(m), out))
  }

  lemma AdjugateByColumns(m: Mat, out: Mat, e: real)
    requires Affine(m) && Affine(out)
    requires Row0(out) == Vec((m.r1.y * m.r2.z - m.r1.z * m.r2.y) * e,
                              -((m.r0.y * m.r2.z - m.r0.z * m.r2.y) * e),
                              (m.r0.y * m.r1.z - m.r0.z * m.r1.y) * e)
    requires Row1(out) == Vec(-((m.r1.x * m.r2.z - m.r1.z * m.r2.x) * e),
                              (m.r0.x * m.r2.z - m.r0.z * m.r2.x) * e,
                              -((m.r0.x * m.r1.z - m.r0.z * m.r1.x) * e))
    requires Row2(out) == Vec((m.r1.x * m.r2.y - m.r1.y * m.r2.x) * e,
                              -((m.r0.x * m.r2.y - m.r0.y * m.r2.x) * e),
                              (m.r0.x * m.r1.y - m.r0.y * m.r1.x) * e)
    requires Translation(out) == Vec(-(m.r3.x * out.r0.x + m.r3.y * out.r1.x + m.r3.z * out.r2.x),
                                     -(m.r3.x * out.r0.y + m.r3.y * out.r1.y + m.r3.z * out.r2.y),
                                     -(m.r3.x * out.r0.z + m.r3.y * out.r1.z + m.r3.z * out.r2.z))
    ensures ScaledAdjugate(m, out, e)
  {
    hide Cross, Scale;
    ScaledCross(m.r1.x, m.r1.y, m.r1.z, m.r2.x, m.r2.y, m.r2.z, e);
    ScaledCross(m.r2.x, m.r2.y, m.r2.z, m.r0.x, m.r0.y, m.r0.z, e);
    ScaledCross(m.r0.x, m.r0.y, m.r0.z, m.r1.x, m.r1.y, m.r1.z, e);
    ScaledCross(m.r0.y, m.r1.y, m.r2.y, m.r0.z, m.r1.z, m.r2.z, e);
    ScaledCross(m.r0.z, m.r1.z, m.r2.z, m.r0.x, m.r1.x, m.r2.x, e);
    ScaledCross(m.r0.x, m.r1.x, m.r2.x, m.r0.y, m.r1.y, m.r2.y, e);
  }

  lemma ScaledCross(ax: real, ay: real, az: real, bx: real, bY: real, bz: real, e: real)
    ensures Scale(Cross(Vec(ax, ay, az), Vec(bx, bY, bz)), e)
         == Vec((ay * bz - az * bY) * e, -((ax * bz - az * bx) * e), (ax * bY - ay * bx) * e)
  {
  }

  /** A basis times the scaled cross products of the same basis. */
  lemma ReciprocalBasis(u: Vec, v: Vec, w: Vec, e: real)
    requires Product(Det(u, v, w), e) == 1.0
    ensures var p, q, r := Scale(Cross(v, w), e), Scale(Cross(w, u), e), Scale(Cross(u, v), e);
      && Dot(u, p) == 1.0 && Dot(u, q) == 0.0 && Dot(u, r) == 0.0
      && Dot(v, p) == 0.0 && Dot(v, q) == 1.0 && Dot(v, r) == 0.0
      && Dot(w, p) == 0.0 && Dot(w, q) == 0.0 && Dot(w, r) == 1.0
  {
    hide Cross, Dot, Scale;
    DetCycles(u, v, w);
    DetCycles(v, w, u);
    DetCycles(w, u, v);
    ScaledBy(u, v, w, Cross(v, w), e);
    ScaledBy(u, v, w, Cross(w, u), e);
    ScaledBy(u, v, w, Cross(u, v), e);
  }

  lemma ScaledBy(u: Vec, v: Vec, w: Vec, c: Vec, e: real)
    ensures Dot(u, Scale(c, e)) == Product(Dot(u, c), e)
    ensures Dot(v, Scale(c, e)) == Product(Dot(v, c), e)
    ensures Dot(w, Scale(c, e)) == Product(Dot(w, c), e)
  {
  }

  lemma AdjugateInverts(m: Mat, out: Mat, e: real)
    requires ScaledAdjugate(m, out, e) && Product(Det3(m), e) == 1.0
    ensures Mul(m, out) == IDENTITY && Mul(out, m) == IDENTITY
  {
    hide Cross, Dot, Det3, Det, Scale, Mul, RowMul;
    Det3ByRowsAndColumns(m);
    ReciprocalBasis(Row0(m), Row1(m), Row2(m), e);
    ReciprocalBasis(Col0(m), Col1(m), Col2(m), e);
    DotSymmetricAll(m, out);
    AffineMul(m, out);
    AffineMul(out, m);
    var b := Translation(m);
    assert Linear(Row0(out), m) == Vec(1.0, 0.0, 0.0) && Linear(Row1(out), m) == Vec(0.0, 1.0, 0.0)
        && Linear(Row2(out), m) == Vec(0.0, 0.0, 1.0);
    LinearIsCombination(b, out);
    LinearOfCombination(b, Row0(out), Row1(out), Row2(out), m);
    CombineOfAxes(b);
    LinearNeg(Linear(b, out), m);
  }

  lemma DotSymmetricAll(m: Mat, out: Mat)
    ensures forall v ::
      && Dot(v, Col0(m)) == Dot(Col0(m), v)
      && Dot(v, Col1(m)) == Dot(Col1(m), v) && Dot(v, Col2(m)) == Dot(Col2(m), v)
  {
  }

  lemma LinearNeg(d: Vec, m: Mat)
    ensures Linear(Neg(d), m) == Neg(Linear(d, m))
  {
  }

  /** Mapping by a matrix and then by its inverse returns every point. */
  lemma InverseRoundTrip(m: Mat, inverse: Mat, p: Vec)
    requires Affine(m) && Affine(inverse) && Mul(m, inverse) == IDENTITY
    ensures Finite(p, m) && Finite(Apply(p, m), inverse) && Apply(Apply(p, m), inverse) == p
  {
    hide Mul, RowMul, Apply, Finite;
    AffineApply(p, m);
    AffineApply(Apply(p, m), inverse);
    ApplyCompose(p, m, inverse);
    ApplyIdentity(p);
  }

  lemma ApplyIdentity(p: Vec)
    ensures Finite(p, IDENTITY) && Apply(p, IDENTITY) == p
  {
  }

  function UniformScale(s: real): Mat {
    Mat(Row(s, 0.0, 0.0, 0.0), Row(0.0, s, 0.0, 0.0), Row(0.0, 0.0, s, 0.0), Row(0.0, 0.0, 0.0, 1.0))
  }

  lemma UniformScales(s: real, t: real)
    ensures Affine(UniformScale(s))
    ensures Mul(UniformScale(s), UniformScale(t)) == UniformScale(s * t)
    ensures Det3(UniformScale(s)) == s * s * s
  {
  }

  /** The precision test also turns away matrices that have an inverse: scaling
      by 1/100000 is undone by scaling by 100000. */
  lemma PrecisionRejectsInvertible()
    ensures var m, n := UniformScale(0.00001), UniformScale(100000.0);
      && Affine(m) && !Invertible(m)
      && Mul(m, n) == IDENTITY && Mul(n, m) == IDENTITY
  {
    hide Mul, Det3;
    UniformScales(0.00001, 100000.0);
    UniformScales(100000.0, 0.00001);
  }
}
