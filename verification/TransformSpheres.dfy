/** When the bounding sphere of a Transform node is sound: what its scale, its
    scale orientation and its rotation say about the columns of its matrix. */
module TransformSpheres {
  import opened Reals
  import opened Vectors
  import opened Matrices
  import opened BallTransforms
  import opened TransformBuilder

  function Transposed(m: Mat): Mat {
    LinearMat(Col0(m), Col1(m), Col2(m))
  }

  lemma TransposedParts(m: Mat)
    ensures var t := Transposed(m);
      && Affine(t) && Translation(t) == ORIGIN
      && Row0(t) == Col0(m) && Row1(t) == Col1(m) && Row2(t) == Col2(m)
      && Col0(t) == Row0(m) && Col1(t) == Row1(m) && Col2(t) == Row2(m)
  {
  }

  lemma TransposedConformal(m: Mat, n: real)
    requires Conformal(m, n)
    ensures Conformal(Transposed(m), n)
  {
    hide Norm2, Dot;
    TransposedParts(m);
    ConformalColumns(m, n);
  }

  /** A linear map keeps lengths and angles exactly when its transpose is its
      inverse. */
  lemma OrthogonalByProduct(m: Mat)
    requires Affine(m) && Translation(m) == ORIGIN
    ensures Conformal(m, 1.0) <==> Mul(m, Transposed(m)) == IDENTITY
  {
    hide *;
    var t := Transposed(m);
    TransposedParts(m);
    AffineMul(m, t);
    LinearOfOrigin(t);
    AddOrigin();
    PartsOfIdentity(Mul(m, t));
    LinearByRows(Row0(m), m);
    LinearByRows(Row1(m), m);
    LinearByRows(Row2(m), m);
    ConformalByRows(m);
  }

  lemma LinearByRows(v: Vec, m: Mat)
    ensures Linear(v, Transposed(m)) == Vec(Dot(v, Row0(m)), Dot(v, Row1(m)), Dot(v, Row2(m)))
  {
    hide Dot;
  }

  lemma ConformalByRows(m: Mat)
    ensures var x, y, z := Row0(m), Row1(m), Row2(m);
      Conformal(m, 1.0) <==>
        && Vec(Dot(x, x), Dot(x, y), Dot(x, z)) == X_DIRECTION
        && Vec(Dot(y, x), Dot(y, y), Dot(y, z)) == Y_DIRECTION
        && Vec(Dot(z, x), Dot(z, y), Dot(z, z)) == Z_DIRECTION
  {
    hide Dot, Row0, Row1, Row2;
    var x, y, z := Row0(m), Row1(m), Row2(m);
    DotSymmetric(x, y);
    DotSymmetric(x, z);
    DotSymmetric(y, z);
  }

  lemma AxisMatTransposed(n: Vec, s: real, c: real)
    ensures Transposed(AxisMat(n, s, c)) == AxisMat(n, -s, c)
    ensures Affine(AxisMat(n, s, c)) && Translation(AxisMat(n, s, c)) == ORIGIN
  {
  }

  /** The matrix of an axis and an angle keeps lengths exactly when turning by the
      opposite angle undoes it. */
  lemma AxisMatConformal(n: Vec, s: real, c: real)
    requires Square(s) + Square(c) == 1.0
    ensures Conformal(AxisMat(n, s, c), 1.0) <==> Cancels(n, c)
  {
    hide *;
    AxisMatTransposed(n, s, c);
    OrthogonalByProduct(AxisMat(n, s, c));
    CancelsExactly(n, s, c);
  }

  lemma LinearMul(v: Vec, a: Mat, b: Mat)
    requires Affine(a) && Affine(b)
    ensures Linear(v, Mul(a, b)) == Linear(Linear(v, a), b)
  {
    hide *;
    AffineMul(a, b);
    LinearIsCombination(v, a);
    LinearIsCombination(v, Mul(a, b));
    LinearOfCombination(v, Row0(a), Row1(a), Row2(a), b);
  }

  /** The square of the largest of the three factors. */
  function Largest(s: Vec): (m: real)
    ensures Square(s.x) <= m && Square(s.y) <= m && Square(s.z) <= m
    ensures m == Square(s.x) || m == Square(s.y) || m == Square(s.z)
  {
    var m := if Square(s.x) < Square(s.y) then Square(s.y) else Square(s.x);
    if m < Square(s.z) then Square(s.z) else m
  }

  /** Only the largest factors stretch `w`. */
  predicate AlongLargest(w: Vec, s: Vec) {
    && (Square(s.x) == Largest(s) || w.x == 0.0)
    && (Square(s.y) == Largest(s) || w.y == 0.0)
    && (Square(s.z) == Largest(s) || w.z == 0.0)
  }

  lemma Remainder(m: real, t: real, w: real)
    requires t <= m
    ensures Product(t, Square(w)) <= Product(m, Square(w))
    ensures Product(t, Square(w)) == Product(m, Square(w)) <==> t == m || w == 0.0
  {
    ProductSign(m - t, Square(w));
    assert Product(m - t, Square(w)) == Product(m, Square(w)) - Product(t, Square(w));
  }

  lemma StretchedNorm(w: Vec, s: Vec, m: real)
    ensures Norm2(Stretch(w, s))
         == Product(Square(s.x), Square(w.x)) + Product(Square(s.y), Square(w.y)) + Product(Square(s.z), Square(w.z))
    ensures Product(m, Norm2(w)) == Product(m, Square(w.x)) + Product(m, Square(w.y)) + Product(m, Square(w.z))
  {
  }

  /** No vector is stretched by more than the largest factor, and exactly those
      along it are stretched by as much. */
  lemma StretchAtMost(w: Vec, s: Vec)
    ensures Norm2(Stretch(w, s)) <= Product(Largest(s), Norm2(w))
    ensures Norm2(Stretch(w, s)) == Product(Largest(s), Norm2(w)) <==> AlongLargest(w, s)
  {
    hide Norm2, Square, Product, Stretch, Largest;
    var m := Largest(s);
    StretchedNorm(w, s, m);
    Remainder(m, Square(s.x), w.x);
    Remainder(m, Square(s.y), w.y);
    Remainder(m, Square(s.z), w.z);
  }

  /** The linear part of `m` is `b`, then the scale `s`, then `q`. */
  ghost predicate Factors(m: Mat, b: Mat, s: Vec, q: Mat) {
    forall v :: Linear(v, m) == Linear(Stretch(Linear(v, b), s), q)
  }

  /** The largest factor of the scale stays on an axis: a column of `q` has entries
      only where the scale is largest. */
  predicate LargestOnAxis(s: Vec, q: Mat) {
    AlongLargest(Col0(q), s) || AlongLargest(Col1(q), s) || AlongLargest(Col2(q), s)
  }

  lemma FactoredStretch(v: Vec, m: Mat, b: Mat, s: Vec, q: Mat)
    requires Factors(m, b, s, q) && Conformal(q, 1.0)
    ensures Norm2(Linear(v, m)) == Norm2(Stretch(Linear(v, b), s))
  {
    hide Norm2, Linear, Stretch, Conformal;
    ConformalStretch(Stretch(Linear(v, b), s), q, 1.0);
  }

  lemma StretchedDot(u: Vec, s: Vec, w: Vec)
    ensures Dot(Stretch(u, s), w) == Dot(u, Stretch(w, s))
  {
  }

  /** A column of the product is as long as the stretched column of `q`. */
  lemma FactoredColumns(m: Mat, b: Mat, s: Vec, q: Mat)
    requires Factors(m, b, s, q) && Conformal(b, 1.0)
    ensures Norm2(Col0(m)) == Norm2(Stretch(Col0(q), s))
    ensures Norm2(Col1(m)) == Norm2(Stretch(Col1(q), s))
    ensures Norm2(Col2(m)) == Norm2(Stretch(Col2(q), s))
  {
    hide *;
    FactoredRow(X_DIRECTION, Row0(b), m, b, s, q) by { RowsAreImages(b); }
    FactoredRow(Y_DIRECTION, Row1(b), m, b, s, q) by { RowsAreImages(b); }
    FactoredRow(Z_DIRECTION, Row2(b), m, b, s, q) by { RowsAreImages(b); }
    RowsAreImages(m);
    ColumnsOfRows(m);
    FactoredColumn(Col0(m), b, Stretch(Col0(q), s));
    FactoredColumn(Col1(m), b, Stretch(Col1(q), s));
    FactoredColumn(Col2(m), b, Stretch(Col2(q), s));
  }

  lemma FactoredRow(e: Vec, r: Vec, m: Mat, b: Mat, s: Vec, q: Mat)
    requires Factors(m, b, s, q) && Linear(e, b) == r
    ensures Linear(e, m) == Vec(Dot(r, Stretch(Col0(q), s)), Dot(r, Stretch(Col1(q), s)), Dot(r, Stretch(Col2(q), s)))
  {
    hide Dot, Stretch, Col0, Col1, Col2;
    StretchedDot(r, s, Col0(q));
    StretchedDot(r, s, Col1(q));
    StretchedDot(r, s, Col2(q));
  }

  lemma ColumnsOfRows(m: Mat)
    ensures Col0(m) == Vec(Row0(m).x, Row1(m).x, Row2(m).x)
    ensures Col1(m) == Vec(Row0(m).y, Row1(m).y, Row2(m).y)
    ensures Col2(m) == Vec(Row0(m).z, Row1(m).z, Row2(m).z)
  {
  }

  lemma FactoredColumn(c: Vec, b: Mat, w: Vec)
    requires Conformal(b, 1.0)
    requires c == Vec(Dot(Row0(b), w), Dot(Row1(b), w), Dot(Row2(b), w))
    ensures Norm2(c) == Norm2(w)
  {
    hide Norm2, Dot, Transposed, Conformal, Row0, Row1, Row2, Col0, Col1, Col2;
    TransposedParts(b);
    TransposedConformal(b, 1.0);
    DotSymmetric(Row0(b), w);
    DotSymmetric(Row1(b), w);
    DotSymmetric(Row2(b), w);
    ConformalStretch(w, Transposed(b), 1.0);
  }

  lemma LongestIsLongest(m: Mat)
    ensures var n := Norm2(LongestFirst(m).0);
      && Norm2(Col0(m)) <= n && Norm2(Col1(m)) <= n && Norm2(Col2(m)) <= n
      && (n == Norm2(Col0(m)) || n == Norm2(Col1(m)) || n == Norm2(Col2(m)))
  {
    hide Norm2;
  }

  /** The columns are tight exactly when the longest of them is as long as the
      largest factor. */
  lemma TightByLargest(m: Mat, b: Mat, s: Vec, q: Mat)
    requires Factors(m, b, s, q) && Conformal(b, 1.0) && Conformal(q, 1.0)
    ensures Tight(m) <==> Largest(s) <= Norm2(LongestFirst(m).0)
  {
    hide Norm2, Dot, Linear, Stretch, Conformal, Factors, Largest, Dots, TightColumns, LongestFirst;
    var n := Norm2(LongestFirst(m).0);
    if Tight(m) {
      AxisStretch(X_DIRECTION, m, b, s, q);
      AxisStretch(Y_DIRECTION, m, b, s, q);
      AxisStretch(Z_DIRECTION, m, b, s, q);
      AxisFactor(X_DIRECTION, s, n);
      AxisFactor(Y_DIRECTION, s, n);
      AxisFactor(Z_DIRECTION, s, n);
    } else if Largest(s) <= n {
      LinearByLongest(ORIGIN, m);
      var (x, y, z) := LongestFirst(m);
      var v := LooseStretch(x, y, z);
      LinearByLongest(v, m);
      FactoredStretch(v, m, b, s, q);
      StretchAtMost(Linear(v, b), s);
      ConformalStretch(v, b, 1.0);
      MulMonotone(Largest(s), n, Norm2(v), Norm2(v));
    }
  }

  lemma NothingOrAll(a: real, x: real)
    ensures x == 0.0 ==> Product(a, Square(x)) == 0.0
    ensures x == 1.0 ==> Product(a, Square(x)) == a
  {
  }

  lemma AxisFactor(e: Vec, s: Vec, n: real)
    requires Norm2(Stretch(e, s)) <= Product(n, Norm2(e))
    ensures e == X_DIRECTION ==> Square(s.x) <= n
    ensures e == Y_DIRECTION ==> Square(s.y) <= n
    ensures e == Z_DIRECTION ==> Square(s.z) <= n
  {
    hide Norm2, Square, Product, Stretch;
    StretchedNorm(e, s, n);
    NothingOrAll(Square(s.x), e.x);
    NothingOrAll(Square(s.y), e.y);
    NothingOrAll(Square(s.z), e.z);
    NothingOrAll(n, e.x);
    NothingOrAll(n, e.y);
    NothingOrAll(n, e.z);
  }

  /** The vector that `b` turns into `e` shows what the scale does to `e`. */
  lemma AxisStretch(e: Vec, m: Mat, b: Mat, s: Vec, q: Mat)
    requires Factors(m, b, s, q) && Conformal(b, 1.0) && Conformal(q, 1.0) && Tight(m)
    ensures Norm2(Stretch(e, s)) <= Product(Norm2(LongestFirst(m).0), Norm2(e))
  {
    hide Norm2, Dot, Linear, Stretch, Conformal, Factors, Dots, TightColumns, LongestFirst;
    var v := Linear(e, Transposed(b));
    TurnedBackAgain(e, b);
    TransposedConformal(b, 1.0);
    ConformalStretch(e, Transposed(b), 1.0);
    FactoredStretch(v, m, b, s, q);
    var (x, y, z) := LongestFirst(m);
    LinearByLongest(v, m);
    TightStretch(v, x, y, z);
  }

  lemma TurnedBackAgain(e: Vec, b: Mat)
    requires Conformal(b, 1.0)
    ensures Linear(Linear(e, Transposed(b)), b) == e
  {
    hide Norm2, Dot, Conformal, Linear, Transposed, Mul;
    var t := Transposed(b);
    var a := Transposed(t);
    TransposedParts(b);
    TransposedParts(t);
    TransposedConformal(b, 1.0);
    OrthogonalByProduct(t);
    LinearMul(e, t, a);
    SameRows(e, IDENTITY);
    SameLinear(Linear(e, t), a, b);
  }

  lemma SameRows(e: Vec, m: Mat)
    requires m == IDENTITY
    ensures Linear(e, m) == e
  {
  }

  lemma SameLinear(v: Vec, a: Mat, b: Mat)
    requires Col0(a) == Col0(b) && Col1(a) == Col1(b) && Col2(a) == Col2(b)
    ensures Linear(v, a) == Linear(v, b)
  {
  }

  /** A scale between two turns keeps its transformed spheres sound exactly when
      its largest factor stays on an axis. */
  lemma TightExactly(m: Mat, b: Mat, s: Vec, q: Mat)
    requires Factors(m, b, s, q) && Conformal(b, 1.0) && Conformal(q, 1.0)
    ensures Tight(m) <==> LargestOnAxis(s, q)
  {
    hide *;
    TightByLargest(m, b, s, q);
    LongestIsLongest(m);
    FactoredColumns(m, b, s, q);
    ConformalColumns(q, 1.0);
    StretchAtMost(Col0(q), s);
    StretchAtMost(Col1(q), s);
    StretchAtMost(Col2(q), s);
    TimesOne(Largest(s));
    OnAxis(s, q);
  }

  lemma OnAxis(s: Vec, q: Mat)
    ensures LargestOnAxis(s, q)
       <==> AlongLargest(Col0(q), s) || AlongLargest(Col1(q), s) || AlongLargest(Col2(q), s)
  {
  }

  lemma TimesOne(x: real)
    ensures Product(x, 1.0) == x
  {
  }

  lemma TranslationLinear(v: Vec, t: Vec)
    ensures Affine(TranslationMat(t)) && Linear(v, TranslationMat(t)) == v
  {
  }

  lemma ScaleLinear(v: Vec, s: Vec)
    ensures Affine(ScaleMat(s)) && Linear(v, ScaleMat(s)) == Stretch(v, s)
  {
  }

  lemma MulAffine(a: Mat, b: Mat)
    requires Affine(a) && Affine(b)
    ensures Affine(Mul(a, b))
  {
    hide *;
    AffineMul(a, b);
  }

  /** The turn that follows the scale in a Transform node. */
  function TurnAfterScale(sin: real -> real, cos: real -> real, r: Rotation, sr: Rotation): Mat {
    Mul(RotationMat(sin, cos, sr), RotationMat(sin, cos, r))
  }

  lemma RotationAffine(sin: real -> real, cos: real -> real, r: Rotation)
    ensures Affine(RotationMat(sin, cos, r))
  {
  }

  lemma TransformationFactors(sin: real -> real, cos: real -> real, t: Vec, r: Rotation, s: Vec, sr: Rotation,
                              c: Vec)
    ensures var m := FullTransformation(sin, cos, t, r, s, sr, c);
      Affine(m) && Factors(m, RotationMat(sin, cos, sr.Inverse()), s, TurnAfterScale(sin, cos, r, sr))
  {
    hide Mul, RotationMat, ScaleMat, TranslationMat, Affine, Linear, Neg, Stretch;
    var back, turn, right := RotationMat(sin, cos, sr.Inverse()), RotationMat(sin, cos, sr), RotationMat(sin, cos, r);
    RotationAffine(sin, cos, sr.Inverse());
    RotationAffine(sin, cos, sr);
    RotationAffine(sin, cos, r);
    TranslationLinear(ORIGIN, Neg(c));
    TranslationLinear(ORIGIN, c);
    TranslationLinear(ORIGIN, t);
    ScaleLinear(ORIGIN, s);
    var m2 := Mul(TranslationMat(c), TranslationMat(t));
    MulAffine(TranslationMat(c), TranslationMat(t));
    var m3 := Mul(right, m2);
    MulAffine(right, m2);
    var m4 := Mul(turn, m3);
    MulAffine(turn, m3);
    var m5 := Mul(ScaleMat(s), m4);
    MulAffine(ScaleMat(s), m4);
    var m6 := Mul(back, m5);
    MulAffine(back, m5);
    MulAffine(TranslationMat(Neg(c)), m6);
    forall v
      ensures Linear(v, Mul(TranslationMat(Neg(c)), m6)) == Linear(Stretch(Linear(v, back), s), Mul(turn, right))
    {
      var w := Linear(v, back);
      TranslationLinear(v, Neg(c));
      LinearMul(v, TranslationMat(Neg(c)), m6);
      LinearMul(v, back, m5);
      ScaleLinear(w, s);
      LinearMul(w, ScaleMat(s), m4);
      var u := Stretch(w, s);
      LinearMul(u, turn, m3);
      LinearMul(u, turn, right);
      var x := Linear(Linear(u, turn), right);
      LinearMul(Linear(u, turn), right, m2);
      LinearMul(x, TranslationMat(c), TranslationMat(t));
      TranslationLinear(x, c);
      TranslationLinear(x, t);
    }
  }

  lemma RotationConformal(sin: real -> real, cos: real -> real, r: Rotation)
    requires IsTrig(sin, cos) && Cancels(r.axis, cos(r.angle))
    ensures Conformal(RotationMat(sin, cos, r), 1.0) && Conformal(RotationMat(sin, cos, r.Inverse()), 1.0)
  {
    hide AxisMat, Cancels, Conformal, Square, IsTrig;
    InverseTurn(sin, cos, r);
    assert Square(-sin(r.angle)) == Square(sin(r.angle)) by { SquareOfNegated(sin(r.angle)); }
    AxisMatConformal(r.axis, sin(r.angle), cos(r.angle));
    AxisMatConformal(r.axis, -sin(r.angle), cos(r.angle));
  }

  lemma SquareOfNegated(x: real)
    ensures Square(-x) == Square(x)
  {
  }

  /** A map that multiplies every length by the same factor keeps right angles. */
  lemma ConformalByStretch(m: Mat, n: real)
    requires forall v :: Norm2(Linear(v, m)) == Product(n, Norm2(v))
    ensures Conformal(m, n)
  {
    hide Norm2, Dot, Linear;
    RowsAreImages(m);
    AxisNorms();
    TimesOne(n);
    RightAngle(X_DIRECTION, Y_DIRECTION, m, n);
    RightAngle(X_DIRECTION, Z_DIRECTION, m, n);
    RightAngle(Y_DIRECTION, Z_DIRECTION, m, n);
  }

  lemma AxisNorms()
    ensures Norm2(X_DIRECTION) == 1.0 && Norm2(Y_DIRECTION) == 1.0 && Norm2(Z_DIRECTION) == 1.0
    ensures Dot(X_DIRECTION, Y_DIRECTION) == 0.0 && Dot(X_DIRECTION, Z_DIRECTION) == 0.0
         && Dot(Y_DIRECTION, Z_DIRECTION) == 0.0
  {
    hide Norm2, Dot;
    DotAxes(X_DIRECTION);
    DotAxes(Y_DIRECTION);
    DotAxes(Z_DIRECTION);
  }

  lemma RightAngle(u: Vec, v: Vec, m: Mat, n: real)
    requires forall v :: Norm2(Linear(v, m)) == Product(n, Norm2(v))
    requires Dot(u, v) == 0.0
    ensures Dot(Linear(u, m), Linear(v, m)) == 0.0
  {
    hide Norm2, Dot, Linear, Add, Sub;
    LinearAdd(u, v, m);
    SumExpansions(u, v, 0.0, 0.0);
    SumExpansions(Linear(u, m), Linear(v, m), 0.0, 0.0);
    ProductLinear(n, Norm2(u), Norm2(v), 1.0);
    assert Norm2(Linear(Add(u, v), m)) == Product(n, Norm2(Add(u, v)));
  }

  lemma LinearAdd(u: Vec, v: Vec, m: Mat)
    ensures Linear(Add(u, v), m) == Add(Linear(u, m), Linear(v, m))
  {
    hide Dot;
    DotAdd(u, v, Col0(m));
    DotAdd(u, v, Col1(m));
    DotAdd(u, v, Col2(m));
  }

  lemma ConformalMul(a: Mat, b: Mat)
    requires Affine(a) && Affine(b) && Conformal(a, 1.0) && Conformal(b, 1.0)
    ensures Conformal(Mul(a, b), 1.0)
  {
    hide Norm2, Dot, Linear, Mul, Conformal, Affine;
    forall v
      ensures Norm2(Linear(v, Mul(a, b))) == Product(1.0, Norm2(v))
    {
      LinearMul(v, a, b);
      ConformalStretch(v, a, 1.0);
      ConformalStretch(Linear(v, a), b, 1.0);
    }
    ConformalByStretch(Mul(a, b), 1.0);
  }

  predicate Uniform(s: Vec) {
    Square(s.x) == Square(s.y) == Square(s.z)
  }

  lemma UniformFactors(m: Mat, b: Mat, s: Vec, q: Mat)
    requires Factors(m, b, s, q) && Conformal(b, 1.0) && Conformal(q, 1.0) && Uniform(s)
    ensures Conformal(m, Square(s.x))
  {
    hide Norm2, Dot, Linear, Conformal, Stretch, Factors;
    forall v
      ensures Norm2(Linear(v, m)) == Product(Square(s.x), Norm2(v))
    {
      FactoredStretch(v, m, b, s, q);
      StretchAtMost(Linear(v, b), s);
      ConformalStretch(v, b, 1.0);
    }
    ConformalByStretch(m, Square(s.x));
  }

  /** For rotations that keep lengths, the matrix of a Transform node maps bounding
      spheres soundly exactly when the largest factor of its scale stays on an axis,
      and multiplies all lengths alike when the scale is uniform. */
  lemma TransformationSound(sin: real -> real, cos: real -> real, t: Vec, r: Rotation, s: Vec, sr: Rotation, c: Vec)
    requires IsTrig(sin, cos) && Cancels(r.axis, cos(r.angle)) && Cancels(sr.axis, cos(sr.angle))
    ensures var m := FullTransformation(sin, cos, t, r, s, sr, c);
      && Affine(m)
      && (Tight(m) <==> LargestOnAxis(s, TurnAfterScale(sin, cos, r, sr)))
      && (Uniform(s) ==> Conformal(m, Square(s.x)) && Tight(m))
  {
    hide *;
    var m := FullTransformation(sin, cos, t, r, s, sr, c);
    var b, q := RotationMat(sin, cos, sr.Inverse()), TurnAfterScale(sin, cos, r, sr);
    TransformationFactors(sin, cos, t, r, s, sr, c);
    RotationConformal(sin, cos, r);
    RotationConformal(sin, cos, sr);
    RotationAffine(sin, cos, r);
    RotationAffine(sin, cos, sr);
    TurnConformal(sin, cos, r, sr);
    TightExactly(m, b, s, q);
    if Uniform(s) {
      UniformFactors(m, b, s, q);
      ConformalColumns(m, Square(s.x));
      OrthogonalColumnsAreTight(m);
    }
  }

  lemma TurnConformal(sin: real -> real, cos: real -> real, r: Rotation, sr: Rotation)
    requires IsTrig(sin, cos) && Cancels(r.axis, cos(r.angle)) && Cancels(sr.axis, cos(sr.angle))
    ensures Conformal(TurnAfterScale(sin, cos, r, sr), 1.0)
  {
    hide Mul, Conformal, RotationMat, Affine, IsTrig, Cancels;
    RotationConformal(sin, cos, r);
    RotationConformal(sin, cos, sr);
    RotationAffine(sin, cos, r);
    RotationAffine(sin, cos, sr);
    ConformalMul(RotationMat(sin, cos, sr), RotationMat(sin, cos, r));
  }
}
