/** Bounding spheres under affine maps: what the column lengths of a matrix say
    about the lengths of mapped vectors. */
module BallTransforms {
  import opened Reals
  import opened Vectors
  import opened Matrices
  import opened Balls

  /** The columns of the linear part, the longest first, chosen as
      `do_transform` chooses its scale. */
  function LongestFirst(m: Mat): (Vec, Vec, Vec) {
    var x, y, z := Col0(m), Col1(m), Col2(m);
    if Norm2(y) > Norm2(x) then
      if Norm2(z) > Norm2(y) then (z, x, y) else (y, x, z)
    else
      if Norm2(z) > Norm2(x) then (z, x, y) else (x, y, z)
  }

  /** The longest column is orthogonal to the two others, and those are not too
      close in direction for their lengths. */
  predicate TightColumns(a: Vec, b: Vec, c: Vec) {
    && Dot(a, b) == 0.0 && Dot(a, c) == 0.0
    && Square(Dot(b, c)) <= Product(Norm2(a) - Norm2(b), Norm2(a) - Norm2(c))
  }

  predicate Tight(m: Mat) {
    var (a, b, c) := LongestFirst(m);
    TightColumns(a, b, c)
  }

  predicate OrthogonalColumns(m: Mat) {
    Dot(Col0(m), Col1(m)) == 0.0 && Dot(Col0(m), Col2(m)) == 0.0 && Dot(Col1(m), Col2(m)) == 0.0
  }

  lemma OrthogonalColumnsAreTight(m: Mat)
    requires OrthogonalColumns(m)
    ensures Tight(m)
  {
    hide Norm2, Dot;
    var (a, b, c) := LongestFirst(m);
    DotSymmetric(Col0(m), Col1(m));
    DotSymmetric(Col0(m), Col2(m));
    DotSymmetric(Col1(m), Col2(m));
    ProductSign(Norm2(a) - Norm2(b), Norm2(a) - Norm2(c));
  }

  /** The vector (a.v, b.v, c.v). */
  function Dots(v: Vec, a: Vec, b: Vec, c: Vec): Vec {
    Vec(Dot(v, a), Dot(v, b), Dot(v, c))
  }

  lemma Adjoint(v: Vec, x: Vec, a: Vec, b: Vec, c: Vec)
    ensures Dot(v, Combine(x, a, b, c)) == Dot(x, Dots(v, a, b, c))
  {
    hide Norm2, Dot;
    DotAdd(Add(Scale(a, x.x), Scale(b, x.y)), Scale(c, x.z), v);
    DotAdd(Scale(a, x.x), Scale(b, x.y), v);
    DotScale(v, a, 1.0, x.x);
    DotScale(v, b, 1.0, x.y);
    DotScale(v, c, 1.0, x.z);
    DotOfReals(x, Dot(v, a), Dot(v, b), Dot(v, c));
  }

  lemma ScaledDot(a: Vec, b: Vec, k: real, m: real)
    ensures Dot(Scale(a, k), Scale(b, m)) == Product(Dot(a, b), Product(k, m))
    ensures Norm2(Scale(a, k)) == Product(Norm2(a), Square(k))
  {
  }

  /** The squared length of a combination, as a quadratic form of its
      coefficients. */
  lemma CombineNorm(x: Vec, a: Vec, b: Vec, c: Vec)
    ensures Norm2(Combine(x, a, b, c))
         == Product(Norm2(a), Square(x.x)) + Product(Norm2(b), Square(x.y)) + Product(Norm2(c), Square(x.z))
            + 2.0 * (Product(Dot(a, b), Product(x.x, x.y)) + Product(Dot(a, c), Product(x.x, x.z))
                     + Product(Dot(b, c), Product(x.y, x.z)))
  {
    hide Norm2, Dot, Square, Product;
    var p, q, r := Scale(a, x.x), Scale(b, x.y), Scale(c, x.z);
    SumExpansions(Add(p, q), r, 0.0, 0.0);
    SumExpansions(p, q, 0.0, 0.0);
    DotAdd(p, q, r);
    ScaledDot(a, a, x.x, x.x);
    ScaledDot(b, b, x.y, x.y);
    ScaledDot(c, c, x.z, x.z);
    ScaledDot(a, b, x.x, x.y);
    ScaledDot(a, c, x.x, x.z);
    ScaledDot(b, c, x.y, x.z);
  }

  function Form(s: real, t: real, q: real, y: real, z: real): real {
    Product(s, Square(y)) + Product(t, Square(z)) - 2.0 * Product(q, Product(y, z))
  }

  lemma FormTimesDiagonal(s: real, t: real, q: real, y: real, z: real)
    ensures Product(s, Form(s, t, q, y, z))
         == Square(s * y - q * z) + Product(Product(s, t) - Square(q), Square(z))
  {
  }

  /** A quadratic form with non-negative diagonal and determinant is not
      negative. */
  lemma FormNonNegative(s: real, t: real, q: real, y: real, z: real)
    requires 0.0 <= s && 0.0 <= t && Square(q) <= Product(s, t)
    ensures 0.0 <= Form(s, t, q, y, z)
  {
    if s == 0.0 {
      assert Square(q) == 0.0;
      ProductSign(t, Square(z));
      assert Form(s, t, q, y, z) == Product(t, Square(z));
    } else {
      hide Form, Product, Square;
      FormTimesDiagonal(s, t, q, y, z);
      ProductSign(Product(s, t) - Square(q), Square(z));
      ProductSign(s, Form(s, t, q, y, z));
    }
  }

  /** With a negative determinant the form takes a negative value. */
  lemma FormNegative(s: real, t: real, q: real) returns (y: real, z: real)
    requires 0.0 <= s && 0.0 <= t && Product(s, t) < Square(q)
    ensures Form(s, t, q, y, z) < 0.0
  {
    ProductSign(s, t);
    if 0.0 < t {
      y, z := t, q;
      assert -Form(s, t, q, y, z) == Product(t, Square(q) - Product(s, t));
      ProductSign(t, Square(q) - Product(s, t));
    } else {
      y, z := q, s + 1.0;
      assert -Form(s, t, q, y, z) == Product(Square(q), s + 2.0);
      ProductSign(Square(q), s + 2.0);
    }
  }

  /** When the columns are tight, no vector is stretched by more than the
      longest column. */
  lemma TightStretch(v: Vec, a: Vec, b: Vec, c: Vec)
    requires TightColumns(a, b, c) && Norm2(b) <= Norm2(a) && Norm2(c) <= Norm2(a)
    ensures Norm2(Dots(v, a, b, c)) <= Product(Norm2(a), Norm2(v))
  {
    hide Norm2, Dot, Dots;
    var x := Dots(v, a, b, c);
    var y := Combine(x, a, b, c);
    CombineNorm(x, a, b, c);
    FormNonNegative(Norm2(a) - Norm2(b), Norm2(a) - Norm2(c), Dot(b, c), x.y, x.z);
    FormGap(x, Norm2(a), Norm2(b), Norm2(c), Dot(b, c));
    assert Norm2(y) <= Product(Norm2(a), Norm2(x));
    Adjoint(v, x, a, b, c);
    CauchySchwarz(v, y);
    SelfBound(Norm2(x), Norm2(v), Norm2(y), Norm2(a));
  }

  lemma FormGap(x: Vec, l: real, b2: real, c2: real, q: real)
    ensures Product(l, Norm2(x))
         == Form(l - b2, l - c2, q, x.y, x.z)
            + Product(l, Square(x.x)) + Product(b2, Square(x.y)) + Product(c2, Square(x.z))
            + 2.0 * Product(q, Product(x.y, x.z))
  {
  }

  lemma SelfBound(x2: real, v2: real, y2: real, l: real)
    requires 0.0 <= x2 && 0.0 <= v2 && 0.0 <= l
    requires Square(x2) <= Product(v2, y2) && y2 <= Product(l, x2)
    ensures x2 <= Product(l, v2)
  {
    ProductSign(l, v2);
    ProductSign(v2, Product(l, x2) - y2);
    ProductSign(x2, x2 - Product(l, v2));
    assert Product(v2, Product(l, x2) - y2) == Product(x2, Product(l, v2)) - Product(v2, y2);
    assert Product(x2, x2 - Product(l, v2)) == Square(x2) - Product(x2, Product(l, v2));
  }

  /** When the columns are not tight, some vector is stretched by more. */
  lemma LooseStretch(a: Vec, b: Vec, c: Vec) returns (v: Vec)
    requires !TightColumns(a, b, c) && Norm2(b) <= Norm2(a) && Norm2(c) <= Norm2(a)
    ensures 0.0 < Norm2(v) && Product(Norm2(a), Norm2(v)) < Norm2(Dots(v, a, b, c))
  {
    hide Norm2, Dot, Dots;
    if Dot(a, b) != 0.0 || Dot(a, c) != 0.0 {
      v := a;
      StretchOfColumn(a, b, c);
    } else {
      var l := Norm2(a);
      var y, z := FormNegative(l - Norm2(b), l - Norm2(c), Dot(b, c));
      var x := Vec(0.0, y, z);
      v := Combine(x, a, b, c);
      CombineNorm(x, a, b, c);
      FormGap(x, l, Norm2(b), Norm2(c), Dot(b, c));
      assert Product(l, Norm2(x)) < Norm2(v);
      Adjoint(v, x, a, b, c);
      CauchySchwarz(x, Dots(v, a, b, c));
      ProductSign(l, Norm2(x));
      SelfExceeds(Norm2(v), Norm2(x), Norm2(Dots(v, a, b, c)), l);
    }
  }

  lemma StretchOfColumn(a: Vec, b: Vec, c: Vec)
    requires Dot(a, b) != 0.0 || Dot(a, c) != 0.0
    ensures 0.0 < Norm2(a) && Product(Norm2(a), Norm2(a)) < Norm2(Dots(a, a, b, c))
  {
    hide Dot;
    assert Norm2(Dots(a, a, b, c)) == Square(Dot(a, a)) + Square(Dot(a, b)) + Square(Dot(a, c)) by {
      NormOfReals(Dot(a, a), Dot(a, b), Dot(a, c));
    }
    DotOrigin(b);
    DotOrigin(c);
  }

  lemma DotOrigin(a: Vec)
    ensures Dot(ORIGIN, a) == 0.0
  {
  }

  lemma NormOfReals(p: real, q: real, r: real)
    ensures Norm2(Vec(p, q, r)) == Square(p) + Square(q) + Square(r)
  {
  }

  lemma SelfExceeds(v2: real, x2: real, w2: real, l: real)
    requires 0.0 <= x2 && 0.0 <= l && Product(l, x2) < v2
    requires Square(v2) <= Product(x2, w2)
    ensures 0.0 < v2 && Product(l, v2) < w2
  {
    ProductSign(l, x2);
    ProductSign(x2, Product(l, v2) - w2);
    ProductSign(v2, v2 - Product(l, x2));
    assert Product(x2, Product(l, v2) - w2) == Product(v2, Product(l, x2)) - Product(x2, w2);
    assert Product(v2, v2 - Product(l, x2)) == Square(v2) - Product(v2, Product(l, x2));
  }

  /** The ball that `do_transform` makes of `b`. */
  function Transformed(sqrt: real -> real, b: Ball, m: Mat): Ball
    requires IsRoot(sqrt) && Finite(b.center, m)
  {
    Ball(Apply(b.center, m), b.radius * Length(sqrt, LongestFirst(m).0))
  }

  lemma TransformedParts(sqrt: real -> real, b: Ball, m: Mat)
    requires IsRoot(sqrt) && Finite(b.center, m)
    ensures Transformed(sqrt, b, m) == Ball(Apply(b.center, m), Product(b.radius, Length(sqrt, LongestFirst(m).0)))
  {
    hide Finite, Apply, Length, LongestFirst, IsRoot;
  }

  /** Every point of `b` is mapped into `a`. */
  ghost predicate CoversImage(a: Ball, b: Ball, m: Mat) {
    forall p :: In(p, b) ==> Finite(p, m) && In(Apply(p, m), a)
  }

  lemma LinearByLongest(d: Vec, m: Mat)
    ensures var (a, b, c) := LongestFirst(m);
      && Norm2(Linear(d, m)) == Norm2(Dots(d, a, b, c))
      && Norm2(b) <= Norm2(a) && Norm2(c) <= Norm2(a)
  {
    hide Norm2, Dot;
    NormOfReals(Dot(d, Col0(m)), Dot(d, Col1(m)), Dot(d, Col2(m)));
    var (a, b, c) := LongestFirst(m);
    NormOfReals(Dot(d, a), Dot(d, b), Dot(d, c));
  }

  /** `do_transform` is sound on a ball of positive radius exactly when the
      matrix's columns are tight. */
  lemma TransformExact(sqrt: real -> real, b: Ball, m: Mat)
    requires IsRoot(sqrt) && Affine(m) && 0.0 < b.radius
    ensures Finite(b.center, m)
    ensures CoversImage(Transformed(sqrt, b, m), b, m) <==> Tight(m)
  {
    AffineApply(b.center, m);
    if Tight(m) {
      TightCovers(sqrt, b, m);
    } else {
      LooseEscapes(sqrt, b, m);
    }
  }

  lemma TightCovers(sqrt: real -> real, b: Ball, m: Mat)
    requires IsRoot(sqrt) && Affine(m) && 0.0 <= b.radius && Tight(m)
    ensures Finite(b.center, m) && CoversImage(Transformed(sqrt, b, m), b, m)
  {
    hide Norm2, Dot, Dots, Apply, Linear, Finite, TightColumns;
    AffineApply(b.center, m);
    var t := Transformed(sqrt, b, m);
    var (x, y, z) := LongestFirst(m);
    var l := Length(sqrt, x);
    ProductSign(b.radius, l);
    forall p | In(p, b) ensures Finite(p, m) && In(Apply(p, m), t) {
      var d := Sub(p, b.center);
      AffineDifference(p, b.center, m);
      LinearByLongest(d, m);
      TightStretch(d, x, y, z);
      MulMonotone(Norm2(x), Norm2(x), Norm2(d), Square(b.radius));
      SquareOfProduct(l, b.radius);
    }
  }

  lemma LooseEscapes(sqrt: real -> real, b: Ball, m: Mat)
    requires IsRoot(sqrt) && Affine(m) && 0.0 < b.radius && !Tight(m)
    ensures Finite(b.center, m) && !CoversImage(Transformed(sqrt, b, m), b, m)
  {
    hide Norm2, Dot, Dots, Apply, Linear, Finite, TightColumns, Scale, Add, Sub, Normalize;
    AffineApply(b.center, m);
    var t := Transformed(sqrt, b, m);
    var (x, y, z) := LongestFirst(m);
    LinearByLongest(ORIGIN, m);
    var v := LooseStretch(x, y, z);
    var k := b.radius / Length(sqrt, v);
    var d := Scale(v, k);
    var p := Add(b.center, d);
    assert Sub(p, b.center) == d by { AddSub(b.center, d); }
    ScaledToRadius(sqrt, v, b.radius);
    AffineDifference(p, b.center, m);
    LinearByLongest(d, m);
    DotsScale(v, k, x, y, z);
    var l := Length(sqrt, x);
    StrictScale(Norm2(x), Norm2(v), Norm2(Dots(v, x, y, z)), Square(k));
    SquareOfProduct(l, b.radius);
    assert In(p, b) && !In(Apply(p, m), t);
  }

  lemma AddSub(c: Vec, d: Vec)
    ensures Sub(Add(c, d), c) == d
  {
  }

  lemma ScaledToRadius(sqrt: real -> real, v: Vec, r: real)
    requires IsRoot(sqrt) && 0.0 < Norm2(v) && 0.0 < r
    ensures Length(sqrt, v) != 0.0
    ensures var k := r / Length(sqrt, v);
      && 0.0 < k && Product(Norm2(v), Square(k)) == Square(r) && Norm2(Scale(v, k)) == Square(r)
  {
    hide Norm2, Dot, Scale;
    var len := Length(sqrt, v);
    var k := r / len;
    assert k * len == r;
    ProductSign(-k, len);
    SquareOfProduct(k, len);
    assert Product(k, len) == r;
    ScaledDot(v, v, k, k);
  }

  lemma DotsScale(v: Vec, k: real, a: Vec, b: Vec, c: Vec)
    ensures Norm2(Dots(Scale(v, k), a, b, c)) == Product(Norm2(Dots(v, a, b, c)), Square(k))
  {
    hide Norm2, Dot;
    DotScale(v, a, k, k);
    DotScale(v, b, k, k);
    DotScale(v, c, k, k);
    assert Dot(Scale(v, k), a) == Dot(v, a) * k;
    assert Dot(Scale(v, k), b) == Dot(v, b) * k;
    assert Dot(Scale(v, k), c) == Dot(v, c) * k;
    assert Dots(Scale(v, k), a, b, c) == Scale(Dots(v, a, b, c), k);
    ScaledDot(Dots(v, a, b, c), v, k, k);
  }

  lemma StrictScale(l: real, v2: real, w2: real, k2: real)
    requires Product(l, v2) < w2 && 0.0 < k2
    ensures Product(l, Product(v2, k2)) < Product(w2, k2)
  {
    ProductSign(w2 - Product(l, v2), k2);
    assert Product(w2 - Product(l, v2), k2) == Product(w2, k2) - Product(l, Product(v2, k2));
  }

  /** A scale by 5 along x followed by a rotation in the xy plane. */
  const SCALE_THEN_ROTATE := Mat(Row(3.0, 4.0, 0.0, 0.0), Row(-0.8, 0.6, 0.0, 0.0),
                                 Row(0.0, 0.0, 1.0, 0.0), Row(0.0, 0.0, 0.0, 1.0))

  lemma ScaleThenRotateIsLoose()
    ensures Affine(SCALE_THEN_ROTATE) && !Tight(SCALE_THEN_ROTATE)
  {
    var m := SCALE_THEN_ROTATE;
    assert Norm2(Col0(m)) == 9.64 && Norm2(Col1(m)) == 16.36 && Norm2(Col2(m)) == 1.0;
    assert Dot(Col1(m), Col0(m)) == 11.52;
  }

  /** Its columns are not orthogonal, so the transformed ball loses points. */
  lemma ScaleThenRotateEscapes(sqrt: real -> real)
    requires IsRoot(sqrt)
    ensures Finite(ORIGIN, SCALE_THEN_ROTATE)
    ensures !CoversImage(Transformed(sqrt, Ball(ORIGIN, 1.0), SCALE_THEN_ROTATE), Ball(ORIGIN, 1.0), SCALE_THEN_ROTATE)
  {
    hide Tight, Affine, Transformed, CoversImage, Finite;
    ScaleThenRotateIsLoose();
    TransformExact(sqrt, Ball(ORIGIN, 1.0), SCALE_THEN_ROTATE);
  }

  /** The rows of the linear part are mutually orthogonal and equally long:
      A times its transpose is `n` times the identity. */
  predicate Conformal(m: Mat, n: real) {
    && Dot(Row0(m), Row1(m)) == 0.0 && Dot(Row0(m), Row2(m)) == 0.0 && Dot(Row1(m), Row2(m)) == 0.0
    && Norm2(Row0(m)) == n && Norm2(Row1(m)) == n && Norm2(Row2(m)) == n
  }

  /** A conformal map scales every squared length by the same factor. */
  lemma ConformalStretch(d: Vec, m: Mat, n: real)
    requires Conformal(m, n)
    ensures Norm2(Linear(d, m)) == Product(n, Norm2(d))
  {
    hide Norm2, Dot, Linear;
    LinearIsCombination(d, m);
    CombineNorm(d, Row0(m), Row1(m), Row2(m));
    NormAsSquares(d, n);
  }

  lemma NormAsSquares(d: Vec, n: real)
    ensures Product(n, Norm2(d)) == Product(n, Square(d.x)) + Product(n, Square(d.y)) + Product(n, Square(d.z))
  {
  }

  /** Conformal rows make conformal columns: no column is longer than a row, and
      together they are as long. */
  lemma ConformalColumns(m: Mat, n: real)
    requires Conformal(m, n)
    ensures Norm2(Col0(m)) == n && Norm2(Col1(m)) == n && Norm2(Col2(m)) == n
    ensures OrthogonalColumns(m)
  {
    hide Dot, Norm2;
    ColumnBound(Col0(m), m, n);
    ColumnBound(Col1(m), m, n);
    ColumnBound(Col2(m), m, n);
    EntrySum(m);
    DotSymmetric(Col0(m), Col1(m));
    DotSymmetric(Col0(m), Col2(m));
    DotSymmetric(Col1(m), Col2(m));
  }

  lemma EntrySum(m: Mat)
    ensures Norm2(Col0(m)) + Norm2(Col1(m)) + Norm2(Col2(m)) == Norm2(Row0(m)) + Norm2(Row1(m)) + Norm2(Row2(m))
  {
  }

  /** A column, taken as a row vector, meets itself in its own image. */
  lemma ColumnBound(c: Vec, m: Mat, n: real)
    requires Conformal(m, n) && (c == Col0(m) || c == Col1(m) || c == Col2(m))
    ensures Norm2(c) <= n
    ensures Norm2(c) == n ==>
      && (c == Col0(m) ==> Dot(c, Col1(m)) == 0.0 && Dot(c, Col2(m)) == 0.0)
      && (c == Col1(m) ==> Dot(c, Col0(m)) == 0.0 && Dot(c, Col2(m)) == 0.0)
  {
    hide Dot, Norm2;
    ConformalStretch(c, m, n);
    NormOfReals(Dot(c, Col0(m)), Dot(c, Col1(m)), Dot(c, Col2(m)));
    var k := Norm2(c);
    assert Square(k) <= Product(n, k);
    ProductSign(k, k - n);
    assert Product(k, k - n) == Square(k) - Product(n, k);
    assert k == n ==> Square(k) == Product(n, k);
  }

  /** The ball that `do_ortho_transform` makes of `b`. */
  function OrthoTransformed(sqrt: real -> real, b: Ball, m: Mat): Ball
    requires IsRoot(sqrt) && Finite(b.center, m)
  {
    Ball(Apply(b.center, m), b.radius * Length(sqrt, Col0(m)))
  }

  /** A conformal map of factor k scales every distance by exactly k. */
  lemma ConformalDistance(sqrt: real -> real, m: Mat, k: real, p: Vec, q: Vec)
    requires IsRoot(sqrt) && Affine(m) && Conformal(m, Square(k)) && 0.0 <= k
    ensures Finite(p, m) && Finite(q, m)
    ensures Length(sqrt, Sub(Apply(p, m), Apply(q, m))) == k * Length(sqrt, Sub(p, q))
  {
    hide Dot, Norm2, Apply, Linear, Finite, Sub, Conformal;
    AffineDifference(p, q, m);
    ConformalStretch(Sub(p, q), m, Square(k));
    var l := Length(sqrt, Sub(p, q));
    ProductSign(k, l);
    SquareOfProduct(k, l);
    RootOfSquare(Length(sqrt, Sub(Apply(p, m), Apply(q, m))), Product(k, l));
  }

  /** So the transformed ball holds the images of the old ball's points and of
      no others; and the general routine gives the same ball. */
  lemma OrthoTransformExact(sqrt: real -> real, b: Ball, m: Mat, k: real, p: Vec)
    requires IsRoot(sqrt) && Affine(m) && Conformal(m, Square(k)) && 0.0 < k && 0.0 <= b.radius
    ensures Finite(b.center, m) && Finite(p, m)
    ensures In(p, b) <==> In(Apply(p, m), OrthoTransformed(sqrt, b, m))
    ensures OrthoTransformed(sqrt, b, m) == Transformed(sqrt, b, m)
  {
    hide Dot, Norm2, Apply, Linear, Finite, Sub, Conformal, OrthogonalColumns;
    AffineDifference(p, b.center, m);
    ConformalStretch(Sub(p, b.center), m, Square(k));
    ConformalColumns(m, Square(k));
    RootOfSquare(Length(sqrt, Col0(m)), k);
    RootOfSquare(Length(sqrt, LongestFirst(m).0), k);
    ProductSign(k, b.radius);
    SquareOfProduct(k, b.radius);
    ProductOrder(Square(k), Norm2(Sub(p, b.center)), Square(b.radius));
  }

  lemma RootOfSquare(x: real, y: real)
    requires 0.0 <= x && 0.0 <= y && Square(x) == Square(y)
    ensures x == y
  {
    SquareOrder(x, y);
  }

  lemma ProductOrder(k: real, x: real, y: real)
    requires 0.0 < k
    ensures x <= y <==> Product(k, x) <= Product(k, y)
  {
    ProductSign(k, y - x);
    ProductSign(k, x - y);
  }

  /** By any affine matrix the ball of `do_ortho_transform` is exactly as wide along x
      as what the matrix makes of the old ball: no point is mapped beyond it, and one
      is mapped to its end. */
  lemma OrthoTransformWidth(sqrt: real -> real, b: Ball, m: Mat, p: Vec) returns (end: Vec)
    requires IsRoot(sqrt) && Affine(m) && 0.0 <= b.radius && In(p, b)
    ensures Finite(b.center, m) && Finite(p, m) && Finite(end, m) && In(end, b)
    ensures var o := OrthoTransformed(sqrt, b, m);
      && o.center == Apply(b.center, m)
      && o.center.x - o.radius <= Apply(p, m).x <= o.center.x + o.radius
      && Apply(end, m).x == o.center.x + o.radius
  {
    hide *;
    var a := Col0(m);
    end := Add(b.center, Scale(Normalize(sqrt, a), b.radius));
    AffineDifference(p, b.center, m);
    AffineDifference(end, b.center, m);
    FirstCoordinate(p, b.center, m);
    FirstCoordinate(end, b.center, m);
    OrthoParts(sqrt, b, m);
    WithinLength(sqrt, p, b, a);
    AddSub(b.center, Scale(Normalize(sqrt, a), b.radius));
    AtLength(sqrt, end, b, a);
  }

  lemma FirstCoordinate(p: Vec, c: Vec, m: Mat)
    requires Finite(p, m) && Finite(c, m) && Sub(Apply(p, m), Apply(c, m)) == Linear(Sub(p, c), m)
    ensures Apply(p, m).x == Apply(c, m).x + Dot(Sub(p, c), Col0(m))
  {
    hide Finite, Apply, Dot;
  }

  lemma OrthoParts(sqrt: real -> real, b: Ball, m: Mat)
    requires IsRoot(sqrt) && Finite(b.center, m)
    ensures OrthoTransformed(sqrt, b, m) == Ball(Apply(b.center, m), Product(b.radius, Length(sqrt, Col0(m))))
  {
    hide Finite, Apply, Length, Col0, IsRoot;
  }

  lemma WithinLength(sqrt: real -> real, p: Vec, b: Ball, a: Vec)
    requires IsRoot(sqrt) && In(p, b)
    ensures -Product(b.radius, Length(sqrt, a)) <= Dot(Sub(p, b.center), a) <= Product(b.radius, Length(sqrt, a))
  {
    hide Norm2, Dot, Sub, Length, IsRoot;
    assert 0.0 <= Length(sqrt, a) && Square(Length(sqrt, a)) == Norm2(a);
    DotBound(Sub(p, b.center), a, b.radius, Length(sqrt, a));
  }

  lemma AtLength(sqrt: real -> real, p: Vec, b: Ball, a: Vec)
    requires IsRoot(sqrt) && 0.0 <= b.radius && Sub(p, b.center) == Scale(Normalize(sqrt, a), b.radius)
    ensures In(p, b) && Dot(Sub(p, b.center), a) == Product(b.radius, Length(sqrt, a))
  {
    hide *;
    var n, l := Normalize(sqrt, a), Length(sqrt, a);
    NormalizeFacts(sqrt, a);
    ScaledDot(n, n, b.radius, b.radius);
    ScaledDot(n, n, b.radius, l);
    UnitOrNothing(n, l, b.radius);
    InByNorm(p, b);
  }

  lemma InByNorm(p: Vec, b: Ball)
    ensures In(p, b) <==> 0.0 <= b.radius && Norm2(Sub(p, b.center)) <= Square(b.radius)
  {
  }

  lemma NormalizeFacts(sqrt: real -> real, a: Vec)
    requires IsRoot(sqrt)
    ensures var n, l := Normalize(sqrt, a), Length(sqrt, a);
      a == Scale(n, l) && (Norm2(n) == 1.0 || (n == ORIGIN && Square(l) == 0.0))
  {
    hide Dot;
    assert Square(Length(sqrt, a)) == Norm2(a);
    hide Norm2, Scale, Normalize, Length, IsRoot;
  }

  lemma UnitOrNothing(n: Vec, l: real, r: real)
    requires 0.0 <= r && (Norm2(n) == 1.0 || (n == ORIGIN && Square(l) == 0.0))
    ensures Product(Norm2(n), Square(r)) <= Square(r)
    ensures Product(Dot(n, n), Product(r, l)) == Product(r, l)
  {
    hide Dot, Norm2;
    DotOrigin(ORIGIN);
  }

  /** By any affine matrix the ball of `do_transform` is no larger than what the matrix
      makes of the old ball: some point is mapped at least as far from the centre. */
  lemma TransformReaches(sqrt: real -> real, b: Ball, m: Mat) returns (end: Vec)
    requires IsRoot(sqrt) && Affine(m) && 0.0 <= b.radius
    ensures Finite(b.center, m) && Finite(end, m) && In(end, b)
    ensures var t := Transformed(sqrt, b, m);
      t.center == Apply(b.center, m) && Square(t.radius) <= Norm2(Sub(Apply(end, m), t.center))
  {
    hide *;
    var (x, y, z) := LongestFirst(m);
    end := Add(b.center, Scale(Normalize(sqrt, x), b.radius));
    var d := Sub(end, b.center);
    AffineDifference(end, b.center, m);
    TransformedParts(sqrt, b, m);
    AddSub(b.center, Scale(Normalize(sqrt, x), b.radius));
    AtLength(sqrt, end, b, x);
    LinearByLongest(d, m);
    DotsAtLeast(d, x, y, z);
  }

  lemma DotsAtLeast(d: Vec, x: Vec, y: Vec, z: Vec)
    ensures Square(Dot(d, x)) <= Norm2(Dots(d, x, y, z))
  {
    hide Dot;
    NormOfReals(Dot(d, x), Dot(d, y), Dot(d, z));
    hide Norm2, Square;
  }
}
