/** Quaternions, their rotation matrices, and the way back from a matrix. */
module Quaternions {
  import opened Reals
  import opened Vectors
  import opened Matrices

  datatype Quat = Quat(x: real, y: real, z: real, w: real)

  /** The first coordinate of the product; the second and third are the same
      with the coordinates of the vector parts rotated. */
  function VectorCoordinate(ax: real, ay: real, az: real, aw: real, bx: real, bY: real, bz: real, bw: real): real {
    ay * bz - az * bY + bw * ax + aw * bx
  }

  function ScalarCoordinate(ax: real, ay: real, az: real, aw: real, bx: real, bY: real, bz: real, bw: real): real {
    aw * bw - (ax * bx + ay * bY + az * bz)
  }

  function Hamilton(a: Quat, b: Quat): Quat {
    Quat(VectorCoordinate(a.x, a.y, a.z, a.w, b.x, b.y, b.z, b.w),
         VectorCoordinate(a.y, a.z, a.x, a.w, b.y, b.z, b.x, b.w),
         VectorCoordinate(a.z, a.x, a.y, a.w, b.z, b.x, b.y, b.w),
         ScalarCoordinate(a.x, a.y, a.z, a.w, b.x, b.y, b.z, b.w))
  }

  lemma CoordinatesAssociate(ax: real, ay: real, az: real, aw: real, bx: real, bY: real, bz: real, bw: real,
                           cx: real, cy: real, cz: real, cw: real)
    ensures
      var px := ay * bz - az * bY + bw * ax + aw * bx;
      var py := az * bx - ax * bz + bw * ay + aw * bY;
      var pz := ax * bY - ay * bx + bw * az + aw * bz;
      var pw := aw * bw - (ax * bx + ay * bY + az * bz);
      var qx := bY * cz - bz * cy + cw * bx + bw * cx;
      var qy := bz * cx - bx * cz + cw * bY + bw * cy;
      var qz := bx * cy - bY * cx + cw * bz + bw * cz;
      var qw := bw * cw - (bx * cx + bY * cy + bz * cz);
      && VectorCoordinate(px, py, pz, pw, cx, cy, cz, cw) == VectorCoordinate(ax, ay, az, aw, qx, qy, qz, qw)
      && ScalarCoordinate(px, py, pz, pw, cx, cy, cz, cw) == ScalarCoordinate(ax, ay, az, aw, qx, qy, qz, qw)
  {
  }

  lemma HamiltonAssociative(a: Quat, b: Quat, c: Quat)
    ensures Hamilton(Hamilton(a, b), c) == Hamilton(a, Hamilton(b, c))
  {
    hide VectorCoordinate, ScalarCoordinate;
    HamiltonEntries(a, b);
    HamiltonEntries(b, c);
    CoordinatesAssociate(a.x, a.y, a.z, a.w, b.x, b.y, b.z, b.w, c.x, c.y, c.z, c.w);
    CoordinatesAssociate(a.y, a.z, a.x, a.w, b.y, b.z, b.x, b.w, c.y, c.z, c.x, c.w);
    CoordinatesAssociate(a.z, a.x, a.y, a.w, b.z, b.x, b.y, b.w, c.z, c.x, c.y, c.w);
  }

  lemma HamiltonEntries(a: Quat, b: Quat)
    ensures Hamilton(a, b).x == a.y * b.z - a.z * b.y + b.w * a.x + a.w * b.x
    ensures Hamilton(a, b).y == a.z * b.x - a.x * b.z + b.w * a.y + a.w * b.y
    ensures Hamilton(a, b).z == a.x * b.y - a.y * b.x + b.w * a.z + a.w * b.z
    ensures Hamilton(a, b).w == a.w * b.w - (a.x * b.x + a.y * b.y + a.z * b.z)
    ensures Hamilton(a, b).w == a.w * b.w - (a.y * b.y + a.z * b.z + a.x * b.x)
    ensures Hamilton(a, b).w == a.w * b.w - (a.z * b.z + a.x * b.x + a.y * b.y)
  {
  }

  function SumOfSquares(x: real, y: real, z: real, w: real): real {
    x * x + y * y + z * z + w * w
  }

  function Norm(q: Quat): real {
    SumOfSquares(q.x, q.y, q.z, q.w)
  }

  function Conjugate(q: Quat): Quat {
    Quat(-q.x, -q.y, -q.z, q.w)
  }

  function Opposite(q: Quat): Quat {
    Quat(-q.x, -q.y, -q.z, -q.w)
  }

  /** Euler's four-square identity. */
  lemma FourSquares(ax: real, ay: real, az: real, aw: real, bx: real, bY: real, bz: real, bw: real,
                    px: real, py: real, pz: real, pw: real)
    requires px == ay * bz - az * bY + bw * ax + aw * bx
    requires py == az * bx - ax * bz + bw * ay + aw * bY
    requires pz == ax * bY - ay * bx + bw * az + aw * bz
    requires pw == aw * bw - (ax * bx + ay * bY + az * bz)
    ensures SumOfSquares(px, py, pz, pw) == Product(SumOfSquares(ax, ay, az, aw), SumOfSquares(bx, bY, bz, bw))
  {
    assert SumOfSquares(ay * bz - az * bY + bw * ax + aw * bx,
                        az * bx - ax * bz + bw * ay + aw * bY,
                        ax * bY - ay * bx + bw * az + aw * bz,
                        aw * bw - (ax * bx + ay * bY + az * bz))
        == Product(ax * ax + ay * ay + az * az + aw * aw, bx * bx + bY * bY + bz * bz + bw * bw);
  }

  lemma NormMultiplicative(a: Quat, b: Quat)
    ensures Norm(Hamilton(a, b)) == Norm(a) * Norm(b)
  {
    hide SumOfSquares, Hamilton;
    HamiltonEntries(a, b);
    var p := Hamilton(a, b);
    FourSquares(a.x, a.y, a.z, a.w, b.x, b.y, b.z, b.w, p.x, p.y, p.z, p.w);
  }

  lemma ConjugateProduct(a: Quat, b: Quat)
    ensures Conjugate(Hamilton(a, b)) == Hamilton(Conjugate(b), Conjugate(a))
    ensures Norm(Conjugate(a)) == Norm(a)
  {
  }

  lemma ConjugateInverse(a: Quat)
    ensures Hamilton(a, Conjugate(a)) == Quat(0.0, 0.0, 0.0, Norm(a)) == Hamilton(Conjugate(a), a)
  {
  }

  /** The rotation matrix of a quaternion. */
  function RotationOf(q: Quat): Mat {
    Mat(Row(1.0 - 2.0 * (q.y * q.y + q.z * q.z), 2.0 * (q.x * q.y + q.z * q.w), 2.0 * (q.z * q.x - q.y * q.w), 0.0),
        Row(2.0 * (q.x * q.y - q.z * q.w), 1.0 - 2.0 * (q.z * q.z + q.x * q.x), 2.0 * (q.y * q.z + q.x * q.w), 0.0),
        Row(2.0 * (q.z * q.x + q.y * q.w), 2.0 * (q.y * q.z - q.x * q.w), 1.0 - 2.0 * (q.y * q.y + q.x * q.x), 0.0),
        Row(0.0, 0.0, 0.0, 1.0))
  }

  function Pure(v: Vec): Quat {
    Quat(v.x, v.y, v.z, 0.0)
  }

  /** The conjugation of `v` by `q`. */
  function Sandwich(q: Quat, v: Quat): Quat {
    Hamilton(Hamilton(q, v), Conjugate(q))
  }

  /** One coordinate of the rotated vector (a, b, c). */
  function RotatedCoordinate(x: real, y: real, z: real, w: real, a: real, b: real, c: real): real {
    a * (1.0 - 2.0 * (y * y + z * z)) + b * (2.0 * (x * y - z * w)) + c * (2.0 * (z * x + y * w))
  }

  lemma SandwichVectorPart(x: real, y: real, z: real, w: real, a: real, b: real, c: real,
                           px: real, py: real, pz: real, pw: real)
    requires px == y * c - z * b + 0.0 * x + w * a
    requires py == z * a - x * c + 0.0 * y + w * b
    requires pz == x * b - y * a + 0.0 * z + w * c
    requires pw == w * 0.0 - (x * a + y * b + z * c)
    ensures VectorCoordinate(px, py, pz, pw, -x, -y, -z, w)
         == RotatedCoordinate(x, y, z, w, a, b, c) + Product(a, SumOfSquares(x, y, z, w) - 1.0)
  {
  }

  lemma SandwichScalarPart(x: real, y: real, z: real, w: real, a: real, b: real, c: real,
                           px: real, py: real, pz: real, pw: real)
    requires px == y * c - z * b + 0.0 * x + w * a
    requires py == z * a - x * c + 0.0 * y + w * b
    requires pz == x * b - y * a + 0.0 * z + w * c
    requires pw == w * 0.0 - (x * a + y * b + z * c)
    ensures ScalarCoordinate(px, py, pz, pw, -x, -y, -z, w) == 0.0
  {
  }

  lemma SandwichCoordinate(x: real, y: real, z: real, w: real, a: real, b: real, c: real,
                           px: real, py: real, pz: real, pw: real)
    requires SumOfSquares(x, y, z, w) == 1.0
    requires px == y * c - z * b + 0.0 * x + w * a
    requires py == z * a - x * c + 0.0 * y + w * b
    requires pz == x * b - y * a + 0.0 * z + w * c
    requires pw == w * 0.0 - (x * a + y * b + z * c)
    ensures VectorCoordinate(px, py, pz, pw, -x, -y, -z, w) == RotatedCoordinate(x, y, z, w, a, b, c)
    ensures ScalarCoordinate(px, py, pz, pw, -x, -y, -z, w) == 0.0
  {
    hide *;
    SandwichVectorPart(x, y, z, w, a, b, c, px, py, pz, pw);
    SandwichScalarPart(x, y, z, w, a, b, c, px, py, pz, pw);
    assert Product(a, SumOfSquares(x, y, z, w) - 1.0) == 0.0;
  }

  /** Conjugating a vector by a unit quaternion is multiplying it by the
      quaternion's rotation matrix. */
  lemma SandwichRotates(q: Quat, v: Vec)
    requires Norm(q) == 1.0
    ensures Sandwich(q, Pure(v)) == Pure(Linear(v, RotationOf(q)))
  {
    hide SumOfSquares, VectorCoordinate, ScalarCoordinate, RotatedCoordinate, Dot, RotationOf, Linear;
    var p := Hamilton(q, Pure(v));
    HamiltonEntries(q, Pure(v));
    SumOfSquaresRotates(q.x, q.y, q.z, q.w);
    SandwichCoordinate(q.x, q.y, q.z, q.w, v.x, v.y, v.z, p.x, p.y, p.z, p.w);
    SandwichCoordinate(q.y, q.z, q.x, q.w, v.y, v.z, v.x, p.y, p.z, p.x, p.w);
    SandwichCoordinate(q.z, q.x, q.y, q.w, v.z, v.x, v.y, p.z, p.x, p.y, p.w);
    LinearByRotation(v, q);
  }

  lemma SumOfSquaresRotates(x: real, y: real, z: real, w: real)
    ensures SumOfSquares(x, y, z, w) == SumOfSquares(y, z, x, w) == SumOfSquares(z, x, y, w)
  {
  }

  lemma LinearByRotation(v: Vec, q: Quat)
    ensures Linear(v, RotationOf(q))
         == Vec(RotatedCoordinate(q.x, q.y, q.z, q.w, v.x, v.y, v.z),
                RotatedCoordinate(q.y, q.z, q.x, q.w, v.y, v.z, v.x),
                RotatedCoordinate(q.z, q.x, q.y, q.w, v.z, v.x, v.y))
  {
    hide RotatedCoordinate, Dot, RotationOf, RotationColumn;
    var m := RotationOf(q);
    RotationColumnX(q);
    RotationColumnY(q);
    RotationColumnZ(q);
    DotCycle(v.y, v.z, v.x, m.r1.y, m.r2.y, m.r0.y);
    DotCycle(v.x, v.y, v.z, m.r0.z, m.r1.z, m.r2.z);
    RotatedIsDot(q.x, q.y, q.z, q.w, v.x, v.y, v.z);
    RotatedIsDot(q.y, q.z, q.x, q.w, v.y, v.z, v.x);
    RotatedIsDot(q.z, q.x, q.y, q.w, v.z, v.x, v.y);
  }

  function RotationColumn(x: real, y: real, z: real, w: real): Vec {
    Vec(1.0 - 2.0 * (y * y + z * z), 2.0 * (x * y - z * w), 2.0 * (z * x + y * w))
  }

  lemma RotationColumnX(q: Quat)
    ensures var m := RotationOf(q); Vec(m.r0.x, m.r1.x, m.r2.x) == RotationColumn(q.x, q.y, q.z, q.w)
  {
  }

  lemma RotationColumnY(q: Quat)
    ensures var m := RotationOf(q); Vec(m.r1.y, m.r2.y, m.r0.y) == RotationColumn(q.y, q.z, q.x, q.w)
  {
  }

  lemma RotationColumnZ(q: Quat)
    ensures var m := RotationOf(q); Vec(m.r2.z, m.r0.z, m.r1.z) == RotationColumn(q.z, q.x, q.y, q.w)
  {
  }

  lemma DotCycle(a: real, b: real, c: real, d: real, e: real, f: real)
    ensures Dot(Vec(a, b, c), Vec(d, e, f)) == Dot(Vec(c, a, b), Vec(f, d, e))
  {
  }

  lemma RotatedIsDot(x: real, y: real, z: real, w: real, a: real, b: real, c: real)
    ensures RotatedCoordinate(x, y, z, w, a, b, c)
         == Dot(Vec(a, b, c), RotationColumn(x, y, z, w))
  {
  }

  /** In the row-vector convention the product's rotation applies the right
      factor first. */
  lemma RotationOfProduct(q: Quat, r: Quat)
    requires Norm(q) == 1.0 && Norm(r) == 1.0
    ensures RotationOf(Hamilton(q, r)) == Mul(RotationOf(r), RotationOf(q))
  {
    hide Norm, Sandwich, Linear, RotationOf, Mul, Hamilton;
    NormMultiplicative(q, r);
    var m, n, p := RotationOf(r), RotationOf(q), RotationOf(Hamilton(q, r));
    ProductTurns(q, r, X_DIRECTION);
    ProductTurns(q, r, Y_DIRECTION);
    ProductTurns(q, r, Z_DIRECTION);
    RotationParts(q);
    RotationParts(r);
    RotationParts(Hamilton(q, r));
    AffineMul(m, n);
    RowsAreImages(m);
    RowsAreImages(p);
    LinearOfOrigin(n);
    SameParts(p, Mul(m, n));
  }

  lemma ProductTurns(q: Quat, r: Quat, v: Vec)
    requires Norm(q) == 1.0 && Norm(r) == 1.0
    ensures Linear(v, RotationOf(Hamilton(q, r))) == Linear(Linear(v, RotationOf(r)), RotationOf(q))
  {
    hide Norm, Linear, RotationOf, Hamilton;
    NormMultiplicative(q, r);
    var v' := Linear(v, RotationOf(r));
    SandwichRotates(Hamilton(q, r), v);
    SandwichRotates(r, v);
    SandwichRotates(q, v');
    ConjugateProduct(q, r);
    HamiltonAssociative(q, r, Pure(v));
    HamiltonAssociative(q, Hamilton(r, Pure(v)), Hamilton(Conjugate(r), Conjugate(q)));
    HamiltonAssociative(Hamilton(r, Pure(v)), Conjugate(r), Conjugate(q));
    HamiltonAssociative(q, Pure(v'), Conjugate(q));
    assert Pure(Linear(v, RotationOf(Hamilton(q, r)))) == Pure(Linear(v', RotationOf(q)));
  }

  lemma RotationParts(q: Quat)
    ensures Affine(RotationOf(q)) && Translation(RotationOf(q)) == ORIGIN
  {
  }
}
