/** Three-dimensional vectors over the reals, and the inequalities that the
    bounding volumes rest on.

    The C library's square root is a parameter of every operation that calls
    it: a function `sqrt` of which only `IsRoot` is known. */
module Vectors {
  import opened Reals

  datatype Vec = Vec(x: real, y: real, z: real)

  const ORIGIN := Vec(0.0, 0.0, 0.0)
  const X_DIRECTION := Vec(1.0, 0.0, 0.0)
  const Y_DIRECTION := Vec(0.0, 1.0, 0.0)
  const Z_DIRECTION := Vec(0.0, 0.0, 1.0)

  function Add(a: Vec, b: Vec): Vec {
    Vec(a.x + b.x, a.y + b.y, a.z + b.z)
  }

  function Sub(a: Vec, b: Vec): Vec {
    Vec(a.x - b.x, a.y - b.y, a.z - b.z)
  }

  function Neg(a: Vec): Vec {
    Vec(-a.x, -a.y, -a.z)
  }

  function Scale(a: Vec, k: real): Vec {
    Vec(a.x * k, a.y * k, a.z * k)
  }

  function Div(a: Vec, k: real): Vec
    requires k != 0.0
  {
    Vec(a.x / k, a.y / k, a.z / k)
  }

  function Dot(a: Vec, b: Vec): real {
    a.x * b.x + a.y * b.y + a.z * b.z
  }

  function Cross(a: Vec, b: Vec): Vec {
    Vec(a.y * b.z - a.z * b.y, a.z * b.x - a.x * b.z, a.x * b.y - a.y * b.x)
  }

  function Norm2(a: Vec): (n: real)
    ensures n == Dot(a, a)
    ensures 0.0 <= n
    ensures n == 0.0 <==> a == ORIGIN
  {
    assert Dot(a, a) == Square(a.x) + Square(a.y) + Square(a.z);
    Dot(a, a)
  }

  /** All that is assumed of the C library's square root. */
  ghost predicate IsRoot(sqrt: real -> real) {
    forall x: real :: 0.0 <= x ==> 0.0 <= sqrt(x) && Square(sqrt(x)) == x
  }

  function Length(sqrt: real -> real, a: Vec): (len: real)
    requires IsRoot(sqrt)
    ensures 0.0 <= len && Square(len) == Norm2(a)
  {
    sqrt(Norm2(a))
  }

  /** The zero vector is its own normalization; every other vector is scaled to
      length one. */
  function Normalize(sqrt: real -> real, a: Vec): (u: Vec)
    requires IsRoot(sqrt)
    ensures a == Scale(u, Length(sqrt, a))
    ensures a == ORIGIN ==> u == ORIGIN
    ensures a != ORIGIN ==> Norm2(u) == 1.0
  {
    var len := Length(sqrt, a);
    if len != 0.0 then
      DivScale(a, len);
      Div(a, len)
    else
      a
  }

  lemma DivScale(a: Vec, len: real)
    requires len != 0.0 && Square(len) == Norm2(a)
    ensures Scale(Div(a, len), len) == a
    ensures Norm2(Div(a, len)) == 1.0
  {
    var u := Div(a, len);
    DotScale(u, u, len, len);
    CancelProduct(len, len, Norm2(u), Norm2(a));
  }

  lemma ScaleAdd(a: Vec, b: Vec, k: real, m: real)
    ensures Scale(Add(a, b), k) == Add(Scale(a, k), Scale(b, k))
    ensures Scale(a, k + m) == Add(Scale(a, k), Scale(a, m))
  {
  }

  lemma DotScale(a: Vec, b: Vec, k: real, m: real)
    ensures Dot(Scale(a, k), Scale(b, m)) == k * m * Dot(a, b)
    ensures Dot(Scale(a, k), b) == k * Dot(a, b)
    ensures Dot(a, Scale(b, m)) == m * Dot(a, b)
  {
  }

  lemma DotAdd(a: Vec, b: Vec, c: Vec)
    ensures Dot(Add(a, b), c) == Dot(a, c) + Dot(b, c)
    ensures Dot(c, Add(a, b)) == Dot(c, a) + Dot(c, b)
    ensures Dot(Sub(a, b), c) == Dot(a, c) - Dot(b, c)
    ensures Dot(c, Sub(a, b)) == Dot(c, a) - Dot(c, b)
  {
  }

  lemma DotOfReals(x: Vec, p: real, q: real, r: real)
    ensures Dot(x, Vec(p, q, r)) == x.x * p + x.y * q + x.z * r
  {
  }

  lemma DotSymmetric(a: Vec, b: Vec)
    ensures Dot(a, b) == Dot(b, a)
  {
  }

  /** Lagrange's identity. */
  lemma Lagrange(a: Vec, b: Vec)
    ensures Norm2(Cross(a, b)) == Product(Norm2(a), Norm2(b)) - Square(Dot(a, b))
  {
  }

  lemma CauchySchwarz(a: Vec, b: Vec)
    ensures Square(Dot(a, b)) <= Product(Norm2(a), Norm2(b))
  {
    Lagrange(a, b);
  }

  lemma DotBound(a: Vec, b: Vec, la: real, lb: real)
    requires 0.0 <= la && Norm2(a) <= Square(la)
    requires 0.0 <= lb && Norm2(b) <= Square(lb)
    ensures -(la * lb) <= Dot(a, b) <= la * lb
  {
    CauchySchwarz(a, b);
    MulMonotone(Norm2(a), Square(la), Norm2(b), Square(lb));
    SquareOfProduct(la, lb);
    ProductSign(la, lb);
    SquareBound(Dot(a, b), Product(la, lb));
  }

  lemma SquareOfProduct(x: real, y: real)
    ensures Product(Square(x), Square(y)) == Square(Product(x, y))
  {
  }

  lemma Triangle(a: Vec, b: Vec, la: real, lb: real)
    requires 0.0 <= la && Norm2(a) <= Square(la)
    requires 0.0 <= lb && Norm2(b) <= Square(lb)
    ensures Norm2(Add(a, b)) <= Square(la + lb)
  {
    DotBound(a, b, la, lb);
    SumExpansions(a, b, la, lb);
  }

  lemma SumExpansions(a: Vec, b: Vec, la: real, lb: real)
    ensures Norm2(Add(a, b)) == Norm2(a) + 2.0 * Dot(a, b) + Norm2(b)
    ensures Norm2(Sub(a, b)) == Norm2(a) - 2.0 * Dot(a, b) + Norm2(b)
    ensures Square(la + lb) == Square(la) + 2.0 * (la * lb) + Square(lb)
  {
  }

  lemma CrossAdd(n: Vec, a: Vec, b: Vec)
    ensures Cross(n, Add(a, b)) == Add(Cross(n, a), Cross(n, b))
  {
  }

  lemma ScaledDifference(n: real, m: real, a: real, b: real, k: real, ka: real, kb: real, d: real)
    requires ka == a * k && kb == b * k && d == n * b - m * a
    ensures n * kb - m * ka == d * k
  {
  }

  lemma CrossScale(n: Vec, a: Vec, k: real)
    ensures Cross(n, Scale(a, k)) == Scale(Cross(n, a), k)
  {
    var b, c := Scale(a, k), Cross(n, a);
    ScaledDifference(n.y, n.z, a.y, a.z, k, b.y, b.z, c.x);
    ScaledDifference(n.z, n.x, a.z, a.x, k, b.z, b.x, c.y);
    ScaledDifference(n.x, n.y, a.x, a.y, k, b.x, b.y, c.z);
  }

  lemma CrossLinear(n: Vec, a: Vec, b: Vec, k: real)
    ensures Cross(n, Add(a, b)) == Add(Cross(n, a), Cross(n, b))
    ensures Cross(n, Scale(a, k)) == Scale(Cross(n, a), k)
    ensures Cross(n, n) == ORIGIN
  {
    CrossAdd(n, a, b);
    CrossScale(n, a, k);
  }

  lemma UnitCrossTwice(n: Vec, v: Vec)
    requires Norm2(n) == 1.0
    ensures Cross(n, Cross(n, v)) == Sub(Scale(n, Dot(v, n)), v)
  {
    CrossTwice(n, v);
    assert Scale(v, Norm2(n)) == v;
  }

  lemma CrossTwice(n: Vec, v: Vec)
    ensures Cross(n, Cross(n, v)) == Sub(Scale(n, Dot(v, n)), Scale(v, Norm2(n)))
  {
    var x, d, m := Cross(n, v), Dot(v, n), Norm2(n);
    CrossTwiceCoordinate(n.x, n.y, n.z, v.x, v.y, v.z, x.z, x.y, d, m);
    CrossTwiceCoordinate(n.y, n.z, n.x, v.y, v.z, v.x, x.x, x.z, d, m);
    CrossTwiceCoordinate(n.z, n.x, n.y, v.z, v.x, v.y, x.y, x.x, d, m);
  }

  lemma CrossTwiceCoordinate(n0: real, n1: real, n2: real, v0: real, v1: real, v2: real,
                             a: real, b: real, d: real, m: real)
    requires a == n0 * v1 - n1 * v0 && b == n2 * v0 - n0 * v2
    requires d == v0 * n0 + v1 * n1 + v2 * n2 && m == n0 * n0 + n1 * n1 + n2 * n2
    ensures n1 * a - n2 * b == n0 * d - v0 * m
  {
  }

  lemma CancelScale(a: Vec, b: Vec, k: real)
    requires k != 0.0 && Scale(a, k) == Scale(b, k)
    ensures a == b
  {
    Cancel(k, a.x, b.x);
    Cancel(k, a.y, b.y);
    Cancel(k, a.z, b.z);
  }

  lemma NegatedScale(a: Vec, k: real)
    ensures Neg(Scale(a, k)) == Scale(Neg(a), k)
  {
  }
}
