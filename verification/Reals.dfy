/** Order and cancellation facts about products of reals.  Each is stated over
    distinct variables, so that its callers can instantiate it with equal ones. */
module Reals {

  function Product(a: real, b: real): (p: real)
    ensures p == a * b
  {
    a * b
  }

  lemma ProductSign(a: real, b: real)
    ensures 0.0 < a && 0.0 < b ==> 0.0 < Product(a, b)
    ensures 0.0 <= a && 0.0 <= b ==> 0.0 <= Product(a, b)
    ensures a < 0.0 && b < 0.0 ==> 0.0 < Product(a, b)
    ensures a < 0.0 && 0.0 < b ==> Product(a, b) < 0.0
    ensures 0.0 < a && b < 0.0 ==> Product(a, b) < 0.0
  {
  }

  function Square(x: real): (s: real)
    ensures s == x * x
    ensures 0.0 <= s
    ensures s == 0.0 <==> x == 0.0
  {
    ProductSign(x, x);
    Product(x, x)
  }

  lemma Cancel(k: real, x: real, y: real)
    requires k != 0.0 && k * x == k * y
    ensures x == y
  {
  }

  lemma CancelProduct(k: real, m: real, d: real, p: real)
    requires k != 0.0 && m != 0.0
    requires p == k * m && p == k * m * d
    ensures d == 1.0
  {
  }

  lemma MulMonotone(a: real, b: real, c: real, d: real)
    requires 0.0 <= a <= b && 0.0 <= c <= d
    ensures a * c <= b * d
    ensures Product(a, c) <= Product(b, d)
  {
    var ac, bc, bd := a * c, b * c, b * d;
    assert ac <= bc;
  }

  /** On the non-negative reals the order of the squares is the order. */
  lemma SquareOrder(x: real, y: real)
    requires 0.0 <= x && 0.0 <= y
    ensures x <= y <==> Square(x) <= Square(y)
    ensures x < y <==> Square(x) < Square(y)
  {
    if x < y {
      ProductSign(y - x, y + x);
      SquareDifference(y, x);
    } else if y < x {
      ProductSign(x - y, x + y);
      SquareDifference(x, y);
    }
  }

  lemma SquareDifference(x: real, y: real)
    ensures Square(x) - Square(y) == Product(x - y, x + y)
  {
  }

  lemma SquareBound(x: real, y: real)
    requires 0.0 <= y && Square(x) <= Square(y)
    ensures -y <= x <= y
  {
    if 0.0 <= x {
      SquareOrder(x, y);
    } else {
      assert Square(-x) == Square(x);
      SquareOrder(-x, y);
    }
  }

  lemma UnitSquare(w: real)
    ensures Square(w) == 1.0 <==> w == 1.0 || w == -1.0
  {
    SquareDifference(w, 1.0);
    ProductSign(w - 1.0, w + 1.0);
    ProductSign(w + 1.0, w - 1.0);
  }
}
