/** Spherical interpolation between two rotations, over their quaternions. */
module Slerps {
  import opened Reals
  import opened Vectors
  import opened Matrices
  import opened TransformBuilder
  import opened Quaternions
  import opened AxisQuaternions

  /** The addition formulas. */
  ghost predicate AddsAngles(sin: real -> real, cos: real -> real) {
    forall a: real, b: real, s: real :: s == a + b ==>
      && sin(s) == Product(sin(a), cos(b)) + Product(cos(a), sin(b))
      && cos(s) == Product(cos(a), cos(b)) - Product(sin(a), sin(b))
  }

  function SumOfProducts(a: real, b: real, c: real, d: real, x: real, y: real, z: real, w: real): real {
    a * x + b * y + c * z + d * w
  }

  function Inner(p: Quat, q: Quat): real {
    SumOfProducts(p.x, p.y, p.z, p.w, q.x, q.y, q.z, q.w)
  }

  function Blend(p: Quat, q: Quat, a: real, b: real): Quat {
    Quat(p.x * a + q.x * b, p.y * a + q.y * b, p.z * a + q.z * b, p.w * a + q.w * b)
  }

  lemma BlendIdentity(px: real, py: real, pz: real, pw: real, qx: real, qy: real, qz: real, qw: real,
                      a: real, b: real)
    ensures SumOfSquares(px * a + qx * b, py * a + qy * b, pz * a + qz * b, pw * a + qw * b)
         == Product(Square(a), SumOfSquares(px, py, pz, pw))
            + Product(2.0 * SumOfProducts(px, py, pz, pw, qx, qy, qz, qw), Product(a, b))
            + Product(Square(b), SumOfSquares(qx, qy, qz, qw))
  {
  }

  lemma BlendSums(p: Quat, q: Quat, a: real, b: real, x: real, y: real, z: real, w: real)
    requires x == p.x * a + q.x * b && y == p.y * a + q.y * b && z == p.z * a + q.z * b && w == p.w * a + q.w * b
    ensures SumOfSquares(x, y, z, w)
         == Product(Square(a), SumOfSquares(p.x, p.y, p.z, p.w))
            + Product(2.0 * SumOfProducts(p.x, p.y, p.z, p.w, q.x, q.y, q.z, q.w), Product(a, b))
            + Product(Square(b), SumOfSquares(q.x, q.y, q.z, q.w))
  {
    hide *;
    BlendIdentity(p.x, p.y, p.z, p.w, q.x, q.y, q.z, q.w, a, b);
  }

  lemma BlendNorm(p: Quat, q: Quat, a: real, b: real)
    ensures Norm(Blend(p, q, a, b))
         == Product(Square(a), Norm(p)) + Product(2.0 * Inner(p, q), Product(a, b)) + Product(Square(b), Norm(q))
  {
    hide SumOfSquares, SumOfProducts, Product, Square;
    var n := Blend(p, q, a, b);
    BlendSums(p, q, a, b, n.x, n.y, n.z, n.w);
  }

  lemma UnitBlend(p: Quat, q: Quat, a: real, b: real)
    requires Norm(p) == 1.0 && Norm(q) == 1.0
    ensures Norm(Blend(p, q, a, b)) == Square(a) + Product(2.0 * Inner(p, q), Product(a, b)) + Square(b)
  {
    hide Norm, Inner, Blend, Square;
    BlendNorm(p, q, a, b);
  }

  /** Unit quaternions have an inner product of at most one, and of one only with
      themselves. */
  lemma UnitInner(p: Quat, q: Quat)
    requires Norm(p) == 1.0 && Norm(q) == 1.0
    ensures -1.0 <= Inner(p, q) <= 1.0
    ensures Inner(p, q) == 1.0 <==> p == q
  {
    hide Norm, Inner, Blend, Square, Product;
    UnitBlend(p, q, 1.0, -1.0);
    UnitBlend(p, q, 1.0, 1.0);
    Coefficients(Inner(p, q));
    Vanishes(Blend(p, q, 1.0, -1.0));
    Vanishes(Blend(p, q, 1.0, 1.0));
    BlendEnds(p, q);
    InnerIsNorm(p);
  }

  lemma Coefficients(i: real)
    ensures Square(1.0) == Square(-1.0) == 1.0
    ensures Product(2.0 * i, Product(1.0, -1.0)) == -2.0 * i && Product(2.0 * i, Product(1.0, 1.0)) == 2.0 * i
  {
  }

  lemma Vanishes(q: Quat)
    ensures 0.0 <= Norm(q)
    ensures Norm(q) == 0.0 <==> q == Quat(0.0, 0.0, 0.0, 0.0)
  {
    NormInSquares(q);
  }

  lemma BlendEnds(p: Quat, q: Quat)
    ensures Blend(p, q, 1.0, -1.0) == Quat(0.0, 0.0, 0.0, 0.0) <==> p == q
    ensures Blend(p, q, 1.0, 0.0) == p && Blend(p, q, 0.0, 1.0) == q
  {
  }

  lemma InnerIsNorm(p: Quat)
    ensures Inner(p, p) == Norm(p)
  {
  }

  lemma OppositeInner(p: Quat, q: Quat)
    ensures Inner(p, Opposite(q)) == -Inner(p, q)
  {
  }

  lemma OppositeNorm(q: Quat)
    ensures Norm(Opposite(q)) == Norm(q)
  {
  }

  lemma OppositeEntries(q: Quat)
    ensures var m, n := RotationOf(Opposite(q)), RotationOf(q);
      && m.r0.x == n.r0.x && m.r0.y == n.r0.y && m.r0.z == n.r0.z && m.r0.w == n.r0.w
      && m.r1.x == n.r1.x && m.r1.y == n.r1.y && m.r1.z == n.r1.z && m.r1.w == n.r1.w
      && m.r2.x == n.r2.x && m.r2.y == n.r2.y && m.r2.z == n.r2.z && m.r2.w == n.r2.w && m.r3 == n.r3
  {
  }

  lemma OppositeRotation(q: Quat)
    ensures RotationOf(Opposite(q)) == RotationOf(q)
  {
    hide *;
    OppositeEntries(q);
  }

  /** The quaternion of the same orientation that is on the same side as `p`. */
  function Nearer(p: Quat, q: Quat): Quat {
    if Inner(p, q) < 0.0 then Opposite(q) else q
  }

  lemma NearerInner(p: Quat, q: Quat)
    requires Norm(p) == 1.0 && Norm(q) == 1.0
    ensures var n := Nearer(p, q);
      && 0.0 <= Inner(p, n) <= 1.0 && Norm(n) == 1.0 && RotationOf(n) == RotationOf(q)
      && Inner(p, n) == (if Inner(p, q) < 0.0 then -Inner(p, q) else Inner(p, q))
      && (Inner(p, n) == 1.0 <==> p == n)
      && (Inner(p, n) == 0.0 <==> Inner(p, q) == 0.0)
  {
    hide Norm, Inner, Opposite, RotationOf;
    OppositeInner(p, q);
    OppositeNorm(q);
    OppositeRotation(q);
    UnitInner(p, Nearer(p, q));
  }

  /** The two coefficients for an angle `omega` between the quaternions. */
  function Share(sin: real -> real, omega: real, t: real): real
    requires sin(omega) != 0.0
  {
    sin(t * omega) / sin(omega)
  }

  lemma SineSum(sa: real, ca: real, sb: real, cb: real)
    requires Square(sa) + Square(ca) == 1.0 && Square(sb) + Square(cb) == 1.0
    ensures Square(sa) + Product(2.0 * (Product(ca, cb) - Product(sa, sb)), Product(sa, sb)) + Square(sb)
         == Square(Product(sa, cb) + Product(ca, sb))
  {
    SineSumIdentity(sa, ca, sb, cb);
    ProductSign(0.0, Square(sa));
  }

  lemma SineSumIdentity(sa: real, ca: real, sb: real, cb: real)
    ensures Square(sa) + Product(2.0 * (Product(ca, cb) - Product(sa, sb)), Product(sa, sb)) + Square(sb)
         == Square(Product(sa, cb) + Product(ca, sb))
            - Product(Square(sa) + Square(ca) - 1.0, Square(sb)) - Product(Square(sb) + Square(cb) - 1.0, Square(sa))
  {
  }

  /** The blend by the sines of the parts of the angle has length one. */
  lemma SineBlend(sin: real -> real, cos: real -> real, p: Quat, q: Quat, omega: real, t: real)
    requires IsTrig(sin, cos) && AddsAngles(sin, cos) && sin(omega) != 0.0
    requires Norm(p) == 1.0 && Norm(q) == 1.0 && Inner(p, q) == cos(omega)
    ensures Norm(Blend(p, q, Share(sin, omega, 1.0 - t), Share(sin, omega, t))) == 1.0
  {
    hide *;
    var rest := 1.0 - t;
    var a, b, s := Product(rest, omega), Product(t, omega), sin(omega);
    PartsOfAngle(omega, rest, t);
    AngleParts(sin, cos, omega, a, b);
    SineSum(sin(a), cos(a), sin(b), cos(b));
    ShareByProduct(sin, omega, rest, a);
    ShareByProduct(sin, omega, t, b);
    UnitBlend(p, q, sin(a) / s, sin(b) / s);
    DividedSquares(sin(a), sin(b), s, Inner(p, q));
  }

  lemma ShareOf(sin: real -> real, omega: real, t: real)
    requires sin(omega) != 0.0
    ensures Share(sin, omega, t) == sin(t * omega) / sin(omega)
  {
  }

  lemma DividedSquares(a: real, b: real, s: real, i: real)
    requires s != 0.0 && Square(a) + Product(2.0 * i, Product(a, b)) + Square(b) == Square(s)
    ensures Square(a / s) + Product(2.0 * i, Product(a / s, b / s)) + Square(b / s) == 1.0
  {
    var x, y := a / s, b / s;
    assert a == x * s && b == y * s;
    hide Square, Product;
    ScaledSquares(x, y, s, i);
    var n := Square(x) + Product(2.0 * i, Product(x, y)) + Square(y);
    assert Square(s) != 0.0;
    Cancel(Square(s), n, 1.0);
  }

  lemma ScaledSquares(x: real, y: real, s: real, i: real)
    ensures Square(x * s) + Product(2.0 * i, Product(x * s, y * s)) + Square(y * s)
         == Square(s) * (Square(x) + Product(2.0 * i, Product(x, y)) + Square(y))
  {
  }

  /** The interpolated quaternion: linear exactly between quaternions at a right
      angle, which the code takes for close ones. */
  function Interpolated(sin: real -> real, acos: real -> real, p: Quat, q: Quat, t: real): Quat
    requires var c := Inner(p, Nearer(p, q)); c != 0.0 ==> sin(acos(c)) != 0.0
  {
    var n := Nearer(p, q);
    var c := Inner(p, n);
    if c != 0.0 then Blend(p, n, Share(sin, acos(c), 1.0 - t), Share(sin, acos(c), t))
    else Blend(p, n, 1.0 - t, t)
  }

  lemma SineOfAngle(sin: real -> real, cos: real -> real, acos: real -> real, p: Quat, q: Quat)
    requires IsTrig(sin, cos) && IsArcCosine(acos, sin, cos) && Norm(p) == 1.0 && Norm(q) == 1.0
    ensures var c := Inner(p, Nearer(p, q));
      cos(acos(c)) == c && (sin(acos(c)) == 0.0 <==> q == p || q == Opposite(p))
  {
    var n := Nearer(p, q);
    var c := Inner(p, n);
    assert q == p || q == Opposite(p) ==> n == p || n == Opposite(p);
    hide Norm, Inner, RotationOf;
    NearerInner(p, q);
    ArcCosine(sin, cos, acos, c);
    OppositeInner(p, p);
    InnerIsNorm(p);
  }

  /** Between different orientations the interpolated quaternion has length one
      exactly when the quaternions are not at a right angle or it is one end. */
  lemma InterpolatedUnitExactly(sin: real -> real, cos: real -> real, acos: real -> real, p: Quat, q: Quat, t: real)
    requires IsTrig(sin, cos) && IsArcCosine(acos, sin, cos) && AddsAngles(sin, cos)
    requires Norm(p) == 1.0 && Norm(q) == 1.0 && q != p && q != Opposite(p)
    ensures sin(acos(Inner(p, Nearer(p, q)))) != 0.0
    ensures Norm(Interpolated(sin, acos, p, q, t)) == 1.0 <==> Inner(p, q) != 0.0 || t == 0.0 || t == 1.0
  {
    var n := Nearer(p, q);
    var c := Inner(p, n);
    SineOfAngle(sin, cos, acos, p, q);
    hide Norm, Inner, Nearer, Blend, Share, RotationOf, IsTrig, IsArcCosine, AddsAngles;
    NearerInner(p, q);
    if c != 0.0 {
      SineBlend(sin, cos, p, n, acos(c), t);
    } else {
      UnitBlend(p, n, 1.0 - t, t);
      LinearLength(t, Product(1.0 - t, t));
    }
  }

  lemma LinearLength(t: real, k: real)
    ensures Square(1.0 - t) + Product(2.0 * 0.0, k) + Square(t) == 1.0 <==> t == 0.0 || t == 1.0
  {
    assert Square(1.0 - t) + Square(t) - 1.0 == 2.0 * Product(t, t - 1.0);
    hide Square;
    if t != 0.0 && t != 1.0 {
      ProductSign(t, t - 1.0);
      ProductSign(-t, 1.0 - t);
    }
  }

  /** The interpolation begins and ends with the two orientations. */
  lemma InterpolatedEnds(sin: real -> real, cos: real -> real, acos: real -> real, p: Quat, q: Quat)
    requires IsTrig(sin, cos) && IsArcCosine(acos, sin, cos)
    requires Norm(p) == 1.0 && Norm(q) == 1.0 && q != p && q != Opposite(p)
    ensures sin(acos(Inner(p, Nearer(p, q)))) != 0.0
    ensures Interpolated(sin, acos, p, q, 0.0) == p
    ensures RotationOf(Interpolated(sin, acos, p, q, 1.0)) == RotationOf(q)
  {
    var n := Nearer(p, q);
    var c := Inner(p, n);
    SineOfAngle(sin, cos, acos, p, q);
    assert sin(0.0) == 0.0;
    hide Norm, Inner, Nearer, Blend, RotationOf, IsTrig, IsArcCosine;
    NearerInner(p, q);
    BlendEnds(p, n);
    if c != 0.0 {
      WholeShare(sin, acos(c), 0.0, 1.0);
    }
  }

  lemma WholeShare(sin: real -> real, omega: real, none: real, all: real)
    requires sin(omega) != 0.0 && sin(0.0) == 0.0 && none == 0.0 && all == 1.0
    ensures Share(sin, omega, none) == 0.0 && Share(sin, omega, all) == 1.0
  {
    assert none * omega == 0.0 && all * omega == omega;
  }

  lemma InnerOfBlend(p: Quat, q: Quat, a: real, b: real)
    requires Norm(p) == 1.0 && Norm(q) == 1.0
    ensures Inner(p, Blend(p, q, a, b)) == a + Product(Inner(p, q), b)
    ensures Inner(q, Blend(p, q, a, b)) == Product(Inner(p, q), a) + b
  {
    hide SumOfProducts, SumOfSquares, Product;
    var n := Blend(p, q, a, b);
    InnerSums(p, q, a, b, n.x, n.y, n.z, n.w);
    InnerSums(q, p, b, a, n.x, n.y, n.z, n.w);
    InnerSymmetric(p, q);
    InnerIsNorm(p);
    InnerIsNorm(q);
    TimesOne(a);
    TimesOne(b);
  }

  lemma InnerSymmetric(p: Quat, q: Quat)
    ensures Inner(p, q) == Inner(q, p)
  {
  }

  lemma TimesOne(x: real)
    ensures Product(1.0, x) == x
  {
  }

  lemma InnerSums(p: Quat, q: Quat, a: real, b: real, x: real, y: real, z: real, w: real)
    requires x == p.x * a + q.x * b && y == p.y * a + q.y * b && z == p.z * a + q.z * b && w == p.w * a + q.w * b
    ensures SumOfProducts(p.x, p.y, p.z, p.w, x, y, z, w)
         == Product(SumOfProducts(p.x, p.y, p.z, p.w, p.x, p.y, p.z, p.w), a)
            + Product(SumOfProducts(p.x, p.y, p.z, p.w, q.x, q.y, q.z, q.w), b)
  {
    hide *;
    InnerIdentity(p.x, p.y, p.z, p.w, q.x, q.y, q.z, q.w, a, b);
  }

  lemma InnerIdentity(px: real, py: real, pz: real, pw: real, qx: real, qy: real, qz: real, qw: real,
                      a: real, b: real)
    ensures SumOfProducts(px, py, pz, pw, px * a + qx * b, py * a + qy * b, pz * a + qz * b, pw * a + qw * b)
         == Product(SumOfProducts(px, py, pz, pw, px, py, pz, pw), a)
            + Product(SumOfProducts(px, py, pz, pw, qx, qy, qz, qw), b)
  {
  }

  lemma SharesOfAngle(sa: real, ca: real, sb: real, cb: real, s: real, c: real)
    requires s != 0.0 && s == Product(sa, cb) + Product(ca, sb) && c == Product(ca, cb) - Product(sa, sb)
    requires Square(sa) + Square(ca) == 1.0 && Square(sb) + Square(cb) == 1.0
    ensures sa / s + Product(c, sb / s) == cb
    ensures Product(c, sa / s) + sb / s == ca
  {
    var x, y := sa / s, sb / s;
    assert x * s == sa && y * s == sb;
    SharesIdentity(sa, ca, sb, cb);
    assert Product(sb, Square(sa) + Square(ca) - 1.0) == 0.0 && Product(sa, Square(sb) + Square(cb) - 1.0) == 0.0;
    hide Product, Square;
    CancelShare(x, y, s, c, sa, sb, cb);
    CancelShare(y, x, s, c, sb, sa, ca);
  }

  lemma CancelShare(x: real, y: real, s: real, c: real, sa: real, sb: real, k: real)
    requires s != 0.0 && x * s == sa && y * s == sb && sa + Product(c, sb) == Product(k, s)
    ensures x + Product(c, y) == k
  {
    assert s * (x + Product(c, y)) == s * k;
    Cancel(s, x + Product(c, y), k);
  }

  lemma SharesIdentity(sa: real, ca: real, sb: real, cb: real)
    ensures sa + Product(Product(ca, cb) - Product(sa, sb), sb)
         == Product(cb, Product(sa, cb) + Product(ca, sb)) - Product(sa, Square(sb) + Square(cb) - 1.0)
    ensures sb + Product(Product(ca, cb) - Product(sa, sb), sa)
         == Product(ca, Product(sa, cb) + Product(ca, sb)) - Product(sb, Square(sa) + Square(ca) - 1.0)
  {
  }

  /** Between different orientations that are not at a right angle, the interpolated
      quaternion is at the share `t` of the angle from the first and at the rest of it
      from the second, so that the turn is uniform. */
  lemma InterpolatedAngles(sin: real -> real, cos: real -> real, acos: real -> real, p: Quat, q: Quat, t: real)
    requires IsTrig(sin, cos) && IsArcCosine(acos, sin, cos) && AddsAngles(sin, cos)
    requires Norm(p) == 1.0 && Norm(q) == 1.0 && q != p && q != Opposite(p) && Inner(p, q) != 0.0
    ensures sin(acos(Inner(p, Nearer(p, q)))) != 0.0
    ensures var omega := acos(Inner(p, Nearer(p, q)));
      && Inner(p, Interpolated(sin, acos, p, q, t)) == cos(Product(t, omega))
      && Inner(Nearer(p, q), Interpolated(sin, acos, p, q, t)) == cos(Product(1.0 - t, omega))
  {
    hide *;
    var n := Nearer(p, q);
    var omega, rest := acos(Inner(p, n)), 1.0 - t;
    SineOfAngle(sin, cos, acos, p, q);
    NearerInner(p, q);
    InterpolatedParts(sin, acos, p, q, t);
    BlendAngles(sin, cos, p, n, omega, rest, t);
  }

  lemma BlendAngles(sin: real -> real, cos: real -> real, p: Quat, n: Quat, omega: real, rest: real, t: real)
    requires IsTrig(sin, cos) && AddsAngles(sin, cos) && rest == 1.0 - t && sin(omega) != 0.0
    requires Norm(p) == 1.0 && Norm(n) == 1.0 && Inner(p, n) == cos(omega)
    ensures var b := Blend(p, n, Share(sin, omega, rest), Share(sin, omega, t));
      Inner(p, b) == cos(Product(t, omega)) && Inner(n, b) == cos(Product(rest, omega))
  {
    hide *;
    var x, y := Product(rest, omega), Product(t, omega);
    PartsOfAngle(omega, rest, t);
    AngleParts(sin, cos, omega, x, y);
    ShareByProduct(sin, omega, rest, x);
    ShareByProduct(sin, omega, t, y);
    SharesOfAngle(sin(x), cos(x), sin(y), cos(y), sin(omega), cos(omega));
    InnerOfBlend(p, n, Share(sin, omega, rest), Share(sin, omega, t));
  }

  lemma ShareByProduct(sin: real -> real, omega: real, t: real, a: real)
    requires sin(omega) != 0.0 && a == Product(t, omega)
    ensures Share(sin, omega, t) == sin(a) / sin(omega)
  {
  }

  lemma PartsOfAngle(omega: real, rest: real, t: real)
    requires rest == 1.0 - t
    ensures omega == Product(rest, omega) + Product(t, omega)
  {
  }

  lemma AngleParts(sin: real -> real, cos: real -> real, omega: real, a: real, b: real)
    requires IsTrig(sin, cos) && AddsAngles(sin, cos) && omega == a + b
    ensures Square(sin(a)) + Square(cos(a)) == 1.0 && Square(sin(b)) + Square(cos(b)) == 1.0
    ensures sin(omega) == Product(sin(a), cos(b)) + Product(cos(a), sin(b))
    ensures cos(omega) == Product(cos(a), cos(b)) - Product(sin(a), sin(b))
  {
    hide Square, Product;
    AngleSums(sin, cos, omega, a, b);
    hide AddsAngles;
  }

  lemma AngleSums(sin: real -> real, cos: real -> real, omega: real, a: real, b: real)
    requires AddsAngles(sin, cos) && omega == a + b
    ensures sin(omega) == Product(sin(a), cos(b)) + Product(cos(a), sin(b))
    ensures cos(omega) == Product(cos(a), cos(b)) - Product(sin(a), sin(b))
  {
    hide Product;
  }

  /** Interpolates between two rotations.  There is no result between a rotation and
      itself, and a rotation by the interpolated quaternion wherever that is a unit
      and not (0, 0, 0, -1). */
  method Slerp(sin: real -> real, cos: real -> real, acos: real -> real, sqrt: real -> real,
               from: Rotation, to: Rotation, t: real)
    returns (r: Turning)
    requires IsTrig(sin, cos) && DoublesAngles(sin, cos) && AddsAngles(sin, cos)
    requires IsArcCosine(acos, sin, cos) && IsRoot(sqrt)
    requires Norm2(from.axis) == 1.0 && Norm2(to.axis) == 1.0
    ensures var p, q := QuatOf(sin, cos, from), QuatOf(sin, cos, to);
      if q == p || q == Opposite(p) then r == Undefined
      else
        && sin(acos(Inner(p, Nearer(p, q)))) != 0.0
        && var n := Interpolated(sin, acos, p, q, t);
        && IsTurnOf(sin, cos, sqrt, r, n)
        && (Inner(p, q) != 0.0 || t == 0.0 || t == 1.0 ==>
            && (r == Undefined <==> n.w == -1.0)
            && (r.Turning? ==> Norm2(r.rotation.axis) == 1.0 && RotationMat(sin, cos, r.rotation) == RotationOf(n)))
        && (t == 0.0 && r.Turning? ==> RotationMat(sin, cos, r.rotation) == RotationMat(sin, cos, from))
        && (t == 1.0 && r.Turning? ==> RotationMat(sin, cos, r.rotation) == RotationMat(sin, cos, to))
  {
    hide *;
    var fromQuat, toQuat := QuatOf(sin, cos, from), QuatOf(sin, cos, to);
    QuatOfRotates(sin, cos, from);
    QuatOfRotates(sin, cos, to);
    SineOfAngle(sin, cos, acos, fromQuat, toQuat);
    NearerParts(fromQuat, toQuat);

    var cosom := Inner(fromQuat, toQuat);
    var to1 := toQuat;
    if cosom < 0.0 {
      cosom := -cosom;
      to1 := Opposite(toQuat);
    }
    var scale0, scale1 := 1.0 - t, t;
    if cosom != 0.0 {
      var omega := acos(cosom);
      var sinom := sin(omega);
      if sinom == 0.0 {
        return Undefined;
      }
      var rest := scale0;
      ShareOf(sin, omega, rest);
      ShareOf(sin, omega, t);
      scale0 := sin(rest * omega) / sinom;
      scale1 := sin(t * omega) / sinom;
    } else if toQuat == fromQuat || toQuat == Opposite(fromQuat) {
      NotAcross(fromQuat);
      assert false;
    }
    InterpolatedParts(sin, acos, fromQuat, toQuat, t);
    InterpolatedUnitExactly(sin, cos, acos, fromQuat, toQuat, t);
    assert to1 == Nearer(fromQuat, toQuat) && cosom == Inner(fromQuat, to1);
    assert Blend(fromQuat, to1, scale0, scale1) == Interpolated(sin, acos, fromQuat, toQuat, t);
    InterpolatedEnds(sin, cos, acos, fromQuat, toQuat);
    r := MakeRotation(sin, cos, acos, sqrt, Blend(fromQuat, to1, scale0, scale1));
  }

  lemma NearerParts(p: Quat, q: Quat)
    ensures Nearer(p, q) == if Inner(p, q) < 0.0 then Opposite(q) else q
    ensures Inner(p, Nearer(p, q)) == if Inner(p, q) < 0.0 then -Inner(p, q) else Inner(p, q)
  {
    OppositeInner(p, q);
    hide Inner, Opposite;
  }

  lemma NotAcross(p: Quat)
    requires Norm(p) == 1.0
    ensures Inner(p, p) != 0.0 && Inner(p, Opposite(p)) != 0.0
  {
    OppositeInner(p, p);
    InnerIsNorm(p);
  }

  lemma InterpolatedParts(sin: real -> real, acos: real -> real, p: Quat, q: Quat, t: real)
    requires var c := Inner(p, Nearer(p, q)); c != 0.0 ==> sin(acos(c)) != 0.0
    ensures var n := Nearer(p, q);
      var c := Inner(p, n);
      Interpolated(sin, acos, p, q, t)
      == if c != 0.0 then Blend(p, n, Share(sin, acos(c), 1.0 - t), Share(sin, acos(c), t)) else Blend(p, n, 1.0 - t, t)
  {
    hide Inner, Nearer, Blend, Share;
  }

  /** Between quaternions at a right angle the interpolated one is too short, half way
      by one half. */
  lemma InterpolatedAcross(sin: real -> real, acos: real -> real, p: Quat, q: Quat, t: real)
    requires Norm(p) == 1.0 && Norm(q) == 1.0 && Inner(p, q) == 0.0
    ensures Inner(p, Nearer(p, q)) == 0.0
    ensures Norm(Interpolated(sin, acos, p, q, t)) == Square(1.0 - t) + Square(t)
    ensures Inner(p, Interpolated(sin, acos, p, q, t)) == 1.0 - t && Inner(q, Interpolated(sin, acos, p, q, t)) == t
  {
    hide Norm, Inner, Blend, Square;
    UnitBlend(p, q, 1.0 - t, t);
    InnerOfBlend(p, q, 1.0 - t, t);
  }

  /** Such are those of no turn and of a half turn, about any axis. */
  lemma HalfTurnIsAcross(sin: real -> real, cos: real -> real, from: Rotation, to: Rotation)
    requires sin(from.angle / 2.0) == 0.0 && cos(to.angle / 2.0) == 0.0
    ensures Inner(QuatOf(sin, cos, from), QuatOf(sin, cos, to)) == 0.0
  {
  }
}
