/** The view frustum: its view volume, and the four side planes derived from
    the field of view. */
module Frustums {
  import opened Reals
  import opened Vectors

  datatype Side = Near | Far | Top | Bottom | Left | Right

  /** The normal of a clip plane stored as four coefficients. */
  function Normal(plane: seq<real>): Vec
    requires |plane| == 4
  {
    Vec(plane[0], plane[1], plane[2])
  }

  ghost predicate PositiveMultiple(n: Vec, t: Vec) {
    exists k: real :: 0.0 < k && n == Scale(t, k)
  }

  /** A plane through the eye whose unit normal points along `t`. */
  ghost predicate UnitPlane(plane: seq<real>, t: Vec) {
    && |plane| == 4 && plane[3] == 0.0
    && Norm2(Normal(plane)) == 1.0
    && PositiveMultiple(Normal(plane), t)
  }

  /** The fields of view enter every computation through the tangents of their
      halves, so those are what the model stores. */
  class Frustum {
    var zNear: real
    var zFar: real
    var tanX: real
    var tanY: real
    const leftPlane: array<real>
    const rightPlane: array<real>
    const topPlane: array<real>
    const botPlane: array<real>

    ghost predicate Valid()
      reads this
    {
      && 0.0 < zNear < zFar && 0.0 < tanX && 0.0 < tanY
      && leftPlane.Length == rightPlane.Length == topPlane.Length == botPlane.Length == 4
      && leftPlane != rightPlane && leftPlane != topPlane && leftPlane != botPlane
      && rightPlane != topPlane && rightPlane != botPlane && topPlane != botPlane
    }

    /** The half-space that one side of the view volume asks for. */
    ghost predicate Within(side: Side, p: Vec)
      reads this
    {
      match side
      case Near => p.z <= -zNear
      case Far => -zFar <= p.z
      case Top => p.y <= -p.z * tanY
      case Bottom => -(-p.z * tanY) <= p.y
      case Left => -(-p.z * tanX) <= p.x
      case Right => p.x <= -p.z * tanX
    }

    /** The truncated pyramid that is visible: it opens down the negative z
        axis from a tip at the origin. */
    ghost predicate InView(p: Vec)
      reads this
    {
      && -zFar <= p.z <= -zNear
      && -(-p.z * tanX) <= p.x <= -p.z * tanX
      && -(-p.z * tanY) <= p.y <= -p.z * tanY
    }

    /** Each side plane has a unit normal that points into the view volume. */
    ghost predicate PlanesDerived()
      requires Valid()
      reads this, leftPlane, rightPlane, topPlane, botPlane
    {
      && UnitPlane(leftPlane[..], LeftInward(tanX)) && UnitPlane(rightPlane[..], RightInward(tanX))
      && UnitPlane(topPlane[..], TopInward(tanY)) && UnitPlane(botPlane[..], BotInward(tanY))
    }

    constructor (sqrt: real -> real, tanHalfFovY: real, aspect: real, zNear: real, zFar: real)
      requires IsRoot(sqrt)
      requires 0.0 < tanHalfFovY && 0.0 < aspect && 0.0 < zNear < zFar
      ensures Valid() && PlanesDerived()
      ensures this.zNear == zNear && this.zFar == zFar
      ensures tanY == tanHalfFovY && tanX == tanHalfFovY * aspect
    {
      tanY := tanHalfFovY;
      tanX := tanHalfFovY * aspect;
      this.zNear := zNear;
      this.zFar := zFar;
      leftPlane := new real[4];
      rightPlane := new real[4];
      topPlane := new real[4];
      botPlane := new real[4];
      new;
      Update(sqrt);
    }

    /** Derives the side planes from the corners of the near rectangle. */
    method Update(sqrt: real -> real)
      requires IsRoot(sqrt) && Valid()
      modifies leftPlane, rightPlane, topPlane, botPlane
      ensures PlanesDerived()
    {
      hide Norm2, Dot, Cross, Normalize, Length, Scale, Product;
      var n, cx, cy := zNear, tanX, tanY;
      var nl := -n * cx;
      var nr := -nl;
      var nt := n * cy;
      var nb := -nt;

      var tmp0 := Vec(nl, nb, -n);
      var tmp1 := Vec(nl, nt, -n);
      LeftCorners(n, cx, cy);
      SideNormals(sqrt, n, cx, cy, Cross(tmp0, tmp1));
      var v := Normalize(sqrt, Cross(tmp0, tmp1));
      leftPlane[0], leftPlane[1], leftPlane[2], leftPlane[3] := v.x, v.y, v.z, 0.0;
      rightPlane[0], rightPlane[1], rightPlane[2], rightPlane[3] := -leftPlane[0], 0.0, leftPlane[2], 0.0;

      tmp0 := Vec(nl, nt, -n);
      tmp1 := Vec(nr, nt, -n);
      TopCorners(n, cx, cy);
      CapNormals(sqrt, n, cx, cy, Cross(tmp0, tmp1));
      var w := Normalize(sqrt, Cross(tmp0, tmp1));
      topPlane[0], topPlane[1], topPlane[2], topPlane[3] := w.x, w.y, w.z, 0.0;
      botPlane[0], botPlane[1], botPlane[2], botPlane[3] := 0.0, -topPlane[1], topPlane[2], 0.0;

      assert Normal(leftPlane[..]) == v && Normal(rightPlane[..]) == Vec(-v.x, 0.0, v.z);
      assert Normal(topPlane[..]) == w && Normal(botPlane[..]) == Vec(0.0, -w.y, w.z);
    }
  }

  function LeftInward(t: real): Vec { Vec(1.0, 0.0, -t) }
  function RightInward(t: real): Vec { Vec(-1.0, 0.0, -t) }
  function TopInward(t: real): Vec { Vec(0.0, -1.0, -t) }
  function BotInward(t: real): Vec { Vec(0.0, 1.0, -t) }

  /** Normalizing a positive multiple of `t` gives a positive multiple of `t`. */
  lemma NormalizeMultiple(sqrt: real -> real, c: Vec, t: Vec, k: real) returns (m: real)
    requires IsRoot(sqrt) && 0.0 < k && t != ORIGIN && c == Scale(t, k)
    ensures 0.0 < m && Normalize(sqrt, c) == Scale(t, m)
    ensures Norm2(Normalize(sqrt, c)) == 1.0
  {
    ScaleNonZero(t, k);
    var len := Length(sqrt, c);
    m := k / len;
    QuotientScale(t, k, len);
  }

  lemma ScaleNonZero(t: Vec, k: real)
    requires k != 0.0 && t != ORIGIN
    ensures Scale(t, k) != ORIGIN
  {
  }

  lemma QuotientScale(t: Vec, k: real, len: real)
    requires 0.0 < k && 0.0 < len
    ensures 0.0 < k / len && Div(Scale(t, k), len) == Scale(t, k / len)
  {
  }

  lemma MirroredNormal(n: Vec, t: Vec, n': Vec, t': Vec)
    requires Norm2(n) == 1.0 && PositiveMultiple(n, t)
    requires (n' == Vec(-n.x, n.y, n.z) && t' == Vec(-t.x, t.y, t.z))
          || (n' == Vec(n.x, -n.y, n.z) && t' == Vec(t.x, -t.y, t.z))
    ensures Norm2(n') == 1.0 && PositiveMultiple(n', t')
  {
    var k: real :| 0.0 < k && n == Scale(t, k);
    assert n' == Scale(t', k);
  }

  lemma LeftCorners(n: real, cx: real, cy: real)
    ensures Cross(Vec(-n * cx, -(n * cy), -n), Vec(-n * cx, n * cy, -n))
         == Scale(LeftInward(cx), 2.0 * Product(n, Product(n, cy)))
  {
  }

  lemma TopCorners(n: real, cx: real, cy: real)
    ensures Cross(Vec(-n * cx, n * cy, -n), Vec(-(-n * cx), n * cy, -n))
         == Scale(TopInward(cy), 2.0 * Product(n, Product(n, cx)))
  {
  }

  lemma SideNormals(sqrt: real -> real, n: real, cx: real, cy: real, c: Vec)
    requires IsRoot(sqrt) && 0.0 < n && 0.0 < cx && 0.0 < cy
    requires c == Scale(LeftInward(cx), 2.0 * Product(n, Product(n, cy)))
    ensures var v := Normalize(sqrt, c);
      && Norm2(v) == 1.0 && PositiveMultiple(v, LeftInward(cx))
      && Norm2(Vec(-v.x, 0.0, v.z)) == 1.0 && PositiveMultiple(Vec(-v.x, 0.0, v.z), RightInward(cx))
  {
    hide Norm2, Dot;
    ProductSign(n, cy);
    ProductSign(n, Product(n, cy));
    var m := NormalizeMultiple(sqrt, c, LeftInward(cx), 2.0 * Product(n, Product(n, cy)));
    var v := Normalize(sqrt, c);
    MirroredNormal(v, LeftInward(cx), Vec(-v.x, 0.0, v.z), RightInward(cx));
  }

  lemma CapNormals(sqrt: real -> real, n: real, cx: real, cy: real, c: Vec)
    requires IsRoot(sqrt) && 0.0 < n && 0.0 < cx && 0.0 < cy
    requires c == Scale(TopInward(cy), 2.0 * Product(n, Product(n, cx)))
    ensures var w := Normalize(sqrt, c);
      && Norm2(w) == 1.0 && PositiveMultiple(w, TopInward(cy))
      && Norm2(Vec(0.0, -w.y, w.z)) == 1.0 && PositiveMultiple(Vec(0.0, -w.y, w.z), BotInward(cy))
  {
    hide Norm2, Dot;
    ProductSign(n, cx);
    ProductSign(n, Product(n, cx));
    var m := NormalizeMultiple(sqrt, c, TopInward(cy), 2.0 * Product(n, Product(n, cx)));
    var w := Normalize(sqrt, c);
    MirroredNormal(w, TopInward(cy), Vec(0.0, -w.y, w.z), BotInward(cy));
  }

  /** A positive multiple of `t` bounds the same half-space as `t`. */
  lemma SameHalfSpace(n: Vec, t: Vec, p: Vec)
    requires PositiveMultiple(n, t)
    ensures 0.0 <= Dot(n, p) <==> 0.0 <= Dot(t, p)
  {
    hide Dot;
    var k: real :| 0.0 < k && n == Scale(t, k);
    DotScale(t, p, k, k);
    ProductSign(k, Dot(t, p));
  }

  lemma InViewBySides(f: Frustum, p: Vec)
    ensures f.InView(p) <==> forall side :: f.Within(side, p)
  {
    if forall side :: f.Within(side, p) {
      assert f.Within(Near, p) && f.Within(Far, p) && f.Within(Top, p) && f.Within(Bottom, p)
        && f.Within(Left, p) && f.Within(Right, p);
    }
  }

  /** The inward unit normal of one side. */
  function SideNormal(f: Frustum, side: Side): Vec
    requires f.Valid()
    reads f, f.leftPlane, f.rightPlane, f.topPlane, f.botPlane
  {
    match side
    case Near => Vec(0.0, 0.0, -1.0)
    case Far => Vec(0.0, 0.0, 1.0)
    case Top => Normal(f.topPlane[..])
    case Bottom => Normal(f.botPlane[..])
    case Left => Normal(f.leftPlane[..])
    case Right => Normal(f.rightPlane[..])
  }

  function SideOffset(f: Frustum, side: Side): real
    requires f.Valid()
    reads f, f.leftPlane, f.rightPlane, f.topPlane, f.botPlane
  {
    match side
    case Near => f.zNear
    case Far => -f.zFar
    case Top => f.topPlane[3]
    case Bottom => f.botPlane[3]
    case Left => f.leftPlane[3]
    case Right => f.rightPlane[3]
  }

  /** The planes that `Update` derives bound exactly the half-spaces of the view
      volume, with unit normals. */
  lemma SidePlanes(f: Frustum, side: Side, p: Vec)
    requires f.Valid() && f.PlanesDerived()
    ensures Norm2(SideNormal(f, side)) == 1.0
    ensures f.Within(side, p) <==> 0.0 <= Dot(SideNormal(f, side), p) - SideOffset(f, side)
  {
    hide Dot, Norm2, TopInward, BotInward, LeftInward, RightInward, PositiveMultiple;
    InwardDots(f.tanY, p);
    InwardDots(f.tanX, p);
    DepthDots(p);
    match side
    case Near =>
    case Far =>
    case Top => SameHalfSpace(Normal(f.topPlane[..]), TopInward(f.tanY), p);
    case Bottom => SameHalfSpace(Normal(f.botPlane[..]), BotInward(f.tanY), p);
    case Left => SameHalfSpace(Normal(f.leftPlane[..]), LeftInward(f.tanX), p);
    case Right => SameHalfSpace(Normal(f.rightPlane[..]), RightInward(f.tanX), p);
  }

  lemma InwardDots(tan: real, p: Vec)
    ensures Dot(TopInward(tan), p) == -p.z * tan - p.y
    ensures Dot(BotInward(tan), p) == -p.z * tan + p.y
    ensures Dot(LeftInward(tan), p) == -p.z * tan + p.x
    ensures Dot(RightInward(tan), p) == -p.z * tan - p.x
  {
  }

  lemma DepthDots(p: Vec)
    ensures Dot(Vec(0.0, 0.0, -1.0), p) == -p.z && Norm2(Vec(0.0, 0.0, -1.0)) == 1.0
    ensures Dot(Vec(0.0, 0.0, 1.0), p) == p.z && Norm2(Vec(0.0, 0.0, 1.0)) == 1.0
  {
  }
}
