/** The ball that encloses a list of points: a seed centred between the two most
    distant extreme points, extended by every point in turn. */
module Enclosure {
  import opened Reals
  import opened Vectors
  import opened Balls

  datatype Axis = X | Y | Z

  function Coord(axis: Axis, p: Vec): real {
    match axis
    case X => p.x
    case Y => p.y
    case Z => p.z
  }

  /** The first point of least coordinate. */
  function Lowest(axis: Axis, points: seq<Vec>): (p: Vec)
    requires |points| > 0
    ensures p in points
    ensures forall q :: q in points ==> Coord(axis, p) <= Coord(axis, q)
  {
    var n := |points| - 1;
    if n == 0 then points[0]
    else
      assert points == points[..n] + [points[n]];
      var p := Lowest(axis, points[..n]);
      if Coord(axis, points[n]) < Coord(axis, p) then points[n] else p
  }

  /** The first point of greatest coordinate. */
  function Highest(axis: Axis, points: seq<Vec>): (p: Vec)
    requires |points| > 0
    ensures p in points
    ensures forall q :: q in points ==> Coord(axis, q) <= Coord(axis, p)
  {
    var n := |points| - 1;
    if n == 0 then points[0]
    else
      assert points == points[..n] + [points[n]];
      var p := Highest(axis, points[..n]);
      if Coord(axis, p) < Coord(axis, points[n]) then points[n] else p
  }

  function Span2(axis: Axis, points: seq<Vec>): real
    requires |points| > 0
  {
    Norm2(Sub(Highest(axis, points), Lowest(axis, points)))
  }

  /** The axis whose two extreme points are farthest apart, the first of them
      when several are. */
  function WidestAxis(points: seq<Vec>): Axis
    requires |points| > 0
  {
    if Span2(Y, points) > Span2(X, points) then
      if Span2(Z, points) > Span2(Y, points) then Z else Y
    else
      if Span2(Z, points) > Span2(X, points) then Z else X
  }

  predicate Before(a: Axis, b: Axis) {
    (a == X && b != X) || (a == Y && b == Z)
  }

  /** No other axis is wider, and none that comes before as wide. */
  lemma WidestAxisIsWidest(points: seq<Vec>, other: Axis)
    requires |points| > 0
    ensures Span2(other, points) <= Span2(WidestAxis(points), points)
    ensures Before(other, WidestAxis(points)) ==> Span2(other, points) < Span2(WidestAxis(points), points)
  {
    hide Span2;
  }

  lemma OnePoint(points: seq<Vec>)
    requires |points| > 0
    ensures forall axis :: Lowest(axis, points[..1]) == points[0] == Highest(axis, points[..1])
  {
    assert points[..1] == [points[0]];
  }

  lemma ExtremesOfPrefix(axis: Axis, points: seq<Vec>, i: nat)
    requires 1 <= i < |points|
    ensures var low, high, p := Lowest(axis, points[..i]), Highest(axis, points[..i]), points[i];
      && Lowest(axis, points[..i + 1]) == (if Coord(axis, p) < Coord(axis, low) then p else low)
      && Highest(axis, points[..i + 1]) == (if Coord(axis, high) < Coord(axis, p) then p else high)
  {
    assert points[..i + 1][..i] == points[..i];
  }

  /** Finds the two most distant of the six extreme points. */
  method PickWidestPair(points: seq<Vec>) returns (a: Vec, b: Vec)
    requires |points| > 0
    ensures a == Lowest(WidestAxis(points), points)
    ensures b == Highest(WidestAxis(points), points)
  {
    hide Norm2, Sub, Dot, Lowest, Highest;
    OnePoint(points);
    var minX, minY, minZ := points[0], points[0], points[0];
    var maxX, maxY, maxZ := points[0], points[0], points[0];
    for i := 1 to |points|
      invariant minX == Lowest(X, points[..i]) && maxX == Highest(X, points[..i])
      invariant minY == Lowest(Y, points[..i]) && maxY == Highest(Y, points[..i])
      invariant minZ == Lowest(Z, points[..i]) && maxZ == Highest(Z, points[..i])
    {
      var p := points[i];
      ExtremesOfPrefix(X, points, i);
      ExtremesOfPrefix(Y, points, i);
      ExtremesOfPrefix(Z, points, i);
      if p.x < minX.x { minX := p; }
      if p.y < minY.y { minY := p; }
      if p.z < minZ.z { minZ := p; }
      if p.x > maxX.x { maxX := p; }
      if p.y > maxY.y { maxY := p; }
      if p.z > maxZ.z { maxZ := p; }
    }
    assert points[..|points|] == points;

    var dx := Norm2(Sub(maxX, minX));
    var dy := Norm2(Sub(maxY, minY));
    var dz := Norm2(Sub(maxZ, minZ));
    a, b := minX, maxX;
    var maxSpanDist := dx;
    if dy > maxSpanDist {
      a, b := minY, maxY;
      maxSpanDist := dy;
    }
    if dz > maxSpanDist {
      a, b := minZ, maxZ;
      maxSpanDist := dz;
    }
  }

  /** The ball that the points extend.  Its radius is the distance of its centre
      from the origin, not half of the span. */
  function Seed(sqrt: real -> real, points: seq<Vec>): Ball
    requires IsRoot(sqrt) && |points| > 0
  {
    var axis := WidestAxis(points);
    var center := Div(Add(Lowest(axis, points), Highest(axis, points)), 2.0);
    Ball(center, Length(sqrt, center))
  }

  function GrownByAll(sqrt: real -> real, b: Ball, points: seq<Vec>): Ball
    requires IsRoot(sqrt)
  {
    var n := |points| - 1;
    if n < 0 then b else Grown(sqrt, GrownByAll(sqrt, b, points[..n]), points[n])
  }

  function Enclosing(sqrt: real -> real, points: seq<Vec>): Ball
    requires IsRoot(sqrt) && |points| > 0
  {
    GrownByAll(sqrt, Seed(sqrt, points), points)
  }

  lemma {:induction false} GrownByAllCovers(sqrt: real -> real, b: Ball, points: seq<Vec>)
    requires IsRoot(sqrt) && 0.0 <= b.radius
    ensures var e := GrownByAll(sqrt, b, points);
      && 0.0 <= e.radius && Covers(e, b)
      && forall i :: 0 <= i < |points| ==> In(points[i], e)
  {
    hide Grown, In;
    var n := |points| - 1;
    if 0 <= n {
      var g := GrownByAll(sqrt, b, points[..n]);
      GrownByAllCovers(sqrt, b, points[..n]);
      GrownCovers(sqrt, g, points[n]);
      var e := Grown(sqrt, g, points[n]);
      assert 0.0 <= e.radius by { InRadius(points[n], e); }
      forall i | 0 <= i < |points| ensures In(points[i], e) {
        if i < n {
          assert points[..n][i] == points[i];
        }
      }
    }
  }

  lemma InRadius(p: Vec, b: Ball)
    requires In(p, b)
    ensures 0.0 <= b.radius
  {
  }

  /** The enclosing ball contains every point of the list, and always the origin
      as well. */
  lemma EnclosingCovers(sqrt: real -> real, points: seq<Vec>)
    requires IsRoot(sqrt) && |points| > 0
    ensures var e := Enclosing(sqrt, points);
      && 0.0 <= e.radius && In(ORIGIN, e)
      && forall i :: 0 <= i < |points| ==> In(points[i], e)
  {
    hide Norm2, Dot, Sub, Length, Div, Add;
    var s := Seed(sqrt, points);
    DistanceFromOrigin(s.center);
    GrownByAllCovers(sqrt, s, points);
  }

  lemma DistanceFromOrigin(c: Vec)
    ensures Norm2(Sub(ORIGIN, c)) == Norm2(c)
  {
  }

  /** The two extreme points on the widest axis, put together. */
  function WidestSum(points: seq<Vec>): Vec
    requires |points| > 0
  {
    Add(Lowest(WidestAxis(points), points), Highest(WidestAxis(points), points))
  }

  lemma HalfSum(sqrt: real -> real, points: seq<Vec>)
    requires IsRoot(sqrt) && |points| > 0
    ensures var c := Scale(WidestSum(points), 0.5); Seed(sqrt, points) == Ball(c, Length(sqrt, c))
  {
    hide Length, IsRoot, Lowest, Highest, WidestAxis;
    assert Div(WidestSum(points), 2.0) == Scale(WidestSum(points), 0.5);
  }

  lemma SumAround(a: Vec)
    ensures var c := Scale(a, 0.5);
      && Norm2(Sub(a, c)) == Norm2(c)
      && Norm2(a) == 4.0 * Norm2(c)
  {
  }

  /** The enclosing ball reaches over the sum of the two most distant extreme points,
      which is opposite to the origin. */
  lemma EnclosingTakesInSum(sqrt: real -> real, points: seq<Vec>)
    requires IsRoot(sqrt) && |points| > 0
    ensures In(WidestSum(points), Enclosing(sqrt, points))
  {
    hide Norm2, Dot, Sub, Scale, Length, WidestSum, Seed;
    var a, s := WidestSum(points), Seed(sqrt, points);
    HalfSum(sqrt, points);
    SumAround(a);
    assert In(a, s);
    GrownByAllCovers(sqrt, s, points);
  }

  lemma {:induction false} GrownByNone(sqrt: real -> real, b: Ball, points: seq<Vec>)
    requires IsRoot(sqrt) && 0.0 <= b.radius && Contains(b, points)
    ensures GrownByAll(sqrt, b, points) == b
  {
    hide Grown, In;
    var n := |points| - 1;
    if 0 <= n {
      assert forall i :: 0 <= i < n ==> points[..n][i] == points[i];
      GrownByNone(sqrt, b, points[..n]);
      GrownCovers(sqrt, b, points[n]);
    }
  }

  lemma InHalf(p: Vec, a: Vec)
    ensures Norm2(Sub(p, Scale(a, 0.5))) <= Norm2(Scale(a, 0.5)) <==> Dot(p, Sub(p, a)) <= 0.0
  {
    assert Norm2(Sub(p, Scale(a, 0.5))) == Dot(p, Sub(p, a)) + Norm2(Scale(a, 0.5));
  }

  /** A ball that contains the origin and `a` has at least half the length of `a` as
      its radius. */
  lemma HalfLength(sqrt: real -> real, a: Vec, b: Ball)
    requires IsRoot(sqrt) && In(ORIGIN, b) && In(a, b)
    ensures Length(sqrt, Scale(a, 0.5)) <= b.radius
  {
    hide Norm2, Dot, Scale, Length;
    var c, l := Scale(a, 0.5), Length(sqrt, Scale(a, 0.5));
    DistanceFromOrigin(b.center);
    assert Add(Sub(a, b.center), b.center) == a;
    Triangle(Sub(a, b.center), b.center, b.radius, b.radius);
    SumAround(a);
    assert Square(l) == Norm2(c);
    FourSquares(b.radius);
    SquareOrder(b.radius, l);
  }

  lemma FourSquares(r: real)
    ensures Square(r + r) == 4.0 * Square(r)
  {
  }

  /** When every point is in the ball that has the origin and that sum at its ends, the
      enclosing ball is this one, and no ball with both inside is smaller. */
  lemma EnclosingSmallestAround(sqrt: real -> real, points: seq<Vec>, c: Ball)
    requires IsRoot(sqrt) && |points| > 0
    requires forall i :: 0 <= i < |points| ==> Dot(points[i], Sub(points[i], WidestSum(points))) <= 0.0
    requires In(ORIGIN, c) && In(WidestSum(points), c)
    ensures Enclosing(sqrt, points).radius <= c.radius
  {
    hide Norm2, Dot, Sub, Scale, Length, WidestSum, Seed, IsRoot;
    var a, s := WidestSum(points), Seed(sqrt, points);
    HalfSum(sqrt, points);
    var h := Scale(a, 0.5);
    assert 0.0 <= s.radius && Square(s.radius) == Norm2(h);
    forall i | 0 <= i < |points|
      ensures In(points[i], s)
    {
      InHalf(points[i], a);
    }
    GrownByNone(sqrt, s, points);
    HalfLength(sqrt, a, c);
  }

  /** A point that is none of the extremes, added at the end of the list, extends the
      ball around the others. */
  lemma EnclosingExtends(sqrt: real -> real, points: seq<Vec>, q: Vec)
    requires IsRoot(sqrt) && |points| > 0
    requires forall axis :: Coord(axis, Lowest(axis, points)) <= Coord(axis, q) <= Coord(axis, Highest(axis, points))
    ensures Enclosing(sqrt, points + [q]) == Grown(sqrt, Enclosing(sqrt, points), q)
  {
    hide Norm2, Grown, Length, Div, Add;
    var all := points + [q];
    assert all[..|points|] == points && all[|points|] == q;
    forall axis
      ensures Lowest(axis, all) == Lowest(axis, points) && Highest(axis, all) == Highest(axis, points)
    {
    }
    assert WidestAxis(all) == WidestAxis(points);
    assert Seed(sqrt, all) == Seed(sqrt, points);
  }

  /** Of several points with the same coordinate the first is the extreme one. */
  lemma {:induction false} FirstLowest(axis: Axis, points: seq<Vec>, i: nat)
    requires i < |points| && Coord(axis, points[i]) == Coord(axis, Lowest(axis, points))
    requires forall j :: 0 <= j < i ==> Coord(axis, points[i]) < Coord(axis, points[j])
    ensures Lowest(axis, points) == points[i]
  {
    hide Coord;
    var n := |points| - 1;
    if i < n {
      assert points[i] in points[..n] by { assert points[..n][i] == points[i]; }
      assert Coord(axis, Lowest(axis, points[..n])) == Coord(axis, points[i]);
      FirstLowest(axis, points[..n], i);
    } else if 0 < n {
      var p := Lowest(axis, points[..n]);
      var j :| 0 <= j < n && points[j] == p;
    }
  }

  lemma {:induction false} FirstHighest(axis: Axis, points: seq<Vec>, i: nat)
    requires i < |points| && Coord(axis, points[i]) == Coord(axis, Highest(axis, points))
    requires forall j :: 0 <= j < i ==> Coord(axis, points[j]) < Coord(axis, points[i])
    ensures Highest(axis, points) == points[i]
  {
    hide Coord;
    var n := |points| - 1;
    if i < n {
      assert points[i] in points[..n] by { assert points[..n][i] == points[i]; }
      assert Coord(axis, Highest(axis, points[..n])) == Coord(axis, points[i]);
      FirstHighest(axis, points[..n], i);
    } else if 0 < n {
      var p := Highest(axis, points[..n]);
      var j :| 0 <= j < n && points[j] == p;
    }
  }

  lemma EnclosingOne(sqrt: real -> real, p: Vec)
    requires IsRoot(sqrt)
    ensures Enclosing(sqrt, [p]) == Ball(p, Length(sqrt, p))
  {
    hide Norm2, Dot, Length, Normalize;
    var s := Seed(sqrt, [p]);
    assert Lowest(WidestAxis([p]), [p]) == p && Highest(WidestAxis([p]), [p]) == p;
    assert Div(Add(p, p), 2.0) == p;
    assert Sub(p, p) == ORIGIN;
    assert GrownByAll(sqrt, s, [p][..0]) == s;
    SquareOrder(Length(sqrt, ORIGIN), 0.0);
  }

  /** Enclosing is not tight: the ball around a single point reaches back to the
      origin, and is the point alone only there. */
  lemma EnclosingSinglePoint(sqrt: real -> real, p: Vec)
    requires IsRoot(sqrt)
    ensures Enclosing(sqrt, [p]) == Ball(p, Length(sqrt, p))
    ensures Enclosing(sqrt, [p]) == Ball(p, 0.0) <==> p == ORIGIN
  {
    hide *;
    EnclosingOne(sqrt, p);
    var len := Length(sqrt, p);
    assert Square(len) == Norm2(p);
  }

  ghost predicate Contains(b: Ball, points: seq<Vec>) {
    forall i :: 0 <= i < |points| ==> In(points[i], b)
  }

  lemma MidpointDistance(p: Vec, c: Vec, d: Vec)
    ensures Norm2(Sub(p, Scale(Add(c, d), 0.5)))
         == (Norm2(Sub(p, c)) + Norm2(Sub(p, d))) / 2.0 - Norm2(Sub(c, d)) / 4.0
  {
  }

  /** Two different balls of the same radius that contain some points leave room for
      a smaller one between them. */
  lemma SmallerBetween(sqrt: real -> real, points: seq<Vec>, c: Vec, d: Vec, r: real) returns (b: Ball)
    requires IsRoot(sqrt) && |points| > 0 && c != d
    requires Contains(Ball(c, r), points) && Contains(Ball(d, r), points)
    ensures Contains(b, points) && b.radius < r
  {
    hide Norm2, Dot, Scale, Add, Sub, In, IsRoot, Square, Product;
    var m, gap := Scale(Add(c, d), 0.5), Norm2(Sub(c, d)) / 4.0;
    CentresApart(c, d);
    var radius := sqrt(Square(r) - gap);
    b := Ball(m, radius);
    forall i | 0 <= i < |points|
      ensures In(points[i], b) && 0.0 <= r && 0.0 <= radius && Square(radius) == Square(r) - gap
    {
      InBetween(sqrt, points[i], c, d, r, m, gap, radius);
    }
    assert In(points[0], b);
    SquareOrder(radius, r);
  }

  lemma CentresApart(c: Vec, d: Vec)
    requires c != d
    ensures 0.0 < Norm2(Sub(c, d))
  {
    assert Sub(c, d) != ORIGIN;
  }

  lemma InBetween(sqrt: real -> real, p: Vec, c: Vec, d: Vec, r: real, m: Vec, gap: real, radius: real)
    requires IsRoot(sqrt) && In(p, Ball(c, r)) && In(p, Ball(d, r))
    requires m == Scale(Add(c, d), 0.5) && gap == Norm2(Sub(c, d)) / 4.0 && radius == sqrt(Square(r) - gap)
    ensures In(p, Ball(m, radius)) && 0.0 <= r && 0.0 <= radius && Square(radius) == Square(r) - gap
  {
    MidpointDistance(p, c, d);
    hide Norm2, Dot, Scale, Add, Sub;
    assert 0.0 <= Norm2(Sub(p, m)) <= Square(r) - gap;
  }

  /** When a ball no larger than the enclosing one contains the points but not the
      origin, the enclosing ball is not the smallest. */
  lemma EnclosingNotSmallest(sqrt: real -> real, points: seq<Vec>, a: Ball) returns (b: Ball)
    requires IsRoot(sqrt) && |points| > 0
    requires Contains(a, points) && !In(ORIGIN, a) && a.radius <= Enclosing(sqrt, points).radius
    ensures Contains(b, points) && b.radius < Enclosing(sqrt, points).radius
  {
    hide Enclosing, In;
    var e := Enclosing(sqrt, points);
    EnclosingCovers(sqrt, points);
    if a.radius < e.radius {
      b := a;
    } else {
      b := SmallerBetween(sqrt, points, a.center, e.center, e.radius);
    }
  }

  /** So only if the smallest ball around the points contains the origin can the
      enclosing ball be the smallest. */
  lemma SmallestOnlyAroundOrigin(sqrt: real -> real, points: seq<Vec>, a: Ball)
    requires IsRoot(sqrt) && |points| > 0
    requires forall b :: Contains(b, points) ==> Enclosing(sqrt, points).radius <= b.radius
    requires Contains(a, points) && forall b :: Contains(b, points) ==> a.radius <= b.radius
    ensures In(ORIGIN, a)
  {
    hide Enclosing, In;
    EnclosingCovers(sqrt, points);
    assert Contains(Enclosing(sqrt, points), points);
    if !In(ORIGIN, a) {
      var b := EnclosingNotSmallest(sqrt, points, a);
    }
  }
}
