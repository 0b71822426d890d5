/** The bounding sphere: grown by points and spheres, mapped by matrices, and
    classified against the view frustum. */
module BoundingSpheres {
  import opened Reals
  import opened Vectors
  import opened Matrices
  import opened Balls
  import opened BallTransforms
  import opened Enclosure
  import opened Frustums
  import opened Culling

  datatype Intersection = Outside | Partial | Inside

  /** The radius that marks a sphere as not yet set. */
  const UNSET := -1.0

  class BoundingSphere {
    var center: Vec
    var radius: real
    var maximized: bool

    ghost predicate Valid()
      reads this
    {
      radius == UNSET || 0.0 <= radius
    }

    function Volume(): Ball
      reads this
    {
      Ball(center, radius)
    }

    constructor ()
      ensures Valid() && radius == UNSET && center == ORIGIN && !maximized
    {
      center := ORIGIN;
      radius := UNSET;
      maximized := false;
    }

    method Maximize()
      modifies this`maximized
      ensures maximized
    {
      maximized := true;
    }

    /** Extends to enclose a point. */
    method ExtendPoint(sqrt: real -> real, p: Vec)
      requires IsRoot(sqrt) && Valid()
      modifies this`center, this`radius
      ensures Volume() == ExtendedByPoint(sqrt, old(Volume()), p)
      ensures 0.0 <= radius && In(p, Volume())
      ensures Covers(Volume(), old(Volume()))
      ensures old(radius) == UNSET ==> forall q :: In(q, Volume()) <==> q == p
    {
      hide Norm2, Dot, Normalize, Length, Grown;
      ExtendedByPointCovers(sqrt, Volume(), p);
      if radius == UNSET {
        radius := 0.0;
        center := p;
        return;
      }
      if Length(sqrt, Sub(p, center)) <= radius {
        GrownInside(sqrt, Volume(), p);
        return;
      }
      GrownOutside(sqrt, center, radius, p);
      var opposite := Add(center, Scale(Normalize(sqrt, Sub(center, p)), radius));
      center := Scale(Add(opposite, p), 0.5);
      radius := Length(sqrt, Sub(center, opposite));
    }

    /** Extends to enclose another sphere; `b` may be this sphere itself. */
    method ExtendSphere(sqrt: real -> real, b: BoundingSphere)
      requires IsRoot(sqrt) && Valid() && b.Valid()
      modifies this
      ensures Valid() && maximized == (old(maximized) || old(b.maximized))
      ensures Volume() == ExtendedBySphere(sqrt, old(Volume()), old(b.Volume()))
      ensures Covers(Volume(), old(Volume()))
      ensures old(b.radius) == UNSET ==> Volume() == old(Volume())
      ensures old(radius) == UNSET && old(b.radius) != UNSET ==> Volume() == old(b.Volume())
      ensures Covers(Volume(), old(b.Volume()))
         <==> || old(radius) == UNSET || old(b.radius) == UNSET || old(center) == old(b.center)
              || old(b.radius) <= Length(sqrt, Sub(old(b.center), old(center))) + old(radius)
    {
      hide Norm2, Dot, Normalize, Length, Grown, Scale, Add, Sub, PointAt, Div;
      ExtendedBySphereCovers(sqrt, Volume(), b.Volume());
      if b.maximized {
        Maximize();
      }
      if b.radius == UNSET {
        return;
      }
      if radius == UNSET {
        center := b.center;
        radius := b.radius;
        return;
      }
      var delta := Sub(b.center, center);
      var len := Length(sqrt, delta);
      ZenithOf(sqrt, Volume(), b.Volume());
      if len == 0.0 {
        radius := if radius < b.radius then b.radius else radius;
      } else {
        var zenith := Add(b.center, Scale(Div(delta, len), b.radius));
        ExtendPoint(sqrt, zenith);
      }
    }

    /** Resets to enclose exactly the given points. */
    method Enclose(sqrt: real -> real, points: seq<Vec>)
      requires IsRoot(sqrt)
      modifies this
      ensures Valid() && !maximized
      ensures |points| == 0 ==> radius == UNSET && center == ORIGIN
      ensures |points| > 0 ==> Volume() == Enclosing(sqrt, points)
      ensures forall i :: 0 <= i < |points| ==> In(points[i], Volume())
    {
      hide Norm2, Dot, Length, Grown, Lowest, Highest, WidestAxis, Div, Add;
      center, radius, maximized := ORIGIN, UNSET, false;
      if |points| < 1 {
        return;
      }
      EnclosingCovers(sqrt, points);
      var a, b := PickWidestPair(points);
      center := Div(Add(a, b), 2.0);
      radius := Length(sqrt, center);
      for i := 0 to |points|
        invariant !maximized && 0.0 <= radius
        invariant Volume() == GrownByAll(sqrt, Seed(sqrt, points), points[..i])
      {
        assert points[..i + 1][..i] == points[..i];
        ExtendPoint(sqrt, points[i]);
      }
      assert points[..|points|] == points;
    }

    /** Maps the sphere by a matrix whose scale is uniform. */
    method OrthoTransform(sqrt: real -> real, m: Mat)
      requires IsRoot(sqrt) && (radius != UNSET ==> Finite(center, m))
      modifies this`center, this`radius
      ensures old(radius) == UNSET ==> Volume() == old(Volume())
      ensures old(radius) != UNSET ==> Volume() == OrthoTransformed(sqrt, old(Volume()), m)
      ensures old(Valid()) ==> Valid()
    {
      hide Norm2, Dot, Length, Finite, Apply;
      if radius == UNSET {
        return;
      }
      center := Apply(center, m);
      ProductSign(radius, Length(sqrt, Vec(m.r0.x, m.r1.x, m.r2.x)));
      radius := radius * Length(sqrt, Vec(m.r0.x, m.r1.x, m.r2.x));
    }

    /** Maps the sphere by any matrix. */
    method Transform(sqrt: real -> real, m: Mat)
      requires IsRoot(sqrt) && (radius != UNSET ==> Finite(center, m))
      modifies this`center, this`radius
      ensures old(radius) == UNSET ==> Volume() == old(Volume())
      ensures old(radius) != UNSET ==> Volume() == Transformed(sqrt, old(Volume()), m)
      ensures 0.0 < old(radius) && Affine(m) ==> (CoversImage(Volume(), old(Volume()), m) <==> Tight(m))
      ensures old(Valid()) ==> Valid()
    {
      hide Norm2, Dot, Length, Finite, Apply, Tight, CoversImage;
      if radius == UNSET {
        return;
      }
      if 0.0 < radius && Affine(m) {
        TransformExact(sqrt, Volume(), m);
      }
      center := Apply(center, m);
      var scaleX := Length(sqrt, Vec(m.r0.x, m.r1.x, m.r2.x));
      var scaleY := Length(sqrt, Vec(m.r0.y, m.r1.y, m.r2.y));
      var scaleZ := Length(sqrt, Vec(m.r0.z, m.r1.z, m.r2.z));
      SquareOrder(scaleX, scaleY);
      SquareOrder(scaleX, scaleZ);
      SquareOrder(scaleY, scaleZ);
      var maxScale := scaleX;
      if scaleY > maxScale { maxScale := scaleY; }
      if scaleZ > maxScale { maxScale := scaleZ; }
      ProductSign(radius, maxScale);
      radius := radius * maxScale;
    }

    /** Classifies the sphere against the view volume. */
    method IntersectFrustum(f: Frustum) returns (code: Intersection)
      requires Valid() && f.Valid() && f.PlanesDerived()
      ensures maximized || radius == UNSET ==> code == Partial
      ensures !maximized && radius != UNSET ==>
        && (code == Inside <==> forall p :: In(p, Volume()) ==> f.InView(p))
        && (code == Outside <==> exists side :: Beyond(f, side, Volume()))
      ensures code == Outside && !maximized ==> forall p :: In(p, Volume()) ==> !f.InView(p)
    {
      hide Norm2, Dot, In, Beyond, WhollyWithin, f.InView, f.Within, SideDistance, PlaneDistance;
      if maximized { return Partial; }
      if radius == UNSET { return Partial; }
      forall side
        ensures SideDistance(f, side, center) < -radius <==> Beyond(f, side, Volume())
        ensures SideDistance(f, side, center) >= radius <==> WhollyWithin(f, side, Volume())
      {
        ClassifySide(f, side, Volume());
      }
      BallInView(f, Volume());
      SixSides(f, Volume());
      DepthDistances(f, center);
      PlaneDistances(f, center);

      code := Inside;
      var d := -f.zNear - center.z;
      if d < -radius { return Outside; }
      if d < radius { code := Partial; }

      d := center.z - -f.zFar;
      if d < -radius { return Outside; }
      if d < radius { code := Partial; }

      d := PlaneDistance(center, f.topPlane);
      if d < -radius { return Outside; }
      if d < radius { code := Partial; }

      d := PlaneDistance(center, f.botPlane);
      if d < -radius { return Outside; }
      if d < radius { code := Partial; }

      d := PlaneDistance(center, f.leftPlane);
      if d < -radius { return Outside; }
      if d < radius { code := Partial; }

      d := PlaneDistance(center, f.rightPlane);
      if d < -radius { return Outside; }
      if d < radius { code := Partial; }
    }
  }

  /** The signed distance of a point from a plane stored as coefficients. */
  function PlaneDistance(c: Vec, plane: array<real>): real
    requires plane.Length == 4
    reads plane
  {
    plane[0] * c.x + plane[1] * c.y + plane[2] * c.z - plane[3]
  }

  lemma PlaneDistances(f: Frustum, c: Vec)
    requires f.Valid()
    ensures SideDistance(f, Top, c) == PlaneDistance(c, f.topPlane)
    ensures SideDistance(f, Bottom, c) == PlaneDistance(c, f.botPlane)
    ensures SideDistance(f, Left, c) == PlaneDistance(c, f.leftPlane)
    ensures SideDistance(f, Right, c) == PlaneDistance(c, f.rightPlane)
  {
  }

  function ExtendedByPoint(sqrt: real -> real, b: Ball, p: Vec): Ball
    requires IsRoot(sqrt)
  {
    if b.radius == UNSET then Ball(p, 0.0) else Grown(sqrt, b, p)
  }

  function ExtendedBySphere(sqrt: real -> real, a: Ball, b: Ball): Ball
    requires IsRoot(sqrt)
  {
    if b.radius == UNSET then a else if a.radius == UNSET then b else Joined(sqrt, a, b)
  }

  lemma ExtendedByPointCovers(sqrt: real -> real, b: Ball, p: Vec)
    requires IsRoot(sqrt) && (b.radius == UNSET || 0.0 <= b.radius)
    ensures var e := ExtendedByPoint(sqrt, b, p);
      && 0.0 <= e.radius && In(p, e) && Covers(e, b)
      && (b.radius == UNSET ==> forall q :: In(q, e) <==> q == p)
  {
    hide Norm2, Dot, Square, Grown, Sub;
    if b.radius == UNSET {
      OnlyCenter(p);
    } else {
      GrownCovers(sqrt, b, p);
    }
  }

  lemma ExtendedBySphereCovers(sqrt: real -> real, a: Ball, b: Ball)
    requires IsRoot(sqrt) && (a.radius == UNSET || 0.0 <= a.radius) && (b.radius == UNSET || 0.0 <= b.radius)
    ensures var e := ExtendedBySphere(sqrt, a, b);
      && (e.radius == UNSET || 0.0 <= e.radius)
      && (b.radius == UNSET ==> e == a) && (a.radius == UNSET && b.radius != UNSET ==> e == b)
      && Covers(e, a)
      && (Covers(e, b) <==> a.radius == UNSET || b.radius == UNSET || a.center == b.center
                            || b.radius <= Length(sqrt, Sub(b.center, a.center)) + a.radius)
  {
    hide Norm2, Dot, Length, Grown, Zenith;
    if a.radius != UNSET && b.radius != UNSET {
      JoinedCovers(sqrt, a, b);
      if a.center != b.center {
        GrownCovers(sqrt, a, Zenith(sqrt, a, b));
      }
    }
  }

  lemma OnlyCenter(p: Vec)
    ensures forall q :: In(q, Ball(p, 0.0)) <==> q == p
  {
    forall q
      ensures In(q, Ball(p, 0.0)) <==> q == p
    {
      assert Sub(q, p) == ORIGIN <==> q == p;
      assert Square(0.0) == 0.0;
      hide Norm2, Square;
    }
  }

  lemma GrownInside(sqrt: real -> real, b: Ball, p: Vec)
    requires IsRoot(sqrt) && Length(sqrt, Sub(p, b.center)) <= b.radius
    ensures Grown(sqrt, b, p) == b
  {
  }

  /** The construction by the opposite point and the midpoint gives the grown
      ball. */
  lemma GrownOutside(sqrt: real -> real, c: Vec, r: real, p: Vec)
    requires IsRoot(sqrt) && 0.0 <= r < Length(sqrt, Sub(p, c))
    ensures var opposite := Add(c, Scale(Normalize(sqrt, Sub(c, p)), r));
      var mid := Scale(Add(opposite, p), 0.5);
      Grown(sqrt, Ball(c, r), p) == Ball(mid, Length(sqrt, Sub(mid, opposite)))
  {
    hide Norm2, Dot, Normalize, Length;
    var d, u := Length(sqrt, Sub(p, c)), Normalize(sqrt, Sub(p, c));
    InByLength(sqrt, Ball(c, r), p);
    DirectionTo(sqrt, c, p);
    NormalizeReversed(sqrt, c, p);
    var opposite := PointAt(c, u, -r);
    MidpointOnLine(c, u, -r, d);
    PointAtDistance(c, u, (d - r) / 2.0, -r);
    RootOfSquare(Length(sqrt, Sub(PointAt(c, u, (d - r) / 2.0), opposite)), (d + r) / 2.0);
  }

  lemma MidpointOnLine(c: Vec, u: Vec, s: real, t: real)
    ensures Scale(Add(PointAt(c, u, s), PointAt(c, u, t)), 0.5) == PointAt(c, u, (s + t) / 2.0)
  {
  }

  lemma NormalizeReversed(sqrt: real -> real, c: Vec, p: Vec)
    requires IsRoot(sqrt) && p != c
    ensures forall r :: Scale(Normalize(sqrt, Sub(c, p)), r) == Scale(Normalize(sqrt, Sub(p, c)), -r)
  {
    var v, w := Sub(p, c), Sub(c, p);
    assert v != ORIGIN && w == Neg(v);
    hide *;
    NormalizeNegated(sqrt, v, w);
    forall r
      ensures Scale(Normalize(sqrt, w), r) == Scale(Normalize(sqrt, v), -r)
    {
      ScaleNegated(Normalize(sqrt, v), r);
    }
  }

  lemma NormalizeNegated(sqrt: real -> real, v: Vec, w: Vec)
    requires IsRoot(sqrt) && v != ORIGIN && w == Neg(v)
    ensures Normalize(sqrt, w) == Neg(Normalize(sqrt, v))
  {
    hide Norm2, Normalize, Length, Scale, Neg, IsRoot;
    var len := Length(sqrt, v);
    NegatedNorm(v);
    RootOfSquare(Length(sqrt, w), len);
    ScaleNegated(Normalize(sqrt, v), len);
    NegatedScale(Normalize(sqrt, v), len);
    CancelScale(Normalize(sqrt, w), Neg(Normalize(sqrt, v)), len);
  }

  lemma NegatedNorm(v: Vec)
    ensures Norm2(Neg(v)) == Norm2(v)
    ensures Norm2(v) == 0.0 <==> v == ORIGIN
  {
  }

  lemma ScaleNegated(a: Vec, r: real)
    ensures Scale(Neg(a), r) == Scale(a, -r)
  {
  }

  /** The construction of the zenith by dividing by the length. */
  lemma ZenithOf(sqrt: real -> real, a: Ball, b: Ball)
    requires IsRoot(sqrt)
    ensures var delta := Sub(b.center, a.center);
      var len := Length(sqrt, delta);
      && (len == 0.0 <==> a.center == b.center)
      && (len != 0.0 ==> Zenith(sqrt, a, b) == Add(b.center, Scale(Div(delta, len), b.radius)))
  {
    hide Norm2, Dot;
    var delta := Sub(b.center, a.center);
    assert delta == ORIGIN <==> a.center == b.center;
  }
}
