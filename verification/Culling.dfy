/** What the signed distance of a ball's centre from a side plane says about the
    whole ball. */
module Culling {
  import opened Reals
  import opened Vectors
  import opened Balls
  import opened Frustums

  /** No point of the ball is in the half-space of this side. */
  ghost predicate Beyond(f: Frustum, side: Side, b: Ball)
    reads f
  {
    forall p :: In(p, b) ==> !f.Within(side, p)
  }

  /** Every point of the ball is in the half-space of this side. */
  ghost predicate WhollyWithin(f: Frustum, side: Side, b: Ball)
    reads f
  {
    forall p :: In(p, b) ==> f.Within(side, p)
  }

  function SideDistance(f: Frustum, side: Side, c: Vec): real
    requires f.Valid()
    reads f, f.leftPlane, f.rightPlane, f.topPlane, f.botPlane
  {
    Dot(SideNormal(f, side), c) - SideOffset(f, side)
  }

  /** Over a ball, the distance from a plane through unit normal `n` ranges over
      exactly the centre's distance plus or minus the radius. */
  lemma BallDistances(n: Vec, b: Ball)
    requires Norm2(n) == 1.0 && 0.0 <= b.radius
    ensures forall p :: In(p, b) ==> Dot(n, b.center) - b.radius <= Dot(n, p) <= Dot(n, b.center) + b.radius
    ensures In(PointAt(b.center, n, -b.radius), b)
         && Dot(n, PointAt(b.center, n, -b.radius)) == Dot(n, b.center) - b.radius
    ensures In(PointAt(b.center, n, b.radius), b)
         && Dot(n, PointAt(b.center, n, b.radius)) == Dot(n, b.center) + b.radius
  {
    hide Norm2, Dot, PointAt, Sub, Scale;
    forall p | In(p, b)
      ensures Dot(n, b.center) - b.radius <= Dot(n, p) <= Dot(n, b.center) + b.radius
    {
      DotBound(n, Sub(p, b.center), 1.0, b.radius);
      DotAdd(p, b.center, n);
    }
    PointAtDistance(b.center, n, -b.radius, 0.0);
    PointAtDistance(b.center, n, b.radius, 0.0);
    DotAlong(n, b.center, -b.radius);
    DotAlong(n, b.center, b.radius);
    assert Square(-b.radius) == Square(b.radius);
  }

  lemma DotAlong(n: Vec, c: Vec, t: real)
    requires Norm2(n) == 1.0
    ensures Dot(n, PointAt(c, n, t)) == Dot(n, c) + t
  {
    hide Norm2, Dot;
    DotAdd(c, Scale(n, t), n);
    DotScale(n, n, t, t);
  }

  lemma ClassifySide(f: Frustum, side: Side, b: Ball)
    requires f.Valid() && f.PlanesDerived() && 0.0 <= b.radius
    ensures SideDistance(f, side, b.center) < -b.radius <==> Beyond(f, side, b)
    ensures SideDistance(f, side, b.center) >= b.radius <==> WhollyWithin(f, side, b)
  {
    hide Norm2, Dot, PointAt, SideNormal, SideOffset, f.PlanesDerived, f.Within, In;
    var n, o := SideNormal(f, side), SideOffset(f, side);
    forall p
      ensures f.Within(side, p) <==> 0.0 <= Dot(n, p) - o
    {
      SidePlanes(f, side, p);
    }
    SidePlanes(f, side, b.center);
    BallDistances(n, b);
    assert f.Within(side, PointAt(b.center, n, b.radius)) <==> 0.0 <= Dot(n, PointAt(b.center, n, b.radius)) - o;
    assert f.Within(side, PointAt(b.center, n, -b.radius)) <==> 0.0 <= Dot(n, PointAt(b.center, n, -b.radius)) - o;
  }

  lemma DepthDistances(f: Frustum, c: Vec)
    requires f.Valid()
    ensures SideDistance(f, Near, c) == -f.zNear - c.z
    ensures SideDistance(f, Far, c) == c.z - -f.zFar
  {
    hide f.Valid;
  }

  /** A ball is in view exactly when it is within all six sides, and out of view
      when it is beyond one of them. */
  lemma BallInView(f: Frustum, b: Ball)
    ensures (forall p :: In(p, b) ==> f.InView(p)) <==> forall side :: WhollyWithin(f, side, b)
    ensures (exists side :: Beyond(f, side, b)) ==> forall p :: In(p, b) ==> !f.InView(p)
  {
    hide In, f.InView, f.Within;
    forall p
      ensures f.InView(p) <==> forall side :: f.Within(side, p)
    {
      InViewBySides(f, p);
    }
    if forall side :: WhollyWithin(f, side, b) {
      forall p | In(p, b) ensures f.InView(p) {
        forall side ensures f.Within(side, p) {
          assert WhollyWithin(f, side, b);
        }
      }
    }
  }

  lemma SixSides(f: Frustum, b: Ball)
    ensures (forall side :: WhollyWithin(f, side, b))
       <==> && WhollyWithin(f, Near, b) && WhollyWithin(f, Far, b) && WhollyWithin(f, Top, b)
            && WhollyWithin(f, Bottom, b) && WhollyWithin(f, Left, b) && WhollyWithin(f, Right, b)
    ensures (exists side :: Beyond(f, side, b))
       <==> || Beyond(f, Near, b) || Beyond(f, Far, b) || Beyond(f, Top, b)
            || Beyond(f, Bottom, b) || Beyond(f, Left, b) || Beyond(f, Right, b)
  {
    hide WhollyWithin, Beyond;
    var all := && WhollyWithin(f, Near, b) && WhollyWithin(f, Far, b) && WhollyWithin(f, Top, b)
               && WhollyWithin(f, Bottom, b) && WhollyWithin(f, Left, b) && WhollyWithin(f, Right, b);
    forall side | all
      ensures WhollyWithin(f, side, b)
    {
      assert side == Near || side == Far || side == Top || side == Bottom || side == Left || side == Right;
    }
    if exists side :: Beyond(f, side, b) {
      var side :| Beyond(f, side, b);
      match side
      case Near =>
      case Far =>
      case Top =>
      case Bottom =>
      case Left =>
      case Right =>
    }
  }
}
