/** Closed balls, and the two ways in which a bounding sphere grows. */
module Balls {
  import opened Reals
  import opened Vectors

  datatype Ball = Ball(center: Vec, radius: real)

  ghost predicate In(p: Vec, b: Ball) {
    0.0 <= b.radius && Norm2(Sub(p, b.center)) <= Square(b.radius)
  }

  ghost predicate Covers(a: Ball, b: Ball) {
    forall p :: In(p, b) ==> In(p, a)
  }

  lemma UnitXAxis()
    ensures Norm2(X_DIRECTION) == 1.0
  {
  }

  /** The point at signed distance `t` from `c` in direction `u`. */
  function PointAt(c: Vec, u: Vec, t: real): Vec {
    Add(c, Scale(u, t))
  }

  lemma PointAtDistance(c: Vec, u: Vec, s: real, t: real)
    requires Norm2(u) == 1.0
    ensures Sub(PointAt(c, u, s), PointAt(c, u, t)) == Scale(u, s - t)
    ensures Norm2(Sub(PointAt(c, u, s), PointAt(c, u, t))) == Square(s - t)
    ensures PointAt(c, u, 0.0) == c
  {
    DotScale(u, u, s - t, s - t);
  }

  lemma CoversWithin(a: Ball, b: Ball, d: real)
    requires 0.0 <= d && Norm2(Sub(b.center, a.center)) <= Square(d)
    requires d + b.radius <= a.radius
    ensures Covers(a, b)
  {
    forall p | In(p, b) ensures In(p, a) {
      assert Sub(p, a.center) == Add(Sub(p, b.center), Sub(b.center, a.center));
      Triangle(Sub(p, b.center), Sub(b.center, a.center), b.radius, d);
      SquareOrder(b.radius + d, a.radius);
    }
  }

  /** Along one line through both centres, covering is a comparison of
      distances, in both directions. */
  lemma CoversAlongLine(c: Vec, u: Vec, s: real, ra: real, t: real, rb: real)
    requires Norm2(u) == 1.0 && 0.0 <= ra && 0.0 <= rb
    ensures Covers(Ball(PointAt(c, u, s), ra), Ball(PointAt(c, u, t), rb))
       <==> s - ra <= t - rb && t + rb <= s + ra
  {
    hide Norm2, Dot, Scale, Add, Sub, PointAt;
    var a, b := Ball(PointAt(c, u, s), ra), Ball(PointAt(c, u, t), rb);
    PointAtDistance(c, u, t, s);
    if s - ra <= t - rb && t + rb <= s + ra {
      var d := if t < s then s - t else t - s;
      assert Square(d) == Square(t - s);
      CoversWithin(a, b, d);
    } else {
      var e := if t + rb <= s + ra then t - rb else t + rb;
      PointAtDistance(c, u, e, t);
      PointAtDistance(c, u, e, s);
      assert Square(e - t) == Square(rb);
      assert In(PointAt(c, u, e), b);
      var f := if e < s then s - e else e - s;
      assert Square(e - s) == Square(f);
      SquareOrder(f, ra);
      assert !In(PointAt(c, u, e), a);
    }
  }

  /** `b` grown just enough to reach `p`: the centre moves towards `p`, and the
      radius becomes half of the farthest distance. */
  function Grown(sqrt: real -> real, b: Ball, p: Vec): Ball
    requires IsRoot(sqrt)
  {
    var d := Length(sqrt, Sub(p, b.center));
    var u := Normalize(sqrt, Sub(p, b.center));
    if d <= b.radius then b
    else Ball(PointAt(b.center, u, (d - b.radius) / 2.0), (d + b.radius) / 2.0)
  }

  lemma InByLength(sqrt: real -> real, b: Ball, p: Vec)
    requires IsRoot(sqrt) && 0.0 <= b.radius
    ensures In(p, b) <==> Length(sqrt, Sub(p, b.center)) <= b.radius
    ensures p == b.center ==> In(p, b)
  {
    SquareOrder(Length(sqrt, Sub(p, b.center)), b.radius);
  }

  lemma DirectionTo(sqrt: real -> real, c: Vec, p: Vec)
    requires IsRoot(sqrt) && p != c
    ensures Norm2(Normalize(sqrt, Sub(p, c))) == 1.0
    ensures p == PointAt(c, Normalize(sqrt, Sub(p, c)), Length(sqrt, Sub(p, c)))
    ensures 0.0 < Length(sqrt, Sub(p, c))
  {
    hide Norm2, Dot, Scale, Normalize, Length;
    assert p == Add(c, Sub(p, c));
    assert Sub(p, c) == ORIGIN ==> p == c;
  }

  lemma GrownCovers(sqrt: real -> real, b: Ball, p: Vec)
    requires IsRoot(sqrt) && 0.0 <= b.radius
    ensures In(p, Grown(sqrt, b, p)) && Covers(Grown(sqrt, b, p), b)
    ensures In(p, b) <==> Grown(sqrt, b, p) == b
  {
    hide Norm2, Dot, Scale, Add, Sub, PointAt, Normalize, Length;
    InByLength(sqrt, b, p);
    if !In(p, b) {
      DirectionTo(sqrt, b.center, p);
      var d, u := Length(sqrt, Sub(p, b.center)), Normalize(sqrt, Sub(p, b.center));
      PointAtDistance(b.center, u, 0.0, 0.0);
      PointAtDistance(b.center, u, d, (d - b.radius) / 2.0);
      CoversAlongLine(b.center, u, (d - b.radius) / 2.0, (d + b.radius) / 2.0, 0.0, b.radius);
    }
  }

  /** No ball that covers `b` and contains `p` is smaller than the grown one. */
  lemma GrownSmallest(sqrt: real -> real, b: Ball, p: Vec, a: Ball)
    requires IsRoot(sqrt) && 0.0 <= b.radius
    requires Covers(a, b) && In(p, a)
    ensures Grown(sqrt, b, p).radius <= a.radius
  {
    hide Norm2, Dot, Scale, Add, Sub, PointAt, Normalize, Length;
    InByLength(sqrt, b, p);
    if In(p, b) {
      UnitXAxis();
      RadiusOfCover(a, b, X_DIRECTION);
    } else {
      DirectionTo(sqrt, b.center, p);
      var d, u := Length(sqrt, Sub(p, b.center)), Normalize(sqrt, Sub(p, b.center));
      PointAtDistance(b.center, u, -b.radius, 0.0);
      assert In(PointAt(b.center, u, -b.radius), b);
      PointAtDistance(b.center, u, d, -b.radius);
      ChordBound(a, p, PointAt(b.center, u, -b.radius), d + b.radius);
    }
  }

  /** Two points of a ball are no farther apart than its diameter. */
  lemma ChordBound(a: Ball, p: Vec, q: Vec, d: real)
    requires In(p, a) && In(q, a) && 0.0 <= d && Norm2(Sub(p, q)) == Square(d)
    ensures d <= 2.0 * a.radius
  {
    var v, w := Sub(p, a.center), Sub(a.center, q);
    assert Sub(p, q) == Add(v, w);
    assert Norm2(w) == Norm2(Sub(q, a.center));
    Triangle(v, w, a.radius, a.radius);
    SquareOrder(d, a.radius + a.radius);
  }

  lemma RadiusOfCover(a: Ball, b: Ball, u: Vec)
    requires Covers(a, b) && 0.0 <= b.radius && Norm2(u) == 1.0
    ensures b.radius <= a.radius
  {
    PointAtDistance(b.center, u, b.radius, 0.0);
    PointAtDistance(b.center, u, -b.radius, 0.0);
    assert In(PointAt(b.center, u, b.radius), b) && In(PointAt(b.center, u, -b.radius), b);
    PointAtDistance(b.center, u, b.radius, -b.radius);
    ChordBound(a, PointAt(b.center, u, b.radius), PointAt(b.center, u, -b.radius), 2.0 * b.radius);
  }

  /** The point of `b` that lies beyond its centre as seen from `a`. */
  function Zenith(sqrt: real -> real, a: Ball, b: Ball): Vec
    requires IsRoot(sqrt)
  {
    PointAt(b.center, Normalize(sqrt, Sub(b.center, a.center)), b.radius)
  }

  /** `a` extended by `b`: concentric balls keep the larger radius, any others
      grow to reach the zenith. */
  function Joined(sqrt: real -> real, a: Ball, b: Ball): Ball
    requires IsRoot(sqrt)
  {
    if a.center == b.center then Ball(a.center, if a.radius < b.radius then b.radius else a.radius)
    else Grown(sqrt, a, Zenith(sqrt, a, b))
  }

  lemma ZenithOnLine(sqrt: real -> real, a: Ball, b: Ball)
    requires IsRoot(sqrt) && 0.0 <= a.radius && 0.0 <= b.radius && a.center != b.center
    ensures var d, u := Length(sqrt, Sub(b.center, a.center)), Normalize(sqrt, Sub(b.center, a.center));
      && Norm2(u) == 1.0 && 0.0 < d
      && b.center == PointAt(a.center, u, d)
      && Zenith(sqrt, a, b) == PointAt(a.center, u, d + b.radius)
      && Joined(sqrt, a, b) == (if d + b.radius <= a.radius then a
                                else Ball(PointAt(a.center, u, (d + b.radius - a.radius) / 2.0),
                                          (d + b.radius + a.radius) / 2.0))
  {
    hide Norm2, Dot, Scale, Add, Sub, PointAt, Normalize, Length;
    DirectionTo(sqrt, a.center, b.center);
    var d, u := Length(sqrt, Sub(b.center, a.center)), Normalize(sqrt, Sub(b.center, a.center));
    PointAtTwice(a.center, u, d, b.radius);
    LengthAlong(sqrt, a.center, u, d + b.radius);
  }

  lemma PointAtTwice(c: Vec, u: Vec, s: real, t: real)
    ensures PointAt(PointAt(c, u, s), u, t) == PointAt(c, u, s + t)
  {
  }

  lemma LengthAlong(sqrt: real -> real, c: Vec, u: Vec, t: real)
    requires IsRoot(sqrt) && Norm2(u) == 1.0 && 0.0 < t
    ensures Length(sqrt, Sub(PointAt(c, u, t), c)) == t
    ensures Normalize(sqrt, Sub(PointAt(c, u, t), c)) == u
  {
    PointAtDistance(c, u, t, 0.0);
    SquareOrder(Length(sqrt, Scale(u, t)), t);
    SquareOrder(t, Length(sqrt, Scale(u, t)));
    CancelScale(Normalize(sqrt, Scale(u, t)), u, t);
  }

  /** Extending always keeps the old ball.  It takes in the other ball exactly
      when the centres coincide or the other ball does not swallow this one. */
  lemma JoinedCovers(sqrt: real -> real, a: Ball, b: Ball)
    requires IsRoot(sqrt) && 0.0 <= a.radius && 0.0 <= b.radius
    ensures Covers(Joined(sqrt, a, b), a)
    ensures Covers(Joined(sqrt, a, b), b)
       <==> a.center == b.center || b.radius <= Length(sqrt, Sub(b.center, a.center)) + a.radius
  {
    hide Norm2, Dot, Scale, Add, Sub, PointAt, Normalize, Length, Zenith, Grown;
    if a.center == b.center {
      var j := Joined(sqrt, a, b);
      UnitXAxis();
      PointAtDistance(a.center, X_DIRECTION, 0.0, 0.0);
      CoversWithin(j, a, 0.0);
      CoversWithin(j, b, 0.0);
    } else {
      GrownCovers(sqrt, a, Zenith(sqrt, a, b));
      ZenithOnLine(sqrt, a, b);
      var d, u := Length(sqrt, Sub(b.center, a.center)), Normalize(sqrt, Sub(b.center, a.center));
      PointAtDistance(a.center, u, 0.0, 0.0);
      CoversAlongLine(a.center, u, 0.0, a.radius, d, b.radius);
      CoversAlongLine(a.center, u, (d + b.radius - a.radius) / 2.0, (d + b.radius + a.radius) / 2.0, d, b.radius);
    }
  }

  /** No ball that covers both is smaller than the extended one. */
  lemma JoinedSmallest(sqrt: real -> real, a: Ball, b: Ball, c: Ball)
    requires IsRoot(sqrt) && 0.0 <= a.radius && 0.0 <= b.radius
    requires Covers(c, a) && Covers(c, b)
    ensures Joined(sqrt, a, b).radius <= c.radius
  {
    hide Norm2, Dot, Scale, Add, Sub, PointAt, Normalize, Length, Grown;
    UnitXAxis();
    RadiusOfCover(c, a, X_DIRECTION);
    RadiusOfCover(c, b, X_DIRECTION);
    if a.center != b.center {
      ZenithOnLine(sqrt, a, b);
      var u := Normalize(sqrt, Sub(b.center, a.center));
      PointAtDistance(b.center, u, b.radius, 0.0);
      assert In(Zenith(sqrt, a, b), b);
      GrownSmallest(sqrt, a, Zenith(sqrt, a, b), c);
    }
  }

  /** The swallowed case: a unit ball at the origin extended by a ball of radius
      5 one unit away loses the point (-4, 0, 0) of the other ball. */
  lemma JoinedSwallowed(sqrt: real -> real)
    requires IsRoot(sqrt)
    ensures var a, b := Ball(ORIGIN, 1.0), Ball(Vec(1.0, 0.0, 0.0), 5.0);
      && In(Vec(-4.0, 0.0, 0.0), b)
      && !In(Vec(-4.0, 0.0, 0.0), Joined(sqrt, a, b))
  {
    hide Norm2, Dot, Scale, Add, Sub, PointAt, Normalize, Length, Grown, Joined, Zenith;
    var a, b := Ball(ORIGIN, 1.0), Ball(Vec(1.0, 0.0, 0.0), 5.0);
    UnitXAxis();
    OnXAxis(1.0);
    OnXAxis(-4.0);
    LengthAlong(sqrt, ORIGIN, X_DIRECTION, 1.0);
    ZenithOnLine(sqrt, a, b);
    PointAtDistance(ORIGIN, X_DIRECTION, -4.0, 1.0);
    PointAtDistance(ORIGIN, X_DIRECTION, -4.0, 2.5);
  }

  lemma OnXAxis(t: real)
    ensures PointAt(ORIGIN, X_DIRECTION, t) == Vec(t, 0.0, 0.0)
  {
  }
}
