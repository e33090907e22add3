/** The segment intersection test over exact coordinates, and its meaning: two closed segments share a point. */
module Segments {

  datatype GeoPosition2D = GeoPosition2D(lat: real, lon: real)

  datatype Orientation = Colinear | Clockwise | Counterclockwise

  function Turn(p: GeoPosition2D, q: GeoPosition2D, r: GeoPosition2D): real {
    (q.lat - p.lat) * (r.lon - q.lon) - (q.lon - p.lon) * (r.lat - q.lat)
  }

  function Orient(p: GeoPosition2D, q: GeoPosition2D, r: GeoPosition2D): Orientation {
    var value := Turn(p, q, r);
    if value == 0.0 then Colinear else if value > 0.0 then Clockwise else Counterclockwise
  }

  function Max(a: real, b: real): real { if a < b then b else a }

  function Min(a: real, b: real): real { if b < a then b else a }

  /** `q` lies in the box spanned by `p` and `r`. */
  predicate OnSegment(p: GeoPosition2D, q: GeoPosition2D, r: GeoPosition2D) {
    && q.lon <= Max(p.lon, r.lon) && q.lon >= Min(p.lon, r.lon)
    && q.lat <= Max(p.lat, r.lat) && q.lat >= Min(p.lat, r.lat)
  }

  predicate Intersects(p1: GeoPosition2D, q1: GeoPosition2D, p2: GeoPosition2D, q2: GeoPosition2D) {
    var o0, o1 := Orient(p1, q1, p2), Orient(p1, q1, q2);
    var o2, o3 := Orient(p2, q2, p1), Orient(p2, q2, q1);
    if o0 != o1 && o2 != o3 then true
    else if o0 == Colinear && OnSegment(p1, p2, q1) then true
    else if o1 == Colinear && OnSegment(p1, q2, q1) then true
    else if o2 == Colinear && OnSegment(p2, p1, q2) then true
    else if o3 == Colinear && OnSegment(p2, q1, q2) then true
    else false
  }

  // ----- What it means

  /** A fraction `t` of the step `d`, taken from `a`. */
  function Mix(a: real, d: real, t: real): real { a + t * d }

  /** The point a fraction `t` of the way from `p` to `q`. */
  function At(p: GeoPosition2D, q: GeoPosition2D, t: real): GeoPosition2D {
    GeoPosition2D(Mix(p.lat, q.lat - p.lat, t), Mix(p.lon, q.lon - p.lon, t))
  }

  ghost predicate Contains(p: GeoPosition2D, q: GeoPosition2D, x: GeoPosition2D) {
    exists t: real :: 0.0 <= t <= 1.0 && x == At(p, q, t)
  }

  ghost predicate Share(p1: GeoPosition2D, q1: GeoPosition2D, p2: GeoPosition2D, q2: GeoPosition2D) {
    exists x :: Contains(p1, q1, x) && Contains(p2, q2, x)
  }

  // ----- Algebra

  lemma PositiveProduct(a: real, b: real)
    requires a > 0.0 && b > 0.0
    ensures a * b > 0.0
  {
  }

  lemma NegativeProduct(a: real, b: real)
    requires a > 0.0 && b < 0.0
    ensures a * b < 0.0
  {
  }

  lemma NonzeroProduct(a: real, b: real)
    requires a != 0.0 && b != 0.0
    ensures a * b != 0.0
  {
  }

  lemma Scaled(d: real, x: real, y: real)
    requires d != 0.0 && d * x == d * y
    ensures x == y
  {
    if x != y { NonzeroProduct(d, x - y); }
  }

  /** A quotient of two numbers of the same sign, the upper one no larger. */
  lemma UnitQuotient(n: real, d: real) returns (t: real)
    requires (0.0 <= n <= d && d > 0.0) || (d <= n <= 0.0 && d < 0.0)
    ensures 0.0 <= t <= 1.0 && t * d == n
  {
    t := n / d;
    assert t * d == n;
    if t < 0.0 { if d > 0.0 { PositiveProduct(-t, d); } else { PositiveProduct(-t, -d); } }
    if t > 1.0 { if d > 0.0 { PositiveProduct(t - 1.0, d); } else { PositiveProduct(t - 1.0, -d); } }
  }

  lemma ConvexPositive(a: real, b: real, t: real)
    requires a > 0.0 && b > 0.0 && 0.0 <= t <= 1.0
    ensures (1.0 - t) * a + t * b > 0.0
  {
    if t > 0.0 { PositiveProduct(t, b); }
    if t < 1.0 { PositiveProduct(1.0 - t, a); }
  }

  lemma ConvexNegative(a: real, b: real, t: real)
    requires a < 0.0 && b < 0.0 && 0.0 <= t <= 1.0
    ensures (1.0 - t) * a + t * b < 0.0
  {
    ConvexPositive(-a, -b, t);
  }

  /** Along a segment, the turn about a fixed line changes linearly. */
  lemma TurnAlong(p: GeoPosition2D, q: GeoPosition2D, a: GeoPosition2D, b: GeoPosition2D, t: real)
    ensures Turn(p, q, At(a, b, t)) == (1.0 - t) * Turn(p, q, a) + t * Turn(p, q, b)
  {
  }

  lemma TurnsBalance(p1: GeoPosition2D, q1: GeoPosition2D, p2: GeoPosition2D, q2: GeoPosition2D)
    ensures Turn(p2, q2, p1) - Turn(p2, q2, q1) == Turn(p1, q1, q2) - Turn(p1, q1, p2)
  {
  }

  /** Cramer's rule for the crossing of the two lines, before dividing. */
  lemma Cramer(p1: GeoPosition2D, q1: GeoPosition2D, p2: GeoPosition2D, q2: GeoPosition2D)
    ensures var d := Turn(p1, q1, q2) - Turn(p1, q1, p2);
      var c1, c3 := Turn(p1, q1, p2), Turn(p2, q2, p1);
      && d * (p2.lat - p1.lat) == c1 * (q2.lat - p2.lat) + c3 * (q1.lat - p1.lat)
      && d * (p2.lon - p1.lon) == c1 * (q2.lon - p2.lon) + c3 * (q1.lon - p1.lon)
  {
  }

  // ----- The test answers yes only when the segments meet

  lemma CrossingShares(p1: GeoPosition2D, q1: GeoPosition2D, p2: GeoPosition2D, q2: GeoPosition2D)
    requires Orient(p1, q1, p2) != Orient(p1, q1, q2) && Orient(p2, q2, p1) != Orient(p2, q2, q1)
    ensures Share(p1, q1, p2, q2)
  {
    var c1, c2, c3, c4 := Turn(p1, q1, p2), Turn(p1, q1, q2), Turn(p2, q2, p1), Turn(p2, q2, q1);
    TurnsBalance(p1, q1, p2, q2);
    var t := UnitQuotient(c1, c1 - c2);
    var s := UnitQuotient(c3, c3 - c4);
    LinesMeet(p1, q1, p2, q2, t, s);
    assert Contains(p1, q1, At(p1, q1, s)) && Contains(p2, q2, At(p2, q2, t));
  }

  lemma LinesMeet(p1: GeoPosition2D, q1: GeoPosition2D, p2: GeoPosition2D, q2: GeoPosition2D, t: real, s: real)
    requires var c1, c2 := Turn(p1, q1, p2), Turn(p1, q1, q2);
      && c1 != c2 && t * (c1 - c2) == c1
      && s * (Turn(p2, q2, p1) - Turn(p2, q2, q1)) == Turn(p2, q2, p1)
    ensures At(p2, q2, t) == At(p1, q1, s)
  {
    var c1, c2, c3 := Turn(p1, q1, p2), Turn(p1, q1, q2), Turn(p2, q2, p1);
    TurnsBalance(p1, q1, p2, q2);
    Cramer(p1, q1, p2, q2);
    MeetingPoint(c2 - c1, t, s, c1, c3, p2.lat, q2.lat, p1.lat, q1.lat);
    MeetingPoint(c2 - c1, t, s, c1, c3, p2.lon, q2.lon, p1.lon, q1.lon);
  }

  lemma MeetingPoint(d: real, t: real, s: real, c1: real, c3: real, a: real, b: real, u: real, v: real)
    requires d != 0.0 && t * -d == c1 && s * d == c3
    requires d * (a - u) == c1 * (b - a) + c3 * (v - u)
    ensures Mix(a, b - a, t) == Mix(u, v - u, s)
  {
    ScaledMix(d, a, b - a, t, -c1);
    ScaledMix(d, u, v - u, s, c3);
    Scaled(d, a + t * (b - a), u + s * (v - u));
  }

  lemma ScaledMix(d: real, a: real, e: real, t: real, c: real)
    requires t * d == c
    ensures d * (a + t * e) == d * a + c * e
  {
    Regrouped(d, t, e);
  }

  lemma Proportional(d: real, e: real, m: real, n: real, t: real)
    requires d != 0.0 && d * m == e * n && t * d == n
    ensures m == t * e
  {
    Regrouped(d, t, e);
    assert n * e == e * n;
    Scaled(d, m, t * e);
  }

  lemma Regrouped(d: real, t: real, e: real)
    ensures d * (t * e) == (t * d) * e
  {
  }

  /** A point in line with a segment and inside its box is on it. */
  lemma BoxedIsContained(p: GeoPosition2D, x: GeoPosition2D, q: GeoPosition2D)
    requires Orient(p, q, x) == Colinear && OnSegment(p, x, q)
    ensures Contains(p, q, x)
  {
    var d, n := q.lat - p.lat, x.lat - p.lat;
    var e, m := q.lon - p.lon, x.lon - p.lon;
    assert d * m == e * n;
    if d != 0.0 {
      var t := UnitQuotient(n, d);
      Proportional(d, e, m, n, t);
      assert x == At(p, q, t);
    } else if e != 0.0 {
      var t := UnitQuotient(m, e);
      assert x == At(p, q, t);
    } else {
      assert x == At(p, q, 0.0);
    }
  }

  // ----- and always when they do

  lemma SharedSides(p: GeoPosition2D, q: GeoPosition2D, a: GeoPosition2D, b: GeoPosition2D, x: GeoPosition2D)
    requires Contains(p, q, x) && Contains(a, b, x)
    ensures Orient(p, q, a) != Orient(p, q, b) || (Orient(p, q, a) == Orient(p, q, b) == Colinear)
  {
    var s: real :| 0.0 <= s <= 1.0 && x == At(p, q, s);
    var t: real :| 0.0 <= t <= 1.0 && x == At(a, b, t);
    TurnAlong(p, q, p, q, s);
    TurnAlong(p, q, a, b, t);
    var c1, c2 := Turn(p, q, a), Turn(p, q, b);
    assert (1.0 - t) * c1 + t * c2 == 0.0;
    if c1 > 0.0 && c2 > 0.0 { ConvexPositive(c1, c2, t); }
    if c1 < 0.0 && c2 < 0.0 { ConvexNegative(c1, c2, t); }
  }

  lemma ContainedIsBoxed(p: GeoPosition2D, q: GeoPosition2D, x: GeoPosition2D)
    requires Contains(p, q, x)
    ensures OnSegment(p, x, q)
  {
    var t: real :| 0.0 <= t <= 1.0 && x == At(p, q, t);
    Mixed(p.lat, q.lat, t);
    Mixed(p.lon, q.lon, t);
  }

  lemma NotNegative(t: real, d: real)
    requires 0.0 <= t <= 1.0 && 0.0 <= d
    ensures 0.0 <= t * d
  {
    if t > 0.0 && d > 0.0 { PositiveProduct(t, d); }
  }

  lemma Complement(t: real, d: real)
    ensures (1.0 - t) * d == d - t * d
  {
  }

  lemma Fraction(t: real, d: real)
    requires 0.0 <= t <= 1.0 && 0.0 <= d
    ensures 0.0 <= t * d <= d
  {
    NotNegative(t, d);
    NotNegative(1.0 - t, d);
    Complement(t, d);
  }

  lemma NegativeFraction(t: real, d: real)
    requires 0.0 <= t <= 1.0 && d <= 0.0
    ensures d <= t * d <= 0.0
  {
    NotPositive(t, d);
    NotPositive(1.0 - t, d);
    Complement(t, d);
  }

  lemma NotPositive(t: real, d: real)
    requires 0.0 <= t && d <= 0.0
    ensures t * d <= 0.0
  {
    if t > 0.0 && d < 0.0 { NegativeProduct(t, d); }
  }

  lemma MixedUp(a: real, d: real, t: real)
    requires 0.0 <= t <= 1.0 && 0.0 <= d
    ensures a <= Mix(a, d, t) <= a + d
  {
    Fraction(t, d);
  }

  lemma MixedDown(a: real, d: real, t: real)
    requires 0.0 <= t <= 1.0 && d <= 0.0
    ensures a + d <= Mix(a, d, t) <= a
  {
    NegativeFraction(t, d);
  }

  lemma Mixed(a: real, b: real, t: real)
    requires 0.0 <= t <= 1.0
    ensures Min(a, b) <= Mix(a, b - a, t) <= Max(a, b)
  {
    if a <= b { MixedUp(a, b - a, t); } else { MixedDown(a, b - a, t); }
  }

  /** On a line with two distinct points, every point in line has a coordinate. */
  lemma Coordinate(p: GeoPosition2D, q: GeoPosition2D, x: GeoPosition2D) returns (a: real)
    requires p != q && Orient(p, q, x) == Colinear
    ensures x == At(p, q, a)
  {
    var d, n := q.lat - p.lat, x.lat - p.lat;
    var e, m := q.lon - p.lon, x.lon - p.lon;
    assert d * m == e * n;
    if d != 0.0 {
      a := n / d;
      assert a * d == n;
      Proportional(d, e, m, n, a);
    } else {
      a := m / e;
      assert a * e == m;
      Scaled(e, n, 0.0);
    }
  }

  lemma SameCoordinate(p: GeoPosition2D, q: GeoPosition2D, a: real, b: real)
    requires p != q && At(p, q, a) == At(p, q, b)
    ensures a == b
  {
    var d, e := q.lat - p.lat, q.lon - p.lon;
    assert d * a == d * b && e * a == e * b;
    if d != 0.0 { Scaled(d, a, b); } else { Scaled(e, a, b); }
  }

  lemma AtOfAt(p: GeoPosition2D, q: GeoPosition2D, a: real, b: real, t: real)
    ensures At(At(p, q, a), At(p, q, b), t) == At(p, q, (1.0 - t) * a + t * b)
  {
    MixOfMixes(p.lat, q.lat - p.lat, a, b, t);
    MixOfMixes(p.lon, q.lon - p.lon, a, b, t);
  }

  lemma MixOfMixes(p: real, d: real, a: real, b: real, t: real)
    ensures p + a * d + t * (p + b * d - (p + a * d)) == p + ((1.0 - t) * a + t * b) * d
  {
    assert p + b * d - (p + a * d) == (b - a) * d;
    assert t * ((b - a) * d) == (t * b - t * a) * d;
    assert ((1.0 - t) * a + t * b) * d == a * d + (t * b - t * a) * d;
  }

  /** Of two overlapping segments on one line, an end of one lies on the other. */
  lemma OverlapHasEnd(p1: GeoPosition2D, q1: GeoPosition2D, p2: GeoPosition2D, q2: GeoPosition2D, x: GeoPosition2D)
    requires Contains(p1, q1, x) && Contains(p2, q2, x)
    requires Orient(p1, q1, p2) == Orient(p1, q1, q2) == Colinear
    ensures Contains(p1, q1, p2) || Contains(p1, q1, q2) || Contains(p2, q2, p1)
  {
    var s: real :| 0.0 <= s <= 1.0 && x == At(p1, q1, s);
    var t: real :| 0.0 <= t <= 1.0 && x == At(p2, q2, t);
    if p1 == q1 {
      assert x == p1;
    } else {
      var a := Coordinate(p1, q1, p2);
      var b := Coordinate(p1, q1, q2);
      AtOfAt(p1, q1, a, b, t);
      SameCoordinate(p1, q1, s, (1.0 - t) * a + t * b);
      if !(0.0 <= a <= 1.0) && !(0.0 <= b <= 1.0) {
        NotOutside(a, b, t);
        var u := UnitQuotient(a, a - b);
        AtOfAt(p1, q1, a, b, u);
        assert (1.0 - u) * a + u * b == a - u * (a - b) == 0.0;
        assert p1 == At(p1, q1, 0.0) == At(p2, q2, u);
      }
    }
  }

  lemma NotOutside(a: real, b: real, t: real)
    requires 0.0 <= t <= 1.0 && 0.0 <= (1.0 - t) * a + t * b <= 1.0
    requires !(0.0 <= a <= 1.0) && !(0.0 <= b <= 1.0)
    ensures (a < 0.0 && b > 1.0) || (b < 0.0 && a > 1.0)
  {
    if a < 0.0 && b < 0.0 { ConvexNegative(a, b, t); }
    if a > 1.0 && b > 1.0 {
      ConvexPositive(a - 1.0, b - 1.0, t);
    }
  }

  /** The test says yes exactly when the closed segments share a point, degenerate and collinear cases included. */
  lemma IntersectsIffShare(p1: GeoPosition2D, q1: GeoPosition2D, p2: GeoPosition2D, q2: GeoPosition2D)
    ensures Intersects(p1, q1, p2, q2) <==> Share(p1, q1, p2, q2)
  {
    if Intersects(p1, q1, p2, q2) {
      YesMeansShare(p1, q1, p2, q2);
    }
    if Share(p1, q1, p2, q2) {
      ShareMeansYes(p1, q1, p2, q2);
    }
  }

  lemma YesMeansShare(p1: GeoPosition2D, q1: GeoPosition2D, p2: GeoPosition2D, q2: GeoPosition2D)
    requires Intersects(p1, q1, p2, q2)
    ensures Share(p1, q1, p2, q2)
  {
    EndsContained(p1, q1);
    EndsContained(p2, q2);
    if Orient(p1, q1, p2) != Orient(p1, q1, q2) && Orient(p2, q2, p1) != Orient(p2, q2, q1) {
      CrossingShares(p1, q1, p2, q2);
    } else if Orient(p1, q1, p2) == Colinear && OnSegment(p1, p2, q1) {
      BoxedIsContained(p1, p2, q1);
    } else if Orient(p1, q1, q2) == Colinear && OnSegment(p1, q2, q1) {
      BoxedIsContained(p1, q2, q1);
    } else if Orient(p2, q2, p1) == Colinear && OnSegment(p2, p1, q2) {
      BoxedIsContained(p2, p1, q2);
    } else {
      BoxedIsContained(p2, q1, q2);
    }
  }

  lemma EndsContained(p: GeoPosition2D, q: GeoPosition2D)
    ensures Contains(p, q, p) && Contains(p, q, q)
  {
    assert p == At(p, q, 0.0) && q == At(p, q, 1.0);
  }

  lemma ShareMeansYes(p1: GeoPosition2D, q1: GeoPosition2D, p2: GeoPosition2D, q2: GeoPosition2D)
    requires Share(p1, q1, p2, q2)
    ensures Intersects(p1, q1, p2, q2)
  {
    var x :| Contains(p1, q1, x) && Contains(p2, q2, x);
    SharedSides(p1, q1, p2, q2, x);
    SharedSides(p2, q2, p1, q1, x);
    TurnsBalance(p1, q1, p2, q2);
    if !(Orient(p1, q1, p2) != Orient(p1, q1, q2) && Orient(p2, q2, p1) != Orient(p2, q2, q1)) {
      OverlapHasEnd(p1, q1, p2, q2, x);
      if Contains(p1, q1, p2) { ContainedIsBoxed(p1, q1, p2); }
      if Contains(p1, q1, q2) { ContainedIsBoxed(p1, q1, q2); }
      if Contains(p2, q2, p1) { ContainedIsBoxed(p2, q2, p1); }
    }
  }
}
