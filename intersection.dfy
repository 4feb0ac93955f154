// `Figure.intersection` of app/static/js/geometry-classes.js: the crossing
// points of two figures, for the pairs it supports (circle and circle, line
// and line, line and circle, lines including segments, circles including
// circles by centre and edge). Every other pair has no intersection.
module Intersection {
  import opened Wrappers
  import opened Geometry
  import opened Straight

  /** What the intersection routine reads of a figure. */
  datatype Geom =
    | CircleG(c: Vec, r: real)              // Circle, CircleByCenterEdge
    | LineG(a: Vec, b: Vec, segment: bool)  // Line, Segment
    | OtherG                                // Point, Arc, ArcThrough3Points, Angle

  // ---------------------------------------------------------------------
  // Line ⨯ line

  /** The 2D cross product of the two directions. */
  function Denom(a1: Vec, b1: Vec, a2: Vec, b2: Vec): real
  {
    Cross(Sub(b1, a1), Sub(b2, a2))
  }

  /** The crossing's parameter on the first line, t. */
  function ParamT(a1: Vec, b1: Vec, a2: Vec, b2: Vec): real
    requires Denom(a1, b1, a2, b2) != 0.0
  {
    Cross(Sub(a2, a1), Sub(b2, a2)) / Denom(a1, b1, a2, b2)
  }

  /** The crossing's parameter on the second line, u. */
  function ParamU(a1: Vec, b1: Vec, a2: Vec, b2: Vec): real
    requires Denom(a1, b1, a2, b2) != 0.0
  {
    Cross(Sub(a2, a1), Sub(b1, a1)) / Denom(a1, b1, a2, b2)
  }

  /** A parameter passes a segment's test when it lies in [-1e-9, 1 + 1e-9];
      a line accepts every parameter. */
  predicate Admits(segment: bool, t: real)
  {
    !segment || (-EPS <= t && t <= 1.0 + EPS)
  }

  /** Line/Segment ⨯ Line/Segment: nothing for (nearly) parallel lines,
      nothing when a segment's parameter falls outside it, otherwise the
      point at parameter t on the first line. */
  function LineLine(a1: Vec, b1: Vec, seg1: bool, a2: Vec, b2: Vec, seg2: bool): (r: seq<Vec>)
    ensures |r| <= 1
    ensures r != [] <==>
      Abs(Denom(a1, b1, a2, b2)) >= EPS &&
      Admits(seg1, ParamT(a1, b1, a2, b2)) && Admits(seg2, ParamU(a1, b1, a2, b2))
    ensures r != [] ==> r[0] == At(a1, b1, ParamT(a1, b1, a2, b2)) && r[0] == At(a2, b2, ParamU(a1, b1, a2, b2))
  {
    var den := Denom(a1, b1, a2, b2);
    if Abs(den) < EPS then []
    else
      var t := ParamT(a1, b1, a2, b2);
      var u := ParamU(a1, b1, a2, b2);
      if seg1 && (t < -EPS || t > 1.0 + EPS) then []
      else if seg2 && (u < -EPS || u > 1.0 + EPS) then []
      else
        LinesMeet(a1, b1, a2, b2);
        [At(a1, b1, t)]
  }

  /** Cramer's rule: with t·den and u·den the two cross products,
      t·r1 - u·r2 = q. */
  lemma CramerScalar(qx: real, qy: real, r1x: real, r1y: real, r2x: real, r2y: real, den: real, t: real, u: real)
    requires den == r1x * r2y - r1y * r2x && den != 0.0
    requires t * den == qx * r2y - qy * r2x && u * den == qx * r1y - qy * r1x
    ensures t * r1x - u * r2x == qx && t * r1y - u * r2y == qy
  {
    assert den * (t * r1x - u * r2x) == (t * den) * r1x - (u * den) * r2x;
    assert (t * den) * r1x - (u * den) * r2x == den * qx;
    assert den * (t * r1y - u * r2y) == (t * den) * r1y - (u * den) * r2y;
    assert (t * den) * r1y - (u * den) * r2y == den * qy;
  }

  lemma MulDiv(n: real, d: real, u: real)
    requires d != 0.0 && u == n / d
    ensures u * d == n
  {
  }

  /** The point at parameter t on the first line is the point at
      parameter u on the second: the returned point lies on both lines. */
  lemma LinesMeet(a1: Vec, b1: Vec, a2: Vec, b2: Vec)
    requires Denom(a1, b1, a2, b2) != 0.0
    ensures At(a1, b1, ParamT(a1, b1, a2, b2)) == At(a2, b2, ParamU(a1, b1, a2, b2))
  {
    var den := Denom(a1, b1, a2, b2);
    var t := ParamT(a1, b1, a2, b2);
    var u := ParamU(a1, b1, a2, b2);
    var q, r1, r2 := Sub(a2, a1), Sub(b1, a1), Sub(b2, a2);
    MulDiv(Cross(q, r2), den, t);
    MulDiv(Cross(q, r1), den, u);
    CramerScalar(q.x, q.y, r1.x, r1.y, r2.x, r2.y, den, t, u);
  }

  // ---------------------------------------------------------------------
  // Line ⨯ circle

  /** The quadratic a·t² + b·t + c = 0 whose roots are the parameters at
      which the line a→b meets the circle. */
  function QuadA(a: Vec, b: Vec): real { Dot(Sub(b, a), Sub(b, a)) }
  function QuadB(a: Vec, b: Vec, c: Vec): real { 2.0 * Dot(Sub(a, c), Sub(b, a)) }
  function QuadC(a: Vec, c: Vec, radius: real): real { Dot(Sub(a, c), Sub(a, c)) - radius * radius }
  function Disc(a: Vec, b: Vec, c: Vec, radius: real): real
  {
    QuadB(a, b, c) * QuadB(a, b, c) - 4.0 * QuadA(a, b) * QuadC(a, c, radius)
  }

  /** The point at parameter t, kept only when a segment admits t. */
  function PushIfValid(a: Vec, b: Vec, segment: bool, t: real): (r: seq<Vec>)
    ensures r != [] <==> Admits(segment, t)
    ensures r != [] ==> r == [At(a, b, t)]
  {
    if segment && (t < -EPS || t > 1.0 + EPS) then [] else [At(a, b, t)]
  }

  /** Line/Segment ⨯ Circle: nothing when the discriminant is negative;
      otherwise the admitted points among the two roots, the second one
      only when it differs from the first by more than 1e-9. None where the
      JavaScript computes NaN: a line whose two points coincide gives a zero
      leading coefficient and 0/0 roots. */
  function LineCircle(a: Vec, b: Vec, segment: bool, c: Vec, radius: real, h: Host): (r: Option<seq<Vec>>)
    ensures r.None? <==> 0.0 <= Disc(a, b, c, radius) && QuadA(a, b) == 0.0
    ensures Disc(a, b, c, radius) < 0.0 ==> r == Some([])
    ensures r.Some? ==> |r.value| <= 2
    // Every point is the point at an admitted root.
    ensures r.Some? ==> forall q :: q in r.value ==>
      QuadA(a, b) != 0.0 &&
      ((Admits(segment, T1(a, b, c, radius, h)) && q == At(a, b, T1(a, b, c, radius, h))) ||
       (Admits(segment, T2(a, b, c, radius, h)) && q == At(a, b, T2(a, b, c, radius, h))))
    // The second root counts only when it differs from the first by more than 1e-9.
    ensures r.Some? && |r.value| == 2 ==>
      QuadA(a, b) != 0.0 && Abs(T2(a, b, c, radius, h) - T1(a, b, c, radius, h)) > EPS
    // A line that meets the circle yields a point, and so does a segment
    // that admits the first root.
    ensures 0.0 <= Disc(a, b, c, radius) && QuadA(a, b) != 0.0 ==>
      r.Some? && (Admits(segment, T1(a, b, c, radius, h)) ==> At(a, b, T1(a, b, c, radius, h)) in r.value)
    ensures !segment && 0.0 <= Disc(a, b, c, radius) && QuadA(a, b) != 0.0 ==> r.Some? && 1 <= |r.value|
  {
    var disc := Disc(a, b, c, radius);
    if disc < 0.0 then Some([])
    else if QuadA(a, b) == 0.0 then None
    else
      var t1, t2 := T1(a, b, c, radius, h), T2(a, b, c, radius, h);
      Some(PushIfValid(a, b, segment, t1) + (if Abs(t2 - t1) > EPS then PushIfValid(a, b, segment, t2) else []))
  }

  /** The two roots of the quadratic, the first with the root of the
      discriminant subtracted. */
  function T1(a: Vec, b: Vec, c: Vec, radius: real, h: Host): real
    requires QuadA(a, b) != 0.0
  {
    (-QuadB(a, b, c) - h.sqrt(Disc(a, b, c, radius))) / (2.0 * QuadA(a, b))
  }

  function T2(a: Vec, b: Vec, c: Vec, radius: real, h: Host): real
    requires QuadA(a, b) != 0.0
  {
    (-QuadB(a, b, c) + h.sqrt(Disc(a, b, c, radius))) / (2.0 * QuadA(a, b))
  }

  lemma QuadRoot(a: real, b: real, c: real, s: real, t: real)
    requires a != 0.0 && s * s == b * b - 4.0 * a * c
    requires t * (2.0 * a) == -b - s || t * (2.0 * a) == -b + s
    ensures a * t * t + b * t + c == 0.0
  {
    var w := t * (2.0 * a) + b;
    assert w * w == s * s;
    assert w * w == 4.0 * a * (a * t * t + b * t) + b * b;
    assert 4.0 * a * (a * t * t + b * t + c) == 0.0;
  }

  lemma OnCircleScalar(fx: real, fy: real, dx: real, dy: real, t: real, r: real, a: real, b: real, c: real)
    requires a == dx * dx + dy * dy && b == 2.0 * (fx * dx + fy * dy) && c == fx * fx + fy * fy - r * r
    requires a * t * t + b * t + c == 0.0
    ensures (fx + t * dx) * (fx + t * dx) + (fy + t * dy) * (fy + t * dy) == r * r
  {
  }

  /** A root of the quadratic is a parameter at which the line is on the
      circle. */
  lemma RootOnCircle(a: Vec, b: Vec, c: Vec, radius: real, t: real)
    requires QuadA(a, b) * t * t + QuadB(a, b, c) * t + QuadC(a, c, radius) == 0.0
    ensures Dist2(At(a, b, t), c) == radius * radius
  {
    var d, f := Sub(b, a), Sub(a, c);
    OnCircleScalar(f.x, f.y, d.x, d.y, t, radius, QuadA(a, b), QuadB(a, b, c), QuadC(a, c, radius));
    assert Sub(At(a, b, t), c) == Vec(f.x + t * d.x, f.y + t * d.y);
  }

  /** Both roots the JavaScript computes solve the quadratic. */
  lemma RootsSolve(a: Vec, b: Vec, c: Vec, radius: real, h: Host)
    requires HostOk(h) && 0.0 <= Disc(a, b, c, radius) && QuadA(a, b) != 0.0
    ensures var t := T1(a, b, c, radius, h);
      QuadA(a, b) * t * t + QuadB(a, b, c) * t + QuadC(a, c, radius) == 0.0
    ensures var t := T2(a, b, c, radius, h);
      QuadA(a, b) * t * t + QuadB(a, b, c) * t + QuadC(a, c, radius) == 0.0
  {
    var s := h.sqrt(Disc(a, b, c, radius));
    var t1, t2 := T1(a, b, c, radius, h), T2(a, b, c, radius, h);
    MulDiv(-QuadB(a, b, c) - s, 2.0 * QuadA(a, b), t1);
    MulDiv(-QuadB(a, b, c) + s, 2.0 * QuadA(a, b), t2);
    QuadRoot(QuadA(a, b), QuadB(a, b, c), QuadC(a, c, radius), s, t1);
    QuadRoot(QuadA(a, b), QuadB(a, b, c), QuadC(a, c, radius), s, t2);
  }

  /** The points at both roots lie on the circle. */
  lemma RootsOnCircle(a: Vec, b: Vec, c: Vec, radius: real, h: Host)
    requires HostOk(h) && 0.0 <= Disc(a, b, c, radius) && QuadA(a, b) != 0.0
    ensures Dist2(At(a, b, T1(a, b, c, radius, h)), c) == Sq(radius)
    ensures Dist2(At(a, b, T2(a, b, c, radius, h)), c) == Sq(radius)
  {
    RootsSolve(a, b, c, radius, h);
    RootOnCircle(a, b, c, radius, T1(a, b, c, radius, h));
    RootOnCircle(a, b, c, radius, T2(a, b, c, radius, h));
  }

  /** Every point the line-circle case returns lies on the circle. */
  lemma LineCircleOnCircle(a: Vec, b: Vec, segment: bool, c: Vec, radius: real, h: Host)
    requires HostOk(h) && LineCircle(a, b, segment, c, radius, h).Some?
    ensures forall q :: q in LineCircle(a, b, segment, c, radius, h).value ==> Dist2(q, c) == Sq(radius)
  {
    if 0.0 <= Disc(a, b, c, radius) {
      RootsOnCircle(a, b, c, radius, h);
    }
  }

  // ---------------------------------------------------------------------
  // Circle ⨯ circle

  /** Circle ⨯ Circle: nothing for (nearly) coincident centres or circles
      that miss each other with tolerance 1e-9; the foot point alone when
      the half chord is below 1e-9 (touching circles); otherwise the two
      points on either side of the line of centres. */
  function CircleCircle(c1: Vec, r1: real, c2: Vec, r2: real, h: Host): (r: seq<Vec>)
    ensures |r| <= 2
    ensures Len(Sub(c2, c1), h) < EPS ==> r == []
    ensures Len(Sub(c2, c1), h) > r1 + r2 + EPS ==> r == []
    ensures Len(Sub(c2, c1), h) < Abs(r1 - r2) - EPS ==> r == []
    // Centres apart whose circles neither miss nor nest give a point.
    ensures var d := Len(Sub(c2, c1), h);
      EPS <= d <= r1 + r2 + EPS && d >= Abs(r1 - r2) - EPS ==> 1 <= |r|
  {
    var d := Len(Sub(c2, c1), h);
    if d < EPS || d > r1 + r2 + EPS || d < Abs(r1 - r2) - EPS then []
    else
      var a := FootDistance(r1, r2, d);
      ChordEnds(c1, c2, d, a, HalfChord(r1, a, h))
  }

  /** How far the foot of the common chord lies from c1 along the line of
      centres, d apart: the solution of the radical-line equation. */
  function FootDistance(r1: real, r2: real, d: real): (a: real)
    requires d != 0.0
    ensures a * (2.0 * d) == r1 * r1 - r2 * r2 + d * d
  {
    (r1 * r1 - r2 * r2 + d * d) / (2.0 * d)
  }

  /** Half the common chord: the root of r1² − a², clamped at 0. */
  function HalfChord(r1: real, a: real, h: Host): real
  {
    h.sqrt(Max(0.0, r1 * r1 - a * a))
  }

  /** The ends of the common chord whose half length is hh: the foot alone
      below 1e-9, otherwise the points hh on either side of it. */
  function ChordEnds(c1: Vec, c2: Vec, d: real, a: real, hh: real): (r: seq<Vec>)
    requires d != 0.0
    ensures 1 <= |r| <= 2
    ensures |r| == 2 <==> hh >= EPS
    ensures hh < EPS ==> r == [FootPoint(c1, c2, d, a)]
  {
    var foot := FootPoint(c1, c2, d, a);
    if hh < EPS then [foot] else [ChordPoint(foot, c1, c2, d, hh), ChordPoint(foot, c1, c2, d, -hh)]
  }

  /** The foot of the common chord: a along the line of centres from c1,
      whose length is d. */
  function FootPoint(c1: Vec, c2: Vec, d: real, a: real): Vec
    requires d != 0.0
  {
    Vec(c1.x + (a * (c2.x - c1.x)) / d, c1.y + (a * (c2.y - c1.y)) / d)
  }

  /** The point k across the line of centres from the foot (the JavaScript
      subtracts for the second point, which is adding -k). */
  function ChordPoint(foot: Vec, c1: Vec, c2: Vec, d: real, k: real): Vec
    requires d != 0.0
  {
    Vec(foot.x + k * (-(c2.y - c1.y)) / d, foot.y + k * (c2.x - c1.x) / d)
  }

  /** Both points of a two-point answer lie on both circles: each is the
      foot point moved across the line of centres by the half chord, and
      the half chord's square is r1² minus the foot's distance squared. */
  lemma CircleCircleOnCircles(c1: Vec, r1: real, c2: Vec, r2: real, h: Host)
    requires HostOk(h) && |CircleCircle(c1, r1, c2, r2, h)| == 2
    ensures forall q :: q in CircleCircle(c1, r1, c2, r2, h) ==> Dist2(q, c1) == r1 * r1 && Dist2(q, c2) == r2 * r2
  {
    TwoPointsApart(c1, r1, c2, r2, h);
    LenFacts(Sub(c2, c1), h);
    HalfChordSquare(r1, FootDistance(r1, r2, Len(Sub(c2, c1), h)), h);
    TwoPointsOnCircles(c1, r1, c2, r2, h);
  }

  /** CircleCircleOnCircles with the two facts it needs of the square root
      stated for the centre distance d and the half chord alone. */
  lemma TwoPointsOnCircles(c1: Vec, r1: real, c2: Vec, r2: real, h: Host)
    requires |CircleCircle(c1, r1, c2, r2, h)| == 2
    requires var d := Len(Sub(c2, c1), h);
      d * d == Dot(Sub(c2, c1), Sub(c2, c1)) &&
      (d != 0.0 ==> var a := FootDistance(r1, r2, d); HalfChord(r1, a, h) * HalfChord(r1, a, h) == r1 * r1 - a * a)
    ensures forall q :: q in CircleCircle(c1, r1, c2, r2, h) ==> Dist2(q, c1) == r1 * r1 && Dist2(q, c2) == r2 * r2
  {
    TwoPointsApart(c1, r1, c2, r2, h);
    var d := Len(Sub(c2, c1), h);
    var a := FootDistance(r1, r2, d);
    ChordEndsOnCircles(c1, r1, c2, r2, d, a, HalfChord(r1, a, h));
    TwoPoints(c1, r1, c2, r2, h);
  }

  /** Both ends of a common chord lie on both circles when a solves the
      radical-line equation a·2d = r1² − r2² + d² and hh² = r1² − a². */
  lemma ChordEndsOnCircles(c1: Vec, r1: real, c2: Vec, r2: real, d: real, a: real, hh: real)
    requires d != 0.0 && d * d == Dot(Sub(c2, c1), Sub(c2, c1)) && hh >= EPS
    requires a * (2.0 * d) == r1 * r1 - r2 * r2 + d * d && hh * hh == r1 * r1 - a * a
    ensures forall q :: q in ChordEnds(c1, c2, d, a, hh) ==> Dist2(q, c1) == r1 * r1 && Dist2(q, c2) == r2 * r2
  {
    assert (-hh) * (-hh) == hh * hh;
    var m := 1.0 / d;
    var foot := FootPoint(c1, c2, d, a);
    ChordOffset(c1, c2, d, a, hh, m);
    ChordOffset(c1, c2, d, a, -hh, m);
    ChordPointOnCircles(ChordPoint(foot, c1, c2, d, hh), c1, c2, r1, r2, d, m, a, hh);
    ChordPointOnCircles(ChordPoint(foot, c1, c2, d, -hh), c1, c2, r1, r2, d, m, a, -hh);
  }

  /** A two-point answer has centres and chord ends at least 1e-9 apart. */
  lemma TwoPointsApart(c1: Vec, r1: real, c2: Vec, r2: real, h: Host)
    requires |CircleCircle(c1, r1, c2, r2, h)| == 2
    ensures var d := Len(Sub(c2, c1), h);
      d >= EPS && HalfChord(r1, FootDistance(r1, r2, d), h) >= EPS
  {
    TwoPoints(c1, r1, c2, r2, h);
  }

  /** A two-point answer is the pair of chord ends at a half chord of at
      least 1e-9, for centres at least 1e-9 apart. */
  lemma TwoPoints(c1: Vec, r1: real, c2: Vec, r2: real, h: Host)
    requires |CircleCircle(c1, r1, c2, r2, h)| == 2
    ensures var d := Len(Sub(c2, c1), h);
      d >= EPS &&
      var a := FootDistance(r1, r2, d);
      HalfChord(r1, a, h) >= EPS && CircleCircle(c1, r1, c2, r2, h) == ChordEnds(c1, c2, d, a, HalfChord(r1, a, h))
  {
  }

  /** A half chord of at least 1e-9 is the root of r1² − a² itself, not
      of the clamped 0. */
  lemma HalfChordSquare(r1: real, a: real, h: Host)
    requires HostOk(h) && HalfChord(r1, a, h) >= EPS
    ensures HalfChord(r1, a, h) * HalfChord(r1, a, h) == r1 * r1 - a * a
  {
  }

  /** The point k across the line of centres from the foot lies on both
      circles when a solves the radical-line equation and k² = r1² − a². */
  lemma ChordPointOnCircles(q: Vec, c1: Vec, c2: Vec, r1: real, r2: real, d: real, m: real, a: real, k: real)
    requires d != 0.0 && d * d == Dot(Sub(c2, c1), Sub(c2, c1)) && m == 1.0 / d
    requires a * (2.0 * d) == r1 * r1 - r2 * r2 + d * d && k * k == r1 * r1 - a * a
    requires q.x - c1.x == a * ((c2.x - c1.x) * m) - k * ((c2.y - c1.y) * m)
    requires q.y - c1.y == a * ((c2.y - c1.y) * m) + k * ((c2.x - c1.x) * m)
    ensures Dist2(q, c1) == r1 * r1 && Dist2(q, c2) == r2 * r2
  {
    ChordScalar(c2.x - c1.x, c2.y - c1.y, d, m, a, k, r1, r2, q.x - c1.x, q.y - c1.y, q.x - c2.x, q.y - c2.y);
  }

  /** The chord point's offset from c1, with 1/d written as m. */
  lemma ChordOffset(c1: Vec, c2: Vec, d: real, a: real, k: real, m: real)
    requires d != 0.0 && m == 1.0 / d
    ensures var q := ChordPoint(FootPoint(c1, c2, d, a), c1, c2, d, k);
      q.x - c1.x == a * ((c2.x - c1.x) * m) - k * ((c2.y - c1.y) * m) &&
      q.y - c1.y == a * ((c2.y - c1.y) * m) + k * ((c2.x - c1.x) * m)
  {
    var dx, dy := c2.x - c1.x, c2.y - c1.y;
    QuotientIsProduct(a * dx, d, m);
    QuotientIsProduct(a * dy, d, m);
    QuotientIsProduct(k * (-dy), d, m);
    QuotientIsProduct(k * dx, d, m);
  }

  lemma QuotientIsProduct(n: real, d: real, m: real)
    requires d != 0.0 && m == 1.0 / d
    ensures n / d == n * m
  {
  }

  /** The algebra behind ChordPointOnCircles: (ex, ey) is a along the
      line of centres (dx, dy) and k across it, with m = 1/d. */
  lemma ChordScalar(dx: real, dy: real, d: real, m: real, a: real, k: real, r1: real, r2: real,
                    ex: real, ey: real, fx: real, fy: real)
    requires d != 0.0 && d * d == dx * dx + dy * dy && m == 1.0 / d
    requires a * (2.0 * d) == r1 * r1 - r2 * r2 + d * d && k * k == r1 * r1 - a * a
    requires ex == a * (dx * m) - k * (dy * m) && ey == a * (dy * m) + k * (dx * m)
    ensures ex * ex + ey * ey == r1 * r1
    requires fx == ex - dx && fy == ey - dy
    ensures fx * fx + fy * fy == r2 * r2
  {
    RadialScalar(dx, dy, d, 1.0, m);
    MulDiv(1.0, d, m);
    var u, v := dx * m, dy * m;
    assert dx == d * u && dy == d * v;
    RotationKeepsLength(a, k, u, v);
    assert fx == (a - d) * u - k * v && fy == (a - d) * v + k * u;
    RotationKeepsLength(a - d, k, u, v);
    assert (a - d) * (a - d) + k * k == r2 * r2;
  }

  /** Turning (p, q) by a unit vector keeps its squared length. */
  lemma RotationKeepsLength(p: real, q: real, u: real, v: real)
    requires u * u + v * v == 1.0
    ensures (p * u - q * v) * (p * u - q * v) + (p * v + q * u) * (p * v + q * u) == p * p + q * q
  {
    assert (p * u - q * v) * (p * u - q * v) + (p * v + q * u) * (p * v + q * u) == (p * p + q * q) * (u * u + v * v);
  }

  // ---------------------------------------------------------------------
  // The dispatcher

  /** `Figure.intersection`: None where the JavaScript computes NaN points. */
  function Intersect(g1: Geom, g2: Geom, h: Host): (r: Option<seq<Vec>>)
    ensures (g1.OtherG? || g2.OtherG?) ==> r == Some([])
    ensures r.Some? ==> |r.value| <= 2
    ensures g1.LineG? && g2.LineG? ==> r.Some? && |r.value| <= 1
  {
    match (g1, g2)
    case (CircleG(c1, r1), CircleG(c2, r2)) => Some(CircleCircle(c1, r1, c2, r2, h))
    case (LineG(a1, b1, s1), LineG(a2, b2, s2)) => Some(LineLine(a1, b1, s1, a2, b2, s2))
    case (LineG(a, b, s), CircleG(c, r)) => LineCircle(a, b, s, c, r, h)
    case (CircleG(c, r), LineG(a, b, s)) => LineCircle(a, b, s, c, r, h)
    case _ => Some([])
  }

  /** Every point of a line ⨯ circle answer lies on the circle, whichever
      order the two figures come in. */
  lemma IntersectLineCircleOnCircle(g1: Geom, g2: Geom, h: Host)
    requires HostOk(h) && Intersect(g1, g2, h).Some?
    requires (g1.LineG? && g2.CircleG?) || (g1.CircleG? && g2.LineG?)
    ensures var cg := if g1.CircleG? then g1 else g2;
      forall q :: q in Intersect(g1, g2, h).value ==> Dist2(q, cg.c) == Sq(cg.r)
  {
    if g1.LineG? {
      LineCircleOnCircle(g1.a, g1.b, g1.segment, g2.c, g2.r, h);
    } else {
      LineCircleOnCircle(g2.a, g2.b, g2.segment, g1.c, g1.r, h);
    }
  }
}
