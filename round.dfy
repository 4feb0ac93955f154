// `closest_valid` of the round figures of app/static/js/geometry-classes.js
// (Circle, CircleByCenterEdge, Arc, ArcThrough3Points) and the circumcentre
// that ArcThrough3Points is built on.
module Round {
  import opened Wrappers
  import opened Geometry

  /** `Circle.closest_valid`: the radial projection of `p` on the circle;
      from the centre itself, the point `radius` to its right. */
  function CircleClosest(c: Vec, radius: real, p: Vec, h: Host): (r: Vec)
    requires HostOk(h)
    ensures Len(Sub(p, c), h) == 0.0 ==> r == Add(c, Vec(radius, 0.0))
    ensures Len(Sub(p, c), h) != 0.0 ==> Dist2(r, c) == radius * radius
    ensures Len(Sub(p, c), h) != 0.0 ==> Cross(Sub(r, c), Sub(p, c)) == 0.0
  {
    var v := Sub(p, c);
    if Len(v, h) == 0.0 then Add(c, Vec(radius, 0.0))
    else Add(c, Normalize(v, radius, h))
  }

  /** Every answer of `Circle.closest_valid` lies on the circle. */
  lemma CircleClosestOnCircle(c: Vec, radius: real, p: Vec, h: Host)
    requires HostOk(h)
    ensures Dist2(CircleClosest(c, radius, p, h), c) == radius * radius
  {
    if Len(Sub(p, c), h) == 0.0 {
      assert Sub(CircleClosest(c, radius, p, h), c) == Vec(radius, 0.0);
    }
  }

  // ---------------------------------------------------------------------
  // Arc

  /** `Arc._point_on_circle`. */
  function PointOnCircle(c: Vec, angleDeg: real, radius: real, h: Host): Vec
  {
    var rad := angleDeg * PI / 180.0;
    Vec(c.x + radius * h.cos(rad), c.y + radius * h.sin(rad))
  }

  lemma TrigScalar(r: real, co: real, si: real)
    requires co * co + si * si == 1.0
    ensures (r * co) * (r * co) + (r * si) * (r * si) == r * r
  {
    assert (r * co) * (r * co) + (r * si) * (r * si) == r * r * (co * co + si * si);
  }

  lemma PointOnCircleOnCircle(c: Vec, angleDeg: real, radius: real, h: Host)
    requires HostOk(h)
    ensures Dist2(PointOnCircle(c, angleDeg, radius, h), c) == radius * radius
  {
    var rad := angleDeg * PI / 180.0;
    TrigScalar(radius, h.cos(rad), h.sin(rad));
    assert Sub(PointOnCircle(c, angleDeg, radius, h), c) == Vec(radius * h.cos(rad), radius * h.sin(rad));
  }

  /** The direction of `v` in degrees, brought into [0, 360) as the arc
      does (`if (angProj < 0) angProj += 360`). */
  function DirectionDegrees(v: Vec, h: Host): (r: real)
    requires HostOk(h)
    ensures 0.0 <= r < 360.0
  {
    var a := h.atan2(v.y, v.x) * 180.0 / PI;
    assert -180.0 < a <= 180.0;
    if a < 0.0 then a + 360.0 else a
  }

  /** `Arc.closest_valid`: the radial projection when its direction falls
      in the sweep from `fromAngle` counter-clockwise to `toAngle` (both
      wrapped into [0, 360)), otherwise the nearer end point (the `toAngle`
      end on a tie); from the centre itself, the `fromAngle` end. */
  function ArcClosest(c: Vec, radius: real, fromAngle: real, toAngle: real, p: Vec, h: Host): (r: Vec)
    requires HostOk(h)
    ensures Len(Sub(p, c), h) == 0.0 ==> r == PointOnCircle(c, fromAngle, radius, h)
    ensures Len(Sub(p, c), h) != 0.0 ==>
      var proj := CircleClosest(c, radius, p, h);
      var fromPt := PointOnCircle(c, fromAngle, radius, h);
      var toPt := PointOnCircle(c, toAngle, radius, h);
      (r == proj || r == (if Dist(proj, fromPt, h) < Dist(proj, toPt, h) then fromPt else toPt)) &&
      (r != proj ==> Dist(proj, r, h) <= Dist(proj, fromPt, h) && Dist(proj, r, h) <= Dist(proj, toPt, h))
  {
    if Len(Sub(p, c), h) == 0.0 then PointOnCircle(c, fromAngle, radius, h)
    else
      var proj := CircleClosest(c, radius, p, h);
      var angProj := DirectionDegrees(Sub(proj, c), h);
      if InSweep(angProj, WrapDegrees(fromAngle), WrapDegrees(toAngle)) then proj
      else
        var fromPt := PointOnCircle(c, fromAngle, radius, h);
        var toPt := PointOnCircle(c, toAngle, radius, h);
        if Dist(proj, fromPt, h) < Dist(proj, toPt, h) then fromPt else toPt
  }

  /** The arc keeps the projection exactly when the turn from `fromAngle`
      to the projection's direction is at most the turn from `fromAngle`
      to `toAngle`, whatever the signs and sizes of the two angles. */
  lemma ArcKeepsProjectionWithinSweep(c: Vec, radius: real, fromAngle: real, toAngle: real, p: Vec, h: Host)
    requires HostOk(h) && Len(Sub(p, c), h) != 0.0
    ensures var proj := CircleClosest(c, radius, p, h);
      var turn := Mod360(DirectionDegrees(Sub(proj, c), h) - fromAngle);
      turn <= Mod360(toAngle - fromAngle) ==> ArcClosest(c, radius, fromAngle, toAngle, p, h) == proj
  {
    var proj := CircleClosest(c, radius, p, h);
    var ang := DirectionDegrees(Sub(proj, c), h);
    WrapDegreesIsMod360(fromAngle);
    WrapDegreesIsMod360(toAngle);
    Mod360Range(fromAngle);
    Mod360Range(toAngle);
    InSweepIsTurn(ang, Mod360(fromAngle), Mod360(toAngle));
    Mod360Unique(ang, ang, 0);
    ShiftTurn(ang, fromAngle);
    ShiftTurn(toAngle, fromAngle);
  }

  /** And it gives the projection up, for an end point, exactly when that
      turn is longer. */
  lemma ArcLeavesProjectionOutsideSweep(c: Vec, radius: real, fromAngle: real, toAngle: real, p: Vec, h: Host)
    requires HostOk(h) && Len(Sub(p, c), h) != 0.0
    ensures var proj := CircleClosest(c, radius, p, h);
      var turn := Mod360(DirectionDegrees(Sub(proj, c), h) - fromAngle);
      var r := ArcClosest(c, radius, fromAngle, toAngle, p, h);
      var fromPt := PointOnCircle(c, fromAngle, radius, h);
      var toPt := PointOnCircle(c, toAngle, radius, h);
      Mod360(toAngle - fromAngle) < turn ==>
        r == (if Dist(proj, fromPt, h) < Dist(proj, toPt, h) then fromPt else toPt)
  {
    var proj := CircleClosest(c, radius, p, h);
    var ang := DirectionDegrees(Sub(proj, c), h);
    WrapDegreesIsMod360(fromAngle);
    WrapDegreesIsMod360(toAngle);
    Mod360Range(fromAngle);
    Mod360Range(toAngle);
    InSweepIsTurn(ang, Mod360(fromAngle), Mod360(toAngle));
    Mod360Unique(ang, ang, 0);
    ShiftTurn(ang, fromAngle);
    ShiftTurn(toAngle, fromAngle);
  }

  /** Every answer of `Arc.closest_valid` lies on the arc's circle. */
  lemma ArcClosestOnCircle(c: Vec, radius: real, fromAngle: real, toAngle: real, p: Vec, h: Host)
    requires HostOk(h)
    ensures Dist2(ArcClosest(c, radius, fromAngle, toAngle, p, h), c) == radius * radius
  {
    CircleClosestOnCircle(c, radius, p, h);
    PointOnCircleOnCircle(c, fromAngle, radius, h);
    PointOnCircleOnCircle(c, toAngle, radius, h);
  }

  // ---------------------------------------------------------------------
  // The circumcentre

  /** The determinant D of `_circumcenter`. */
  function CircumDet(a: Vec, b: Vec, c: Vec): real
  {
    2.0 * (a.x * (b.y - c.y) + b.x * (c.y - a.y) + c.x * (a.y - b.y))
  }

  /** The numerators of the circumcentre's coordinates. */
  function NumX(a: Vec, b: Vec, c: Vec): real
  {
    (a.x * a.x + a.y * a.y) * (b.y - c.y) + (b.x * b.x + b.y * b.y) * (c.y - a.y) + (c.x * c.x + c.y * c.y) * (a.y - b.y)
  }

  function NumY(a: Vec, b: Vec, c: Vec): real
  {
    (a.x * a.x + a.y * a.y) * (c.x - b.x) + (b.x * b.x + b.y * b.y) * (a.x - c.x) + (c.x * c.x + c.y * c.y) * (b.x - a.x)
  }

  /** `ArcThrough3Points._circumcenter`: None (the JavaScript's null) when the
      three points are nearly collinear, |D| < 1e-9. */
  function Circumcenter(a: Vec, b: Vec, c: Vec): (r: Option<Vec>)
    ensures r.None? <==> Abs(CircumDet(a, b, c)) < EPS
  {
    var d := CircumDet(a, b, c);
    if Abs(d) < EPS then None
    else Some(Vec(NumX(a, b, c) / d, NumY(a, b, c) / d))
  }

  lemma CircIdB(ax: real, ay: real, bx: real, qy: real, cx: real, cy: real, d: real, nx: real, ny: real)
    requires d == 2.0 * (ax * (qy - cy) + bx * (cy - ay) + cx * (ay - qy))
    requires nx == (ax * ax + ay * ay) * (qy - cy) + (bx * bx + qy * qy) * (cy - ay) + (cx * cx + cy * cy) * (ay - qy)
    requires ny == (ax * ax + ay * ay) * (cx - bx) + (bx * bx + qy * qy) * (ax - cx) + (cx * cx + cy * cy) * (bx - ax)
    ensures 2.0 * (nx * (bx - ax) + ny * (qy - ay)) == d * ((bx * bx + qy * qy) - (ax * ax + ay * ay))
  {
  }

  lemma CircIdC(ax: real, ay: real, bx: real, qy: real, cx: real, cy: real, d: real, nx: real, ny: real)
    requires d == 2.0 * (ax * (qy - cy) + bx * (cy - ay) + cx * (ay - qy))
    requires nx == (ax * ax + ay * ay) * (qy - cy) + (bx * bx + qy * qy) * (cy - ay) + (cx * cx + cy * cy) * (ay - qy)
    requires ny == (ax * ax + ay * ay) * (cx - bx) + (bx * bx + qy * qy) * (ax - cx) + (cx * cx + cy * cy) * (bx - ax)
    ensures 2.0 * (nx * (cx - ax) + ny * (cy - ay)) == d * ((cx * cx + cy * cy) - (ax * ax + ay * ay))
  {
  }

  lemma Dist2Coords(a: Vec, b: Vec)
    ensures Dist2(a, b) == (a.x - b.x) * (a.x - b.x) + (a.y - b.y) * (a.y - b.y)
  {
  }

  lemma MulDiv(n: real, d: real, u: real)
    requires d != 0.0 && u == n / d
    ensures u * d == n
  {
  }

  /** The circumcentre's coordinates as the quotients the JavaScript computes. */
  lemma CenterParts(a: Vec, b: Vec, c: Vec, d: real, nx: real, ny: real)
    requires Circumcenter(a, b, c).Some?
    requires d == CircumDet(a, b, c) && nx == NumX(a, b, c) && ny == NumY(a, b, c)
    ensures d != 0.0 && Circumcenter(a, b, c).value == Vec(nx / d, ny / d)
  {
  }

  /** A centre given as the quotients nx / d and ny / d solves the two
      linear equations it is the quotient of. */
  lemma CenterSolves(u: Vec, d: real, nx: real, ny: real)
    requires d != 0.0 && u == Vec(nx / d, ny / d)
    ensures u.x * d == nx && u.y * d == ny
  {
    MulDiv(nx, d, u.x);
    MulDiv(ny, d, u.y);
  }

  /** Dividing the scaled bisector equation by d. */
  lemma Cancel(n1: real, n2: real, d: real, x: real, y: real, r: real, u1: real, u2: real)
    requires d != 0.0 && 2.0 * (n1 * x + n2 * y) == d * r && u1 * d == n1 && u2 * d == n2
    ensures 2.0 * (u1 * x + u2 * y) == r
  {
    assert d * (2.0 * (u1 * x + u2 * y)) == d * r;
  }

  /** A point on the perpendicular bisector of ab is as far from a as from b. */
  lemma EquiScalar(ux: real, uy: real, ax: real, ay: real, bx: real, qy: real)
    requires 2.0 * (ux * (bx - ax) + uy * (qy - ay)) == (bx * bx + qy * qy) - (ax * ax + ay * ay)
    ensures (ax - ux) * (ax - ux) + (ay - uy) * (ay - uy) == (bx - ux) * (bx - ux) + (qy - uy) * (qy - uy)
  {
  }

  lemma EquidistantScalar(ax: real, ay: real, bx: real, qy: real, cx: real, cy: real, d: real, nx: real, ny: real, ux: real, uy: real)
    requires d != 0.0 && ux * d == nx && uy * d == ny
    requires 2.0 * (nx * (bx - ax) + ny * (qy - ay)) == d * ((bx * bx + qy * qy) - (ax * ax + ay * ay))
    requires 2.0 * (nx * (cx - ax) + ny * (cy - ay)) == d * ((cx * cx + cy * cy) - (ax * ax + ay * ay))
    ensures (ax - ux) * (ax - ux) + (ay - uy) * (ay - uy) == (bx - ux) * (bx - ux) + (qy - uy) * (qy - uy)
    ensures (ax - ux) * (ax - ux) + (ay - uy) * (ay - uy) == (cx - ux) * (cx - ux) + (cy - uy) * (cy - uy)
  {
    var rb := (bx * bx + qy * qy) - (ax * ax + ay * ay);
    var rc := (cx * cx + cy * cy) - (ax * ax + ay * ay);
    Cancel(nx, ny, d, bx - ax, qy - ay, rb, ux, uy);
    Cancel(nx, ny, d, cx - ax, cy - ay, rc, ux, uy);
    EquiScalar(ux, uy, ax, ay, bx, qy);
    EquiScalar(ux, uy, ax, ay, cx, cy);
  }

  /** The circumcentre formula in coordinates: with u·D equal to the
      numerators, u is as far from a as from b and from c. */
  lemma CircumcenterScalar(ax: real, ay: real, bx: real, qy: real, cx: real, cy: real, d: real, nx: real, ny: real, ux: real, uy: real)
    requires d == 2.0 * (ax * (qy - cy) + bx * (cy - ay) + cx * (ay - qy))
    requires nx == (ax * ax + ay * ay) * (qy - cy) + (bx * bx + qy * qy) * (cy - ay) + (cx * cx + cy * cy) * (ay - qy)
    requires ny == (ax * ax + ay * ay) * (cx - bx) + (bx * bx + qy * qy) * (ax - cx) + (cx * cx + cy * cy) * (bx - ax)
    requires d != 0.0 && ux * d == nx && uy * d == ny
    ensures (ax - ux) * (ax - ux) + (ay - uy) * (ay - uy) == (bx - ux) * (bx - ux) + (qy - uy) * (qy - uy)
    ensures (ax - ux) * (ax - ux) + (ay - uy) * (ay - uy) == (cx - ux) * (cx - ux) + (cy - uy) * (cy - uy)
  {
    CircIdB(ax, ay, bx, qy, cx, cy, d, nx, ny);
    CircIdC(ax, ay, bx, qy, cx, cy, d, nx, ny);
    EquidistantScalar(ax, ay, bx, qy, cx, cy, d, nx, ny, ux, uy);
  }

  lemma EquidistantFromCenterEquations(a: Vec, b: Vec, c: Vec, u: Vec, d: real, nx: real, ny: real)
    requires d == CircumDet(a, b, c) && nx == NumX(a, b, c) && ny == NumY(a, b, c)
    requires d != 0.0 && u.x * d == nx && u.y * d == ny
    ensures (a.x - u.x) * (a.x - u.x) + (a.y - u.y) * (a.y - u.y) == (b.x - u.x) * (b.x - u.x) + (b.y - u.y) * (b.y - u.y)
    ensures (a.x - u.x) * (a.x - u.x) + (a.y - u.y) * (a.y - u.y) == (c.x - u.x) * (c.x - u.x) + (c.y - u.y) * (c.y - u.y)
  {
    CircumcenterScalar(a.x, a.y, b.x, b.y, c.x, c.y, d, nx, ny, u.x, u.y);
  }

  lemma EquidistantFromCenter(a: Vec, b: Vec, c: Vec, u: Vec, d: real, nx: real, ny: real)
    requires d == CircumDet(a, b, c) && nx == NumX(a, b, c) && ny == NumY(a, b, c)
    requires d != 0.0 && u.x * d == nx && u.y * d == ny
    ensures Dist2(a, u) == Dist2(b, u) && Dist2(a, u) == Dist2(c, u)
  {
    EquidistantFromCenterEquations(a, b, c, u, d, nx, ny);
    Dist2Coords(a, u);
    Dist2Coords(b, u);
    Dist2Coords(c, u);
  }

  /** The circumcentre, when `_circumcenter` finds one, is equally far
      from the three points. */
  lemma CircumcenterEquidistant(a: Vec, b: Vec, c: Vec)
    requires Circumcenter(a, b, c).Some?
    ensures var u := Circumcenter(a, b, c).value; Dist2(a, u) == Dist2(b, u) && Dist2(a, u) == Dist2(c, u)
  {
    var u := Circumcenter(a, b, c).value;
    var d, nx, ny := CircumDet(a, b, c), NumX(a, b, c), NumY(a, b, c);
    CenterParts(a, b, c, d, nx, ny);
    CenterSolves(u, d, nx, ny);
    EquidistantFromCenter(a, b, c, u, d, nx, ny);
  }

  // ---------------------------------------------------------------------
  // ArcThrough3Points

  /** The normalisation `x < 0 ? x + 2π : x` of an atan2 result. */
  function PositiveRadians(x: real): real
  {
    if x < 0.0 then x + 2.0 * PI else x
  }

  /** The `between(start, mid, end)` test of the arc through three points. */
  predicate Between(start: real, mid: real, end: real)
  {
    if start <= end then start <= mid && mid <= end else start <= mid || mid <= end
  }

  /** The angle of v about c, from `Math.atan2` brought into [0, 2π). */
  function AngleAbout(c: Vec, v: Vec, h: Host): real
  {
    PositiveRadians(h.atan2(v.y - c.y, v.x - c.x))
  }

  /** The arc through p1, p2 and p3 about c holds the direction of q: going
      from p1 to p3, q's angle lies between them exactly when p2's does. */
  predicate OnArcSide(c: Vec, p1: Vec, p2: Vec, p3: Vec, q: Vec, h: Host)
  {
    Between(AngleAbout(c, p1, h), AngleAbout(c, q, h), AngleAbout(c, p3, h)) ==
    Between(AngleAbout(c, p1, h), AngleAbout(c, p2, h), AngleAbout(c, p3, h))
  }

  /** `ArcThrough3Points.closest_valid`: None where the JavaScript returns
      null (no circumcentre). Otherwise the projection on the circumcircle
      when it lies on the same side of p1 and p3 as p2, else the nearer of
      p1 and p3 (p3 on a tie); from the centre itself, p1. */
  function Arc3Closest(p1: Vec, p2: Vec, p3: Vec, p: Vec, h: Host): (r: Option<Vec>)
    requires HostOk(h)
    ensures r.None? <==> Circumcenter(p1, p2, p3).None?
    ensures r.Some? ==>
      var c := Circumcenter(p1, p2, p3).value;
      var proj := CircleClosest(c, Dist(p1, c, h), p, h);
      (Len(Sub(p, c), h) == 0.0 ==> r.value == p1) &&
      (Len(Sub(p, c), h) != 0.0 && OnArcSide(c, p1, p2, p3, proj, h) ==> r.value == proj) &&
      (Len(Sub(p, c), h) != 0.0 && !OnArcSide(c, p1, p2, p3, proj, h) ==>
        r.value == (if Dist(proj, p1, h) < Dist(proj, p3, h) then p1 else p3) &&
        Dist(proj, r.value, h) <= Dist(proj, p1, h) && Dist(proj, r.value, h) <= Dist(proj, p3, h))
  {
    match Circumcenter(p1, p2, p3)
    case None => None
    case Some(c) =>
      var radius := Dist(p1, c, h);
      if Len(Sub(p, c), h) == 0.0 then Some(p1)
      else
        var proj := CircleClosest(c, radius, p, h);
        if OnArcSide(c, p1, p2, p3, proj, h) then Some(proj)
        else if Dist(proj, p1, h) < Dist(proj, p3, h) then Some(p1) else Some(p3)
  }

  /** The projection on the circumcircle, at radius |p1 - c|, is as far
      from the centre as p1. */
  lemma ProjectionOnCircumcircle(c: Vec, p1: Vec, p: Vec, h: Host)
    requires HostOk(h)
    ensures Dist2(CircleClosest(c, Dist(p1, c, h), p, h), c) == Dist2(p1, c)
  {
    LenFacts(Sub(p1, c), h);
    CircleClosestOnCircle(c, Dist(p1, c, h), p, h);
  }

  /** Every answer of `ArcThrough3Points.closest_valid` lies on the circle
      through p1, p2 and p3. */
  lemma Arc3ClosestOnCircle(p1: Vec, p2: Vec, p3: Vec, p: Vec, h: Host)
    requires HostOk(h) && Arc3Closest(p1, p2, p3, p, h).Some?
    ensures var c := Circumcenter(p1, p2, p3).value;
      var r := Arc3Closest(p1, p2, p3, p, h).value;
      Dist2(r, c) == Dist2(p1, c) && Dist2(p2, c) == Dist2(p1, c)
  {
    var c := Circumcenter(p1, p2, p3).value;
    CircumcenterEquidistant(p1, p2, p3);
    ProjectionOnCircumcircle(c, p1, p, h);
  }
}
