// `closest_valid` of the straight figures of
// app/static/js/geometry-classes.js: the projection of a point on a Line
// (the infinite line through p1 and p2) and on a Segment (clamped to the
// part between p1 and p2).
module Straight {
  import opened Wrappers
  import opened Geometry

  /** The projection parameter t = (p - a)·(b - a) / |b - a|², or None
      where the JavaScript divides zero by zero (a == b gives NaN). */
  function LineParam(a: Vec, b: Vec, p: Vec): (t: Option<real>)
    ensures t.None? <==> Dot(Sub(b, a), Sub(b, a)) == 0.0
    ensures t.Some? ==> t.value * Dot(Sub(b, a), Sub(b, a)) == Dot(Sub(p, a), Sub(b, a))
  {
    var ab := Sub(b, a);
    var d := Dot(ab, ab);
    if d == 0.0 then None
    else
      var t := Dot(Sub(p, a), ab) / d;
      MulDiv(Dot(Sub(p, a), ab), d, t);
      Some(t)
  }

  lemma MulDiv(n: real, d: real, u: real)
    requires d != 0.0 && u == n / d
    ensures u * d == n
  {
  }

  /** The point of the line a→b at parameter t. */
  function At(a: Vec, b: Vec, t: real): Vec
  {
    Add(a, Scale(Sub(b, a), t))
  }

  /** With t·|u|² = w·u, the point t·u - w is orthogonal to u. */
  lemma ProjScalar(ux: real, uy: real, wx: real, wy: real, t: real)
    requires t * (ux * ux + uy * uy) == wx * ux + wy * uy
    ensures (t * ux - wx) * ux + (t * uy - wy) * uy == 0.0
  {
  }

  /** `Line.closest_valid`: the foot of the perpendicular from `p` on the
      line through a and b; None where the JavaScript produces NaN. */
  function LineClosest(a: Vec, b: Vec, p: Vec): (r: Option<Vec>)
    ensures r.None? <==> Dot(Sub(b, a), Sub(b, a)) == 0.0
    ensures r.Some? ==> Dot(Sub(r.value, p), Sub(b, a)) == 0.0
    ensures r.Some? ==> r.value == At(a, b, LineParam(a, b, p).value)
  {
    match LineParam(a, b, p)
    case None => None
    case Some(t) =>
      var ab := Sub(b, a);
      ProjScalar(ab.x, ab.y, p.x - a.x, p.y - a.y, t);
      Some(At(a, b, t))
  }

  /** |w + k·u|² = |w|² + |k·u|² when w ⟂ u. */
  lemma PythagorasScalar(wx: real, wy: real, ux: real, uy: real, k: real)
    requires wx * ux + wy * uy == 0.0
    ensures (wx + k * ux) * (wx + k * ux) + (wy + k * uy) * (wy + k * uy)
            == (wx * wx + wy * wy) + ((k * ux) * (k * ux) + (k * uy) * (k * uy))
  {
    assert (wx + k * ux) * (wx + k * ux) + (wy + k * uy) * (wy + k * uy)
           == (wx * wx + wy * wy) + 2.0 * k * (wx * ux + wy * uy) + ((k * ux) * (k * ux) + (k * uy) * (k * uy));
  }

  /** The projection is the point of the line nearest to `p`: no point
      a + s·(b - a) of the line is closer. */
  lemma {:induction false} LineClosestIsNearest(a: Vec, b: Vec, p: Vec, s: real)
    requires LineClosest(a, b, p).Some?
    ensures Dist2(p, LineClosest(a, b, p).value) <= Dist2(p, At(a, b, s))
  {
    var r := LineClosest(a, b, p).value;
    var t := LineParam(a, b, p).value;
    var ab := Sub(b, a);
    var w := Sub(p, r);
    var k := t - s;
    assert Dot(w, ab) == 0.0 by {
      assert Dot(Sub(r, p), ab) == 0.0;
    }
    PythagorasScalar(w.x, w.y, ab.x, ab.y, k);
    DotSelfNonNeg(Scale(ab, k));
    assert Sub(p, At(a, b, s)) == Vec(w.x + k * ab.x, w.y + k * ab.y);
  }

  lemma MulNonNeg(x: real, y: real)
    requires 0.0 <= x && 0.0 <= y
    ensures 0.0 <= x * y
  {
  }

  /** A point at parameter t in [0, 1] lies between the ends, coordinate by
      coordinate. */
  lemma BetweenEnds(u: real, v: real, t: real)
    requires 0.0 <= t <= 1.0
    ensures Min(u, v) <= u + (v - u) * t <= Max(u, v)
  {
    if u <= v {
      MulNonNeg(v - u, t);
      MulNonNeg(v - u, 1.0 - t);
    } else {
      MulNonNeg(u - v, t);
      MulNonNeg(u - v, 1.0 - t);
    }
  }

  /** `Segment.closest_valid`: the projection parameter clamped to [0, 1]
      (`Math.max(0, Math.min(1, t))`). It agrees with the line's projection
      inside the segment, snaps to an end outside it, and always lies in
      the box spanned by the ends. */
  function SegmentClosest(a: Vec, b: Vec, p: Vec): (r: Option<Vec>)
    ensures r.None? <==> Dot(Sub(b, a), Sub(b, a)) == 0.0
    ensures r.Some? && 0.0 <= LineParam(a, b, p).value <= 1.0 ==> r == LineClosest(a, b, p)
    ensures r.Some? && LineParam(a, b, p).value < 0.0 ==> r.value == a
    ensures r.Some? && 1.0 < LineParam(a, b, p).value ==> r.value == b
    ensures r.Some? ==> Min(a.x, b.x) <= r.value.x <= Max(a.x, b.x)
    ensures r.Some? ==> Min(a.y, b.y) <= r.value.y <= Max(a.y, b.y)
  {
    match LineParam(a, b, p)
    case None => None
    case Some(t0) =>
      var t := Max(0.0, Min(1.0, t0));
      BetweenEnds(a.x, b.x, t);
      BetweenEnds(a.y, b.y, t);
      Some(At(a, b, t))
  }

  lemma ScaledDot(ux: real, uy: real, s: real)
    ensures (ux * s) * ux + (uy * s) * uy == s * (ux * ux + uy * uy)
  {
  }

  lemma CancelFactor(t: real, s: real, d: real)
    requires d != 0.0 && t * d == s * d
    ensures t == s
  {
    assert (t - s) * d == 0.0;
  }

  /** A point of a segment of positive length is its own closest point:
      `Segment.closest_valid` leaves it where it is. */
  lemma {:induction false} OnSegmentStays(a: Vec, b: Vec, s: real)
    requires Dot(Sub(b, a), Sub(b, a)) != 0.0 && 0.0 <= s <= 1.0
    ensures SegmentClosest(a, b, At(a, b, s)) == Some(At(a, b, s))
  {
    var ab := Sub(b, a);
    var q := At(a, b, s);
    assert Sub(q, a) == Vec(ab.x * s, ab.y * s);
    ScaledDot(ab.x, ab.y, s);
    var t := LineParam(a, b, q).value;
    CancelFactor(t, s, Dot(ab, ab));
  }
}
