// Plane geometry shared by the figure engine of
// app/static/js/geometry-classes.js: vectors, the host's mathematical
// library, paper.js's `normalize`, and angle arithmetic in degrees.
//
// Coordinates are exact reals. Math.sqrt (also behind Math.hypot and
// paper's `getDistance`/`length`), Math.atan2, Math.cos and Math.sin are
// functions the model cannot compute; they arrive in a `Host` value, and
// every property that needs them states what it assumes through `HostOk`.
module Geometry {
  datatype Vec = Vec(x: real, y: real)

  const Zero: Vec := Vec(0.0, 0.0)

  /** Math.PI written out as the double it denotes. */
  const PI: real := 3.141592653589793

  /** The tolerance of `Figure.intersection` and of `_circumcenter` (1e-9). */
  const EPS: real := 0.000000001

  function Add(a: Vec, b: Vec): Vec { Vec(a.x + b.x, a.y + b.y) }
  function Sub(a: Vec, b: Vec): Vec { Vec(a.x - b.x, a.y - b.y) }
  function Scale(a: Vec, k: real): Vec { Vec(a.x * k, a.y * k) }
  function Dot(a: Vec, b: Vec): real { a.x * b.x + a.y * b.y }
  function Cross(a: Vec, b: Vec): real { a.x * b.y - a.y * b.x }
  function Dist2(a: Vec, b: Vec): real { Dot(Sub(a, b), Sub(a, b)) }
  function Abs(v: real): real { if v < 0.0 then -v else v }
  function Min(a: real, b: real): real { if a <= b then a else b }
  function Max(a: real, b: real): real { if a >= b then a else b }

  /** The host's mathematical library. */
  datatype Host = Host(sqrt: real -> real, atan2: (real, real) -> real, cos: real -> real, sin: real -> real)

  /** What the model assumes of the host: an exact, non-negative square
      root that maps 0 to 0, an atan2 whose value lies in (-PI, PI], and a
      cosine and sine on the unit circle. */
  ghost predicate HostOk(h: Host)
  {
    h.sqrt(0.0) == 0.0 &&
    (forall v: real :: 0.0 <= v ==> 0.0 <= h.sqrt(v) && h.sqrt(v) * h.sqrt(v) == v) &&
    (forall y: real, x: real :: -PI < h.atan2(y, x) <= PI) &&
    (forall t: real :: h.cos(t) * h.cos(t) + h.sin(t) * h.sin(t) == 1.0)
  }

  /** The square of a radius, kept as one term so that it is not
      multiplied out in the larger contexts it appears in. */
  function Sq(x: real): real { x * x }

  /** Euclidean length: `Math.hypot`, paper's `getDistance` and `length`. */
  function Len(v: Vec, h: Host): real { h.sqrt(Dot(v, v)) }

  /** Distance between two points, as `getDistance` computes it. */
  function Dist(a: Vec, b: Vec, h: Host): real { Len(Sub(a, b), h) }

  lemma DotSelfNonNeg(v: Vec)
    ensures 0.0 <= Dot(v, v)
  {
    assert 0.0 <= v.x * v.x;
    assert 0.0 <= v.y * v.y;
  }

  lemma LenFacts(v: Vec, h: Host)
    requires HostOk(h)
    ensures 0.0 <= Len(v, h) && Len(v, h) * Len(v, h) == Dot(v, v)
  {
    DotSelfNonNeg(v);
  }

  /** Scaling (vx, vy) by radius / l, where l is its length, lands at
      distance `radius` from the origin, on the same line. */
  lemma RadialScalar(vx: real, vy: real, l: real, radius: real, k: real)
    requires l * l == vx * vx + vy * vy && l != 0.0 && k == radius / l
    ensures (vx * k) * (vx * k) + (vy * k) * (vy * k) == radius * radius
    ensures (vx * k) * vy - (vy * k) * vx == 0.0
  {
    assert (vx * k) * (vx * k) + (vy * k) * (vy * k) == k * k * (l * l);
    assert k * l == radius;
  }

  /** paper's `Point.normalize(length)`: the vector scaled to `length`;
      the zero vector stays zero. */
  function Normalize(v: Vec, length: real, h: Host): (r: Vec)
    requires HostOk(h)
    ensures Len(v, h) == 0.0 ==> r == Zero
    ensures Len(v, h) != 0.0 ==> Dot(r, r) == length * length && Cross(r, v) == 0.0
  {
    var l := Len(v, h);
    if l == 0.0 then Zero
    else
      LenFacts(v, h);
      var k := length / l;
      RadialScalar(v.x, v.y, l, length, k);
      Scale(v, k)
  }

  // ---------------------------------------------------------------------
  // Angles in degrees

  /** Truncation toward zero. */
  function Trunc(q: real): int
  {
    if q >= 0.0 then q.Floor else -((-q).Floor)
  }

  /** JavaScript's `%` on numbers: the remainder of truncated division,
      which keeps the sign of `a`. */
  function JsRem(a: real, m: real): real
    requires m != 0.0
  {
    a - m * (Trunc(a / m) as real)
  }

  /** The representative of `a` modulo 360 in [0, 360). */
  function Mod360(a: real): real
  {
    a - 360.0 * ((a / 360.0).Floor as real)
  }

  /** `Mod360(a)` is the only value in [0, 360) that differs from `a` by a
      whole number of turns. */
  lemma Mod360Unique(a: real, w: real, k: int)
    requires 0.0 <= w < 360.0 && a == w + 360.0 * (k as real)
    ensures Mod360(a) == w
  {
    assert a / 360.0 == (k as real) + w / 360.0;
    assert 0.0 <= w / 360.0 < 1.0;
    assert (a / 360.0).Floor == k;
  }

  lemma Mod360Range(a: real)
    ensures 0.0 <= Mod360(a) < 360.0
  {
    var f := (a / 360.0).Floor;
    assert (f as real) <= a / 360.0 < (f as real) + 1.0;
  }

  /** The arc's `((angle % 360) + 360) % 360`. */
  function WrapDegrees(a: real): real
  {
    JsRem(JsRem(a, 360.0) + 360.0, 360.0)
  }

  /** The double remainder brings every angle, whatever its sign, to its
      representative in [0, 360). */
  lemma WrapDegreesIsMod360(a: real)
    ensures WrapDegrees(a) == Mod360(a)
  {
    var t := Trunc(a / 360.0);
    var r := JsRem(a, 360.0);
    assert r == a - 360.0 * (t as real);
    if a / 360.0 >= 0.0 {
      assert (t as real) <= a / 360.0 < (t as real) + 1.0;
    } else {
      var f := (-(a / 360.0)).Floor;
      assert (f as real) <= -(a / 360.0) < (f as real) + 1.0;
    }
    assert -360.0 < r < 360.0;
    var s := r + 360.0;
    var f := (s / 360.0).Floor;
    assert (f as real) <= s / 360.0 < (f as real) + 1.0;
    var w := JsRem(s, 360.0);
    assert Trunc(s / 360.0) == f;
    assert w == s - 360.0 * (f as real);
    Mod360Unique(a, w, t + f - 1);
  }

  /** The membership test on wrapped angles: the sweep from `from`
      counter-clockwise to `to`, across 0 when `from` > `to`. */
  predicate InSweep(ang: real, from: real, to: real)
  {
    if from <= to then from <= ang && ang <= to else from <= ang || ang <= to
  }

  /** On angles in [0, 360) the sweep test says that the turn from `from`
      to `ang` is at most the turn from `from` to `to`. */
  lemma InSweepIsTurn(ang: real, from: real, to: real)
    requires 0.0 <= ang < 360.0 && 0.0 <= from < 360.0 && 0.0 <= to < 360.0
    ensures InSweep(ang, from, to) <==> Mod360(ang - from) <= Mod360(to - from)
  {
    if ang >= from { Mod360Unique(ang - from, ang - from, 0); }
    else { Mod360Unique(ang - from, ang - from + 360.0, -1); }
    if to >= from { Mod360Unique(to - from, to - from, 0); }
    else { Mod360Unique(to - from, to - from + 360.0, -1); }
  }

  /** Turning both angles by whole turns leaves their difference's
      representative unchanged. */
  lemma ShiftTurn(a: real, b: real)
    ensures Mod360(Mod360(a) - Mod360(b)) == Mod360(a - b)
  {
    var fa := (a / 360.0).Floor;
    var fb := (b / 360.0).Floor;
    Mod360Range(a - b);
    var w := Mod360(a - b);
    var k := ((a - b) / 360.0).Floor;
    assert Mod360(a) - Mod360(b) == w + 360.0 * ((k + fb - fa) as real);
    Mod360Unique(Mod360(a) - Mod360(b), w, k + fb - fa);
  }
}
