// The arithmetic that the two assembly recipes of the drawing share:
// app/static/js/canvas_drawer.js and its older variant app/static/js/app.js.
// It covers:
// - the canvas scale and the scaling of the parameter dictionaries;
// - the split of a drop handlebar into a flat part and two curves;
// - the extra drop segment;
// - the points the recipes place by a length along an angle;
// - where the saddle lands on its rails.
module Recipes {
  import opened Wrappers
  import opened Geometry
  import opened Straight

  /** A parameter dictionary: GEOMETRY, ANTROPOMETRICS or FIT. */
  type Params = map<string, real>

  /** `key.endsWith('Angle')`. */
  predicate EndsWithAngle(key: string)
  {
    var n := |key|;
    n >= 5 && key[n - 5] == 'A' && key[n - 4] == 'n' && key[n - 3] == 'g' && key[n - 2] == 'l' && key[n - 1] == 'e'
  }

  // ---------------------------------------------------------------------
  // calculateScale

  /** `Math.min(width / 2000, height / 1750)`: the largest scale at which
      the 2000 x 1750 design box fits the canvas. The box then touches at
      least one side of the canvas. */
  function CanvasScale(width: real, height: real): (s: real)
    ensures s * 2000.0 <= width && s * 1750.0 <= height
    ensures s * 2000.0 == width || s * 1750.0 == height
  {
    Min(width / 2000.0, height / 1750.0)
  }

  // ---------------------------------------------------------------------
  // scaleData

  /** A dictionary after the inner loop of `scaleData`. Every entry whose key
      ends in "Angle" keeps its value. Every other entry is multiplied by
      the scale. */
  function Scaled(d: Params, scale: real): (r: Params)
    ensures r.Keys == d.Keys
  {
    map k | k in d :: if EndsWithAngle(k) then d[k] else d[k] * scale
  }

  /** The inner loop of `scaleData`: `DATA[key] *= scale` for every key
      that does not end in "Angle", one key at a time. */
  method ScaleEntries(d: Params, scale: real) returns (r: Params)
    ensures r == Scaled(d, scale)
  {
    r := d;
    var todo := d.Keys;
    while todo != {}
      invariant todo <= d.Keys && r.Keys == d.Keys
      invariant forall k :: k in d && k in todo ==> r[k] == d[k]
      invariant forall k :: k in d && k !in todo ==> r[k] == Scaled(d, scale)[k]
      decreases |todo|
    {
      var key :| key in todo;
      if !EndsWithAngle(key) {
        r := r[key := r[key] * scale];
      }
      todo := todo - {key};
    }
  }

  /** Scaling by a non-zero factor loses nothing: scaling back by its
      inverse gives the dictionary that was scaled. */
  lemma ScaledInverse(d: Params, scale: real)
    requires scale != 0.0
    ensures Scaled(Scaled(d, scale), 1.0 / scale) == d
  {
    var r := Scaled(Scaled(d, scale), 1.0 / scale);
    forall k | k in d
      ensures r[k] == d[k]
    {
      if !EndsWithAngle(k) {
        assert r[k] == (d[k] * scale) * (1.0 / scale);
        assert scale * (1.0 / scale) == 1.0;
        assert (d[k] * scale) * (1.0 / scale) == d[k] * (scale * (1.0 / scale));
      }
    }
  }

  /** Scaling twice is scaling once by the product. Angles stay as they
      are however often the data is scaled. */
  lemma ScaledTwice(d: Params, a: real, b: real)
    ensures Scaled(Scaled(d, a), b) == Scaled(d, a * b)
  {
    var r := Scaled(Scaled(d, a), b);
    forall k | k in d
      ensures r[k] == Scaled(d, a * b)[k]
    {
      if !EndsWithAngle(k) {
        assert (d[k] * a) * b == d[k] * (a * b);
      }
    }
  }

  // ---------------------------------------------------------------------
  // drawHandlebars

  /** `curveratio`: the upper curve's radius as a share of the drop. */
  const CurveRatio: real := 0.25

  /** The shape of a drop handlebar:
      - `flat` is the radius of the circle that places the end of the
        FlatBar, or None when there is no FlatBar;
      - `r1` is `curve_r1`, the radius of the upper curve;
      - `r2` is `curve_r2`, the radius of the lower curve. */
  datatype Handlebar = Handlebar(flat: Option<real>, r1: real, r2: real)

  /** The radius split at the head of `drawHandlebars`. */
  function HandlebarSplit(barReach: real, barDrop: real): (b: Handlebar)
    ensures b.r1 == Min(barReach, barDrop * CurveRatio) && b.r1 + b.r2 == barDrop
    ensures b.flat.Some? <==> barReach > barDrop * CurveRatio
    ensures b.flat.Some? ==> b.flat.value > 0.0 && b.flat.value + b.r1 == barReach
  {
    if barReach > barDrop * CurveRatio then
      Handlebar(Some(barReach - barDrop * CurveRatio), barDrop * CurveRatio, barDrop - barDrop * CurveRatio)
    else
      Handlebar(None, barReach, barDrop - barReach)
  }

  /** `CurveStart`: the far end of the FlatBar, or the stem's end when there
      is none. */
  function CurveStart(stemEnd: Vec, b: Handlebar): Vec
  {
    if b.flat.Some? then Vec(stemEnd.x + b.flat.value, stemEnd.y) else stemEnd
  }

  /** `ShifterAxle`: the centre of the upper curve, r1 below CurveStart. */
  function ShifterAxle(stemEnd: Vec, b: Handlebar): Vec
  {
    var c := CurveStart(stemEnd, b);
    Vec(c.x, c.y + b.r1)
  }

  /** The centre of the lower curve (`point2`). */
  function DropCentre(stemEnd: Vec, b: Handlebar): Vec
  {
    var c := CurveStart(stemEnd, b);
    Vec(c.x + b.r1 - b.r2, c.y + b.r1)
  }

  /** The point at `deg` degrees on the circle about `centre` with radius
      `r`, in the canvas's frame (y grows downwards); only the four quarter
      angles the handlebar's arcs use. */
  function OnArc(centre: Vec, r: real, deg: int): Vec
    requires deg in {-90, 0, 90}
  {
    if deg == -90 then Vec(centre.x, centre.y - r)
    else if deg == 0 then Vec(centre.x + r, centre.y)
    else Vec(centre.x, centre.y + r)
  }

  /** The handlebar drawn from the split is one connected outline:
      - the upper arc, from -90 to 0 degrees about ShifterAxle, starts where
        the FlatBar ends;
      - the lower arc, from 0 to 90 degrees about the drop centre, starts
        where the upper arc ends;
      - the bar reaches barReach forward of the stem's end;
      - its lowest point lies barDrop below the stem's end. */
  lemma HandlebarOutline(stemEnd: Vec, barReach: real, barDrop: real)
    ensures var b := HandlebarSplit(barReach, barDrop);
      OnArc(ShifterAxle(stemEnd, b), b.r1, -90) == CurveStart(stemEnd, b) &&
      OnArc(ShifterAxle(stemEnd, b), b.r1, 0) == OnArc(DropCentre(stemEnd, b), b.r2, 0) &&
      OnArc(ShifterAxle(stemEnd, b), b.r1, 0).x == stemEnd.x + barReach &&
      OnArc(DropCentre(stemEnd, b), b.r2, 90).y == stemEnd.y + barDrop
  {
  }

  /** `extra_l = distance(point1, point2) - 30 * scale`. The extra drop
      segment is drawn only when this length is positive. It brings the
      bar's end to 30 (scaled) short of the head tube's line. */
  function ExtraDrop(gap: real, scale: real): (r: Option<real>)
    ensures r.None? <==> gap <= 30.0 * scale
    ensures r.Some? ==> r.value > 0.0 && gap - r.value == 30.0 * scale
  {
    var extra := gap - 30.0 * scale;
    if extra > 0.0 then Some(extra) else None
  }

  // ---------------------------------------------------------------------
  // placed points

  /** The point `length` back from `origin` along the angle `degrees`:
      `origin.x - length * cos(deg / 180 * PI)`,
      `origin.y - length * sin(deg / 180 * PI)`.
      This is how SeatpostTop is placed from the bottom bracket and how the
      stem's base is placed from the top of the head tube. */
  function AlongAngle(origin: Vec, length: real, degrees: real, h: Host): Vec
  {
    var t := degrees / 180.0 * PI;
    Vec(origin.x - length * h.cos(t), origin.y - length * h.sin(t))
  }

  lemma SquareBelow(a: real, b: real)
    requires 0.0 <= a < b
    ensures a * a < b * b
  {
    assert a * b - a * a == a * (b - a) >= 0.0;
    assert b * b - a * b == b * (b - a) > 0.0;
  }

  lemma SquareRootUnique(x: real, l: real)
    requires 0.0 <= x && 0.0 <= l && x * x == l * l
    ensures x == l
  {
    if x < l {
      SquareBelow(x, l);
    } else if l < x {
      SquareBelow(l, x);
    }
  }

  lemma UnitSquare(l: real, c: real, s: real)
    requires c * c + s * s == 1.0
    ensures (l * c) * (l * c) + (l * s) * (l * s) == l * l
  {
    assert (l * c) * (l * c) + (l * s) * (l * s) == l * l * (c * c + s * s);
  }

  /** A point placed a non-negative length along an angle lies at exactly
      that distance from its origin, whatever the angle. */
  lemma {:induction false} AlongAngleDistance(origin: Vec, length: real, degrees: real, h: Host)
    requires HostOk(h) && 0.0 <= length
    ensures Dist(origin, AlongAngle(origin, length, degrees, h), h) == length
  {
    var t := degrees / 180.0 * PI;
    var v := Sub(origin, AlongAngle(origin, length, degrees, h));
    assert v == Vec(length * h.cos(t), length * h.sin(t));
    UnitSquare(length, h.cos(t), h.sin(t));
    LenFacts(v, h);
    SquareRootUnique(Len(v, h), length);
  }

  // ---------------------------------------------------------------------
  // the saddle on its rails

  /** `Math.max(lo, Math.min(hi, v))`. */
  function Clamp(v: real, lo: real, hi: real): real
  {
    Max(lo, Min(hi, v))
  }

  /** Where the Saddle lands. `point2` lies saddleHeight above SeatpostTop (a smaller y on the canvas).
      SaddleRange is the horizontal segment of length `rail` centred on
      point2. The Saddle is created at point2 moved by `offset` and snapped
      onto SaddleRange. The result is None when the rail has no length:
      the JavaScript computes NaN there. */
  function SaddlePlacement(point2: Vec, offset: real, rail: real): (p: Option<Vec>)
  {
    SegmentClosest(Vec(point2.x - rail / 2.0, point2.y), Vec(point2.x + rail / 2.0, point2.y),
                   Vec(point2.x + offset, point2.y))
  }

  lemma CancelRight(x: real, y: real, c: real)
    requires c != 0.0 && x * c == y * c
    ensures x == y
  {
    assert (x - y) * c == 0.0;
  }

  lemma SignOfProduct(t: real, c: real)
    requires c > 0.0
    ensures t < 0.0 <==> t * c < 0.0
    ensures t > 1.0 <==> t * c > c
  {
    if t < 0.0 { assert t * c < 0.0 * c; } else { assert t * c >= 0.0 * c; }
    if t > 1.0 { assert t * c > 1.0 * c; } else { assert t * c <= 1.0 * c; }
  }

  /** A product of two numbers of the same sign is positive; stated with
      the product as a parameter, so that a caller can hand in a square. */
  lemma ProductPositive(d: real, x: real, y: real)
    requires d == x * y && ((x > 0.0 && y > 0.0) || (x < 0.0 && y < 0.0))
    ensures d > 0.0
  {
    if x < 0.0 {
      assert x * y == (-x) * (-y);
    }
  }

  /** The rails run from point2 - rail/2 to point2 + rail/2; with a rail of
      non-zero length the projection onto them is defined. */
  lemma RailsHaveLength(point2: Vec, rail: real)
    requires rail != 0.0
    ensures var ab := Sub(Vec(point2.x + rail / 2.0, point2.y), Vec(point2.x - rail / 2.0, point2.y));
      ab == Vec(rail, 0.0) && Dot(ab, ab) == rail * rail && Dot(ab, ab) > 0.0
  {
    var ab := Sub(Vec(point2.x + rail / 2.0, point2.y), Vec(point2.x - rail / 2.0, point2.y));
    assert ab == Vec(rail, 0.0);
    assert Dot(ab, ab) == rail * rail;
    ProductPositive(Dot(ab, ab), rail, rail);
  }

  /** On rails of positive length the saddle stays at its offset when that
      offset is within half the rail's length of the centre. Otherwise it
      stops at the nearer end of the rails. */
  lemma {:induction false} SaddleOffsetClamped(point2: Vec, offset: real, rail: real)
    requires rail > 0.0
    ensures SaddlePlacement(point2, offset, rail) ==
      Some(Vec(point2.x + Clamp(offset, -rail / 2.0, rail / 2.0), point2.y))
  {
    var a := Vec(point2.x - rail / 2.0, point2.y);
    var b := Vec(point2.x + rail / 2.0, point2.y);
    var p := Vec(point2.x + offset, point2.y);
    RailsHaveLength(point2, rail);
    assert Sub(p, a) == Vec(offset + rail / 2.0, 0.0);
    var t := LineParam(a, b, p).value;
    assert t * (rail * rail) == (offset + rail / 2.0) * rail;
    assert (t * rail) * rail == (offset + rail / 2.0) * rail;
    CancelRight(t * rail, offset + rail / 2.0, rail);
    SignOfProduct(t, rail);
    if 0.0 <= t <= 1.0 {
      assert At(a, b, t) == Vec(point2.x - rail / 2.0 + rail * t, point2.y + 0.0 * t);
    }
  }

  /** Wherever it lands, the saddle is on its rails: within half the rail's
      length of point2, and at point2's height. */
  lemma SaddleOnRails(point2: Vec, offset: real, rail: real)
    requires rail != 0.0
    ensures var p := SaddlePlacement(point2, offset, rail);
      p.Some? && Abs(p.value.x - point2.x) <= Abs(rail) / 2.0 && p.value.y == point2.y
  {
    var a := Vec(point2.x - rail / 2.0, point2.y);
    var b := Vec(point2.x + rail / 2.0, point2.y);
    RailsHaveLength(point2, rail);
  }
}
