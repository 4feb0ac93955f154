// `Angle.update` of app/static/js/geometry-classes.js: the measured angle
// at the vertex and its colour against the angle's valid range.
module Angles {
  import opened Wrappers
  import opened Geometry

  /** A valid range [lo, hi] of an angle, in degrees. */
  datatype Range = Range(lo: real, hi: real)

  /** The turn ang2 - ang1 brought into (-PI, PI] by at most one correction
      of a full turn in either direction. */
  function ReduceTurn(d: real): (r: real)
    ensures -2.0 * PI < d < 2.0 * PI ==> -PI < r <= PI
    ensures r == d || r == d + 2.0 * PI || r == d - 2.0 * PI
  {
    var d1 := if d <= -PI then d + 2.0 * PI else d;
    if d1 > PI then d1 - 2.0 * PI else d1
  }

  /** `angleDeg`: the magnitude of the reduced turn between the directions
      from the vertex o to a and to b, in degrees. */
  function AngleValue(a: Vec, o: Vec, b: Vec, h: Host): (r: real)
    requires HostOk(h)
    ensures 0.0 <= r <= 180.0
  {
    var v1 := Normalize(Sub(a, o), 1.0, h);
    var v2 := Normalize(Sub(b, o), 1.0, h);
    var ang1 := h.atan2(v1.y, v1.x);
    var ang2 := h.atan2(v2.y, v2.x);
    var dAng := ReduceTurn(ang2 - ang1);
    DegreesBound(dAng);
    Abs(dAng * 180.0 / PI)
  }

  lemma DegreesBound(t: real)
    requires -PI < t <= PI
    ensures 0.0 <= Abs(t * 180.0 / PI) <= 180.0
  {
  }

  /** The colour `Angle.update` sets from the valid range; a quarter of the
      range's width at either end is the warning band. */
  function Classify(value: real, range: Range): (c: string)
    ensures c == "red" || c == "orange" || c == "green"
    ensures c == "red" <==> value < range.lo || value > range.hi
    ensures c == "green" <==>
      range.lo + (range.hi - range.lo) * 0.25 <= value <= range.hi - (range.hi - range.lo) * 0.25 &&
      range.lo <= value <= range.hi
  {
    var maxDiverge := (range.hi - range.lo) * 0.25;
    if value < range.lo || value > range.hi then "red"
    else if value < range.lo + maxDiverge || value > range.hi - maxDiverge then "orange"
    else "green"
  }

  /** On a proper range, green is exactly the middle half, orange the two
      outer quarters, red everything outside. */
  lemma {:induction false} ClassifyBands(value: real, range: Range)
    requires range.lo <= range.hi
    ensures var q := (range.hi - range.lo) / 4.0;
      (Classify(value, range) == "green" <==> range.lo + q <= value <= range.hi - q) &&
      (Classify(value, range) == "orange" <==>
         (range.lo <= value < range.lo + q) || (range.hi - q < value <= range.hi))
  {
    var q := (range.hi - range.lo) / 4.0;
    assert (range.hi - range.lo) * 0.25 == q;
  }

  /** The colour after `Angle.update`: classified when the angle has a
      valid range, otherwise the colour it had. */
  function AngleColour(value: real, range: Option<Range>, colour: string): (c: string)
    ensures range.None? ==> c == colour
    ensures range.Some? ==> c == Classify(value, range.value)
  {
    match range
    case None => colour
    case Some(rg) => Classify(value, rg)
  }
}
