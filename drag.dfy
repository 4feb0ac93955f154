// The step `Point.move` of app/static/js/geometry-classes.js takes toward
// the dragged-to position: at most `Figure.MAXSTEP` long, along the
// straight line to the target.
module Drag {
  import opened Geometry

  /** The delta `Point.move` passes to `update`: the way to the target,
      shortened to `maxStep` when longer; no delta when the point is
      already there. */
  function DragDelta(pos: Vec, target: Vec, maxStep: real, h: Host): (d: Vec)
    requires HostOk(h)
  {
    var targetstep := Dist(pos, target, h);
    var step := Min(maxStep, targetstep);
    if targetstep > 0.0 then
      Vec((target.x - pos.x) * step / targetstep, (target.y - pos.y) * step / targetstep)
    else Zero
  }

  lemma DistSymmetric(a: Vec, b: Vec)
    ensures Dot(Sub(a, b), Sub(a, b)) == Dot(Sub(b, a), Sub(b, a))
  {
  }

  lemma ScaleDiv(v: real, step: real, l: real)
    requires l != 0.0
    ensures v * step / l == v * (step / l)
  {
  }

  /** A target within reach is reached exactly. */
  lemma {:induction false} DragReachesNearTarget(pos: Vec, target: Vec, maxStep: real, h: Host)
    requires HostOk(h) && 0.0 < Dist(pos, target, h) <= maxStep
    ensures Add(pos, DragDelta(pos, target, maxStep, h)) == target
  {
    var l := Dist(pos, target, h);
    assert Min(maxStep, l) == l;
    ScaleDiv(target.x - pos.x, l, l);
    ScaleDiv(target.y - pos.y, l, l);
  }

  /** Out of reach, the delta is the way to the target scaled by
      maxStep over its length. */
  lemma FarDeltaIsScaled(pos: Vec, target: Vec, maxStep: real, h: Host)
    requires HostOk(h) && 0.0 <= maxStep < Dist(pos, target, h)
    ensures DragDelta(pos, target, maxStep, h) == Scale(Sub(target, pos), maxStep / Dist(pos, target, h))
  {
    var l := Dist(pos, target, h);
    assert Min(maxStep, l) == maxStep;
    ScaleDiv(target.x - pos.x, maxStep, l);
    ScaleDiv(target.y - pos.y, maxStep, l);
  }

  /** A target out of reach is approached by exactly `maxStep`, straight
      toward it. */
  lemma {:induction false} DragStepsTowardFarTarget(pos: Vec, target: Vec, maxStep: real, h: Host)
    requires HostOk(h) && 0.0 <= maxStep < Dist(pos, target, h)
    ensures var d := DragDelta(pos, target, maxStep, h);
      Dot(d, d) == maxStep * maxStep &&
      Cross(d, Sub(target, pos)) == 0.0 &&
      0.0 <= Dot(d, Sub(target, pos))
  {
    var v := Sub(target, pos);
    var l := Dist(pos, target, h);
    var k := maxStep / l;
    FarDeltaIsScaled(pos, target, maxStep, h);
    LenFacts(Sub(pos, target), h);
    DistSymmetric(pos, target);
    RadialScalar(v.x, v.y, l, maxStep, k);
    DotSelfNonNeg(v);
    AlongNonNeg(v.x, v.y, k);
  }

  lemma AlongNonNeg(vx: real, vy: real, k: real)
    requires 0.0 <= k && 0.0 <= vx * vx + vy * vy
    ensures 0.0 <= (vx * k) * vx + (vy * k) * vy
  {
    assert (vx * k) * vx + (vy * k) * vy == k * (vx * vx + vy * vy);
  }

  /** With the point already at the target there is no step. */
  lemma DragAtTargetIsStill(pos: Vec, target: Vec, maxStep: real, h: Host)
    requires HostOk(h) && Dist(pos, target, h) == 0.0
    ensures DragDelta(pos, target, maxStep, h) == Zero
  {
  }
}
