// The Drawer of app/static/js/app.js, the older variant of the one in
// app/static/js/canvas_drawer.js, up to the point where it starts building
// figures. The module also holds `getFitSettings` of the page's
// Interface: it reads the rider's fit back from the figures the user has
// moved.
//
// Where this drawer differs from the newer one:
// - `calculateScale` never sets the engine's step limit;
// - the valid ranges are narrower;
// - the kinematic sketch is scaled twice;
// - `reset` clears the canvas before `draw` clears it again.
module AppDrawer {
  import opened Wrappers
  import opened Geometry
  import opened Angles
  import opened Figures
  import opened Cascade
  import opened Engine
  import opened Recipes
  import opened Straight
  import CanvasDrawer

  /** The `valid_range` each angle is built with here. */
  function ValidRange(n: CanvasDrawer.AngleName): (r: Option<Range>)
    ensures r.None? <==> n == CanvasDrawer.ShifterAngle
    ensures r.Some? ==> r.value.lo < r.value.hi
  {
    match n
    case ElbowAngle => Some(Range(150.0, 160.0))
    case TorsoAngle => Some(Range(38.0, 44.0))
    case ShoulderAngle => Some(Range(88.0, 92.0))
    case ShifterAngle => None
  }

  /** Every range here lies inside the newer drawer's range for the same
      angle, so an angle the newer drawer paints red is red here too. The
      newer drawer's green elbow is exactly this drawer's elbow range. */
  lemma RangesNested(n: CanvasDrawer.AngleName, value: real)
    ensures ValidRange(n).Some? <==> CanvasDrawer.ValidRange(n).Some?
    ensures ValidRange(n).Some? ==>
      CanvasDrawer.ValidRange(n).value.lo <= ValidRange(n).value.lo &&
      ValidRange(n).value.hi <= CanvasDrawer.ValidRange(n).value.hi
    ensures ValidRange(n).Some? && Classify(value, CanvasDrawer.ValidRange(n).value) == "red" ==>
      Classify(value, ValidRange(n).value) == "red"
    ensures n == CanvasDrawer.ElbowAngle ==>
      (Classify(value, CanvasDrawer.ValidRange(n).value) == "green" <==> Classify(value, ValidRange(n).value) != "red")
  {
  }

  /** `KinematicScale = this.scale * GEOMETRY['crankLen'] / 170`. */
  function KinematicScale(scale: real, crankLen: real): real
  {
    scale * crankLen / 170.0
  }

  /** The crank length read here is already scaled, so the sketch is
      scaled twice: it is the newer drawer's sketch times the scale once
      more. */
  lemma KinematicScaledTwice(g: Params, scale: real)
    requires "crankLen" in g
    ensures "crankLen" in Scaled(g, scale)
    ensures KinematicScale(scale, Scaled(g, scale)["crankLen"]) ==
      scale * CanvasDrawer.KinematicScale(Scaled(g, scale)["crankLen"])
    ensures KinematicScale(scale, Scaled(g, scale)["crankLen"]) ==
      scale * scale * CanvasDrawer.KinematicScale(g["crankLen"])
  {
    CanvasDrawer.KinematicScaleFollowsDrawing(g, scale);
  }

  /** Clearing twice clears as once: the counters the clear resets stay at
      0 and the one it forgets keeps its value. */
  lemma ClearTwice(c: map<Tag, nat>)
    requires c.Keys == AllTags
    ensures ClearedCounters(ClearedCounters(c)) == ClearedCounters(c)
  {
    var once := ClearedCounters(c);
    var twice := ClearedCounters(once);
    forall t | t in AllTags
      ensures twice[t] == once[t]
    {
    }
  }

  /** With the step limit never set, which is how this drawer leaves it,
      dragging a visible movable point toward any other position fails:
      every step is NaN and the point does not reach its target. */
  lemma DragIsStuck(g: seq<Node>, s: seq<State>, i: nat, target: Vec, h: Host)
    requires HostOk(h) && Fits(g, s) && i < |g|
    requires g[i].moveable && g[i].visible && g[i].kind.PointK?
    requires 0.0 < Dist(s[i].pos, target, h)
    ensures Move(g, s, i, target, None, h) == Outcome(s, false)
  {
  }

  class Drawer {
    /** `INIT_GEOMETRY`, `INIT_ANTROPOMETRICS`, `INIT_FIT`. */
    const initGeometry: Params
    const initAnthropometrics: Params
    const initFit: Params
    /** `GEOMETRY`, `ANTROPOMETRICS`, `FIT`: the scaled copies. */
    var geometry: Params
    var anthropometrics: Params
    var fit: Params
    var width: real
    var height: real
    var scale: real
    /** The figure engine the drawer builds into. */
    const scene: Scene

    ghost predicate Valid()
      reads scene
    {
      scene.Valid()
    }

    /** `new Drawer(GEOMETRY, ANTROPOMETRICS, FIT)`. */
    constructor (scene: Scene, geometry: Params, anthropometrics: Params, fit: Params)
      requires scene.Valid()
      ensures Valid() && this.scene == scene
      ensures initGeometry == geometry && initAnthropometrics == anthropometrics && initFit == fit
      ensures this.geometry == map[] && this.anthropometrics == map[] && this.fit == map[]
    {
      this.scene := scene;
      initGeometry := geometry;
      initAnthropometrics := anthropometrics;
      initFit := fit;
      this.geometry := map[];
      this.anthropometrics := map[];
      this.fit := map[];
    }

    /** `calculateScale`, given the canvas's measured size: the scale only;
        the engine's step limit is left as it was. */
    method CalculateScale(rectWidth: real, rectHeight: real)
      modifies this`width, this`height, this`scale
      ensures width == rectWidth && height == rectHeight && scale == CanvasScale(rectWidth, rectHeight)
      ensures unchanged(scene)
    {
      width := rectWidth;
      height := rectHeight;
      scale := Min(width / 2000.0, height / 1750.0);
    }

    /** `scaleData`. */
    method ScaleData()
      modifies this`geometry, this`anthropometrics, this`fit
      ensures geometry == Scaled(initGeometry, scale)
      ensures anthropometrics == Scaled(initAnthropometrics, scale)
      ensures fit == Scaled(initFit, scale)
    {
      geometry := ScaleEntries(initGeometry, scale);
      anthropometrics := ScaleEntries(initAnthropometrics, scale);
      fit := ScaleEntries(initFit, scale);
    }

    /** `clearCanvas`. */
    method ClearCanvas()
      requires Valid()
      modifies scene
      ensures Valid()
      ensures scene.nodes == [] && scene.states == [] && scene.ids == []
      ensures scene.counters == ClearedCounters(old(scene.counters)) && scene.maxStep == old(scene.maxStep)
    {
      scene.Clear();
    }

    /** The steps of `draw` that precede the construction of the figures. */
    method Draw(rectWidth: real, rectHeight: real)
      requires Valid()
      modifies this, scene
      ensures Valid()
      ensures scene.nodes == [] && scene.ids == [] && scene.counters == ClearedCounters(old(scene.counters))
      ensures scene.maxStep == old(scene.maxStep)
      ensures scale == CanvasScale(rectWidth, rectHeight)
      ensures geometry == Scaled(initGeometry, scale) && anthropometrics == Scaled(initAnthropometrics, scale)
      ensures fit == Scaled(initFit, scale)
    {
      ClearCanvas();
      CalculateScale(rectWidth, rectHeight);
      ScaleData();
    }

    /** `reset`: clear, then draw, which clears again. The second clear
        changes nothing, so reset leaves what one draw leaves. */
    method Reset(rectWidth: real, rectHeight: real)
      requires Valid()
      modifies this, scene
      ensures Valid()
      ensures scene.nodes == [] && scene.ids == [] && scene.counters == ClearedCounters(old(scene.counters))
      ensures scene.maxStep == old(scene.maxStep)
      ensures scale == CanvasScale(rectWidth, rectHeight)
      ensures geometry == Scaled(initGeometry, scale) && fit == Scaled(initFit, scale)
    {
      ClearCanvas();
      Draw(rectWidth, rectHeight);
      ClearTwice(old(scene.counters));
    }
  }

  // ---------------------------------------------------------------------
  // getFitSettings

  /** The fit settings `getFitSettings` reports, apart from the bike's id. */
  datatype FitReport = FitReport(seatHight: real, stemHight: real, saddleOffset: real, torsoAngle: real, shifterAngle: real)

  /** `getFitSettings`, on the positions of the bottom bracket, the
      seatpost top, the top of the head tube, the stem's base and the
      saddle, the two angles' values, the drawing scale and the stored
      saddle height. None for a zero scale, where the JavaScript divides by
      zero. */
  function GetFitSettings(bb: Vec, seatpostTop: Vec, headTubeTop: Vec, stemBase: Vec, saddle: Vec,
                          torsoAngle: real, shifterAngle: real, scale: real, initSaddleHeight: real, h: Host): (r: Option<FitReport>)
    requires HostOk(h)
    ensures r.None? <==> scale == 0.0
    ensures r.Some? ==> r.value.torsoAngle == torsoAngle && r.value.shifterAngle == shifterAngle
    ensures r.Some? && scale > 0.0 ==> r.value.seatHight >= initSaddleHeight && r.value.stemHight >= 0.0
  {
    if scale == 0.0 then None
    else
      LenFacts(Sub(bb, seatpostTop), h);
      LenFacts(Sub(headTubeTop, stemBase), h);
      Some(FitReport(
        seatHight := Dist(bb, seatpostTop, h) / scale + initSaddleHeight,
        stemHight := Dist(headTubeTop, stemBase, h) / scale,
        saddleOffset := (saddle.x - seatpostTop.x) / scale,
        torsoAngle := torsoAngle,
        shifterAngle := shifterAngle))
  }

  /** The three movable points of the fit, where the drawing first places
      them; the saddle is None where the rails have no length. */
  datatype FitPoints = FitPoints(seatpostTop: Vec, stemBase: Vec, saddle: Option<Vec>)

  /** q is where `Segment.closest_valid` of the segment a→b puts p: the
      projection inside the segment, the nearer end outside it. */
  predicate Snapped(a: Vec, b: Vec, p: Vec, q: Vec)
    requires Dot(Sub(b, a), Sub(b, a)) != 0.0
  {
    var t := LineParam(a, b, p).value;
    (0.0 <= t <= 1.0 ==> q == LineClosest(a, b, p).value) && (t < 0.0 ==> q == a) && (1.0 < t ==> q == b)
  }

  /** The entries `drawSeatpost` and `drawStem` read to place those points. */
  datatype FitEntries = FitEntries(
    seatHight: real, stemHight: real, saddleOffset: real,
    saddleHeight: real, saddleRailLen: real, seatAngle: real, headAngle: real)

  predicate HasFitKeys(g: Params, f: Params)
  {
    "saddleHeight" in g && "seatAngle" in g && "headAngle" in g && "saddleRailLen" in g &&
    "seatHight" in f && "stemHight" in f && "saddleOffset" in f
  }

  /** The entries read from GEOMETRY and FIT. */
  function ReadEntries(g: Params, f: Params): FitEntries
    requires HasFitKeys(g, f)
  {
    FitEntries(f["seatHight"], f["stemHight"], f["saddleOffset"],
               g["saddleHeight"], g["saddleRailLen"], g["seatAngle"], g["headAngle"])
  }

  /** The entries as `scaleData` leaves them: the lengths scaled, the two
      angles kept. */
  function ScaleEntriesOf(e: FitEntries, scale: real): (r: FitEntries)
    ensures r.seatAngle == e.seatAngle && r.headAngle == e.headAngle
  {
    FitEntries(e.seatHight * scale, e.stemHight * scale, e.saddleOffset * scale,
               e.saddleHeight * scale, e.saddleRailLen * scale, e.seatAngle, e.headAngle)
  }

  lemma NameKinds()
    ensures EndsWithAngle("seatAngle") && EndsWithAngle("headAngle")
    ensures !EndsWithAngle("saddleHeight") && !EndsWithAngle("saddleRailLen")
    ensures !EndsWithAngle("seatHight") && !EndsWithAngle("stemHight") && !EndsWithAngle("saddleOffset")
  {
  }

  lemma ScaledEntry(d: Params, k: string, scale: real)
    requires k in d
    ensures k in Scaled(d, scale) && Scaled(d, scale)[k] == if EndsWithAngle(k) then d[k] else d[k] * scale
  {
  }

  /** Reading the scaled dictionaries reads the scaled entries: the
      names of the two angles end in "Angle", the others do not. */
  lemma ReadScaledEntries(g: Params, f: Params, scale: real)
    requires HasFitKeys(g, f)
    ensures HasFitKeys(Scaled(g, scale), Scaled(f, scale))
    ensures ReadEntries(Scaled(g, scale), Scaled(f, scale)) == ScaleEntriesOf(ReadEntries(g, f), scale)
  {
    NameKinds();
    ScaledEntry(g, "seatAngle", scale);
    ScaledEntry(g, "headAngle", scale);
    ScaledEntry(g, "saddleHeight", scale);
    ScaledEntry(g, "saddleRailLen", scale);
    ScaledEntry(f, "seatHight", scale);
    ScaledEntry(f, "stemHight", scale);
    ScaledEntry(f, "saddleOffset", scale);
  }

  /** Where `drawSeatpost` and `drawStem` place the fit's points from the
      scaled entries. SeatpostTop is built along the seat angle from the
      bottom bracket, at the seat height less the saddle height; it
      depends on SeatpostRange, the segment from MinSeat to MaxSeat, so
      its first `update()` moves it to that segment's closest point. The
      stem's base is built along the head angle from the top of the head
      tube and moved onto SteererRange, from the point at the minimum stem
      height to the one at the maximum, in the same way. The saddle sits
      on its rails, which are drawn the saddle height above SeatpostTop (a
      smaller y is higher on the canvas). None where a range has zero
      length: the projection onto it is NaN and the update fails. */
  function PlaceFit(bb: Vec, headTubeTop: Vec, minSeat: Vec, maxSeat: Vec, minStem: Vec, maxStem: Vec,
                    e: FitEntries, h: Host): (r: Option<FitPoints>)
    ensures r.None? <==> Dot(Sub(maxSeat, minSeat), Sub(maxSeat, minSeat)) == 0.0 ||
                         Dot(Sub(maxStem, minStem), Sub(maxStem, minStem)) == 0.0
    ensures r.Some? ==>
      Snapped(minSeat, maxSeat, AlongAngle(bb, e.seatHight - e.saddleHeight, e.seatAngle, h), r.value.seatpostTop) &&
      Snapped(minStem, maxStem, AlongAngle(headTubeTop, e.stemHight, e.headAngle, h), r.value.stemBase)
  {
    var top := SegmentClosest(minSeat, maxSeat, AlongAngle(bb, e.seatHight - e.saddleHeight, e.seatAngle, h));
    var stem := SegmentClosest(minStem, maxStem, AlongAngle(headTubeTop, e.stemHight, e.headAngle, h));
    if top.None? || stem.None? then None
    else
      var q := top.value;
      Some(FitPoints(q, stem.value, SaddlePlacement(Vec(q.x, q.y - e.saddleHeight), e.saddleOffset, e.saddleRailLen)))
  }

  lemma Unscale(a: real, b: real, s: real)
    requires s != 0.0
    ensures (a * s - b * s) / s == a - b
    ensures (a * s) / s == a
  {
    assert a * s - b * s == (a - b) * s;
  }

  lemma NonNegProduct(a: real, s: real)
    requires 0.0 <= a && 0.0 < s
    ensures 0.0 <= a * s
  {
  }

  /** Clamping commutes with a positive scale. */
  lemma ClampScales(v: real, r: real, s: real)
    requires s > 0.0
    ensures Clamp(v * s, -(r * s) / 2.0, (r * s) / 2.0) / s == Clamp(v, -r / 2.0, r / 2.0)
  {
    var lo, hi := -r / 2.0, r / 2.0;
    assert -(r * s) / 2.0 == lo * s && (r * s) / 2.0 == hi * s;
    if v < hi { assert v * s < hi * s; } else { assert v * s >= hi * s; }
    if v < lo { assert v * s < lo * s; } else { assert v * s >= lo * s; }
    if hi < lo { assert hi * s < lo * s; } else { assert hi * s >= lo * s; }
    Unscale(v, 0.0, s);
    Unscale(lo, 0.0, s);
    Unscale(hi, 0.0, s);
  }

  /** The seat height comes back from the seatpost top drawn at `length`
      along the seat angle, the scaled seat height less the scaled saddle
      height. */
  lemma {:induction false} SeatComesBack(bb: Vec, seatHight: real, saddleHeight: real, length: real, seatAngle: real,
                                         scale: real, h: Host)
    requires HostOk(h) && scale > 0.0 && seatHight >= saddleHeight
    requires length == seatHight * scale - saddleHeight * scale
    ensures Dist(bb, AlongAngle(bb, length, seatAngle, h), h) / scale + saddleHeight == seatHight
  {
    Unscale(seatHight, saddleHeight, scale);
    assert length == (seatHight - saddleHeight) * scale;
    NonNegProduct(seatHight - saddleHeight, scale);
    AlongAngleDistance(bb, length, seatAngle, h);
  }

  /** The stem height comes back from the stem base drawn at the scaled
      stem height along the head angle. */
  lemma {:induction false} StemComesBack(headTubeTop: Vec, stemHight: real, length: real, headAngle: real,
                                         scale: real, h: Host)
    requires HostOk(h) && scale > 0.0 && stemHight >= 0.0 && length == stemHight * scale
    ensures Dist(headTubeTop, AlongAngle(headTubeTop, length, headAngle, h), h) / scale == stemHight
  {
    NonNegProduct(stemHight, scale);
    AlongAngleDistance(headTubeTop, length, headAngle, h);
    Unscale(stemHight, 0.0, scale);
  }

  /** The saddle offset comes back from the saddle drawn with the scaled
      offset on the scaled rails, clamped to the rails. */
  lemma {:induction false} SaddleComesBack(top: Vec, drop: real, offset: real, scaledOffset: real,
                                           rail: real, scaledRail: real, scale: real)
    requires scale > 0.0 && rail > 0.0 && scaledOffset == offset * scale && scaledRail == rail * scale
    ensures var p := SaddlePlacement(Vec(top.x, top.y - drop), scaledOffset, scaledRail);
      p.Some? && (p.value.x - top.x) / scale == Clamp(offset, -rail / 2.0, rail / 2.0)
  {
    ProductPositive(scaledRail, rail, scale);
    SaddleOffsetClamped(Vec(top.x, top.y - drop), scaledOffset, scaledRail);
    ClampScales(offset, rail, scale);
  }

  /** `getFitSettings` on points whose distances and offset, unscaled,
      are the given values. */
  lemma ReadBack(bb: Vec, seatpostTop: Vec, headTubeTop: Vec, stemBase: Vec, saddle: Vec,
                 torsoAngle: real, shifterAngle: real, scale: real, saddleHeight: real, h: Host,
                 seatHight: real, stemHight: real, saddleOffset: real)
    requires HostOk(h) && scale != 0.0
    requires Dist(bb, seatpostTop, h) / scale + saddleHeight == seatHight
    requires Dist(headTubeTop, stemBase, h) / scale == stemHight
    requires (saddle.x - seatpostTop.x) / scale == saddleOffset
    ensures GetFitSettings(bb, seatpostTop, headTubeTop, stemBase, saddle, torsoAngle, shifterAngle, scale, saddleHeight, h)
      == Some(FitReport(seatHight, stemHight, saddleOffset, torsoAngle, shifterAngle))
  {
  }

  /** Where the drawn points already lie on their ranges, the first
      update leaves them there. */
  lemma {:induction false} PlaceFitInRange(bb: Vec, headTubeTop: Vec, minSeat: Vec, maxSeat: Vec, sSeat: real,
                                           minStem: Vec, maxStem: Vec, sStem: real, e: FitEntries, h: Host)
    requires Dot(Sub(maxSeat, minSeat), Sub(maxSeat, minSeat)) != 0.0 && 0.0 <= sSeat <= 1.0
    requires Dot(Sub(maxStem, minStem), Sub(maxStem, minStem)) != 0.0 && 0.0 <= sStem <= 1.0
    requires AlongAngle(bb, e.seatHight - e.saddleHeight, e.seatAngle, h) == At(minSeat, maxSeat, sSeat)
    requires AlongAngle(headTubeTop, e.stemHight, e.headAngle, h) == At(minStem, maxStem, sStem)
    ensures var top := At(minSeat, maxSeat, sSeat);
      PlaceFit(bb, headTubeTop, minSeat, maxSeat, minStem, maxStem, e, h) ==
      Some(FitPoints(top, At(minStem, maxStem, sStem),
                     SaddlePlacement(Vec(top.x, top.y - e.saddleHeight), e.saddleOffset, e.saddleRailLen)))
  {
    OnSegmentStays(minSeat, maxSeat, sSeat);
    OnSegmentStays(minStem, maxStem, sStem);
  }

  /** The read-back of the points drawn from the scaled entries se, the
      seatpost top and the stem's base where the drawing builds them. */
  lemma {:induction false} ReadBackDrawn(bb: Vec, headTubeTop: Vec, top: Vec, stemBase: Vec, e: FitEntries, se: FitEntries,
                                         scale: real, torsoAngle: real, shifterAngle: real, h: Host)
    requires HostOk(h) && scale > 0.0 && se == ScaleEntriesOf(e, scale)
    requires e.seatHight >= e.saddleHeight && e.stemHight >= 0.0 && e.saddleRailLen > 0.0
    requires top == AlongAngle(bb, se.seatHight - se.saddleHeight, se.seatAngle, h)
    requires stemBase == AlongAngle(headTubeTop, se.stemHight, se.headAngle, h)
    ensures var saddle := SaddlePlacement(Vec(top.x, top.y - se.saddleHeight), se.saddleOffset, se.saddleRailLen);
      saddle.Some? &&
      GetFitSettings(bb, top, headTubeTop, stemBase, saddle.value, torsoAngle, shifterAngle, scale, e.saddleHeight, h) ==
      Some(FitReport(e.seatHight, e.stemHight, Clamp(e.saddleOffset, -e.saddleRailLen / 2.0, e.saddleRailLen / 2.0),
                     torsoAngle, shifterAngle))
  {
    SeatComesBack(bb, e.seatHight, e.saddleHeight, se.seatHight - se.saddleHeight, se.seatAngle, scale, h);
    StemComesBack(headTubeTop, e.stemHight, se.stemHight, se.headAngle, scale, h);
    SaddleComesBack(top, se.saddleHeight, e.saddleOffset, se.saddleOffset, e.saddleRailLen, se.saddleRailLen, scale);
    var saddle := SaddlePlacement(Vec(top.x, top.y - se.saddleHeight), se.saddleOffset, se.saddleRailLen);
    ReadBack(bb, top, headTubeTop, stemBase, saddle.value, torsoAngle, shifterAngle, scale,
             e.saddleHeight, h, e.seatHight, e.stemHight, Clamp(e.saddleOffset, -e.saddleRailLen / 2.0, e.saddleRailLen / 2.0));
  }

  /** Reading the fit back gives the fit it was drawn from. Take stored
      entries with the saddle above the bottom bracket by at least the
      saddle height, a stem height that is not negative, and rails of
      positive length, and draw them at any positive scale where the
      seatpost top falls within SeatpostRange (at parameter sSeat from
      MinSeat to MaxSeat) and the stem's base within SteererRange (at
      parameter sStem). Then the seat height and the stem height come back
      as stored, and the saddle offset comes back clamped to the rails, so
      unchanged when it lies within half their length. With
      ReadScaledEntries this covers the stored GEOMETRY and FIT
      themselves. */
  lemma {:induction false} FitRoundTrip(bb: Vec, headTubeTop: Vec, minSeat: Vec, maxSeat: Vec, sSeat: real,
                                        minStem: Vec, maxStem: Vec, sStem: real, e: FitEntries, scale: real,
                                        torsoAngle: real, shifterAngle: real, h: Host)
    requires HostOk(h) && scale > 0.0
    requires e.seatHight >= e.saddleHeight && e.stemHight >= 0.0 && e.saddleRailLen > 0.0
    requires Dot(Sub(maxSeat, minSeat), Sub(maxSeat, minSeat)) != 0.0 && 0.0 <= sSeat <= 1.0
    requires Dot(Sub(maxStem, minStem), Sub(maxStem, minStem)) != 0.0 && 0.0 <= sStem <= 1.0
    requires AlongAngle(bb, e.seatHight * scale - e.saddleHeight * scale, e.seatAngle, h) == At(minSeat, maxSeat, sSeat)
    requires AlongAngle(headTubeTop, e.stemHight * scale, e.headAngle, h) == At(minStem, maxStem, sStem)
    ensures var p := PlaceFit(bb, headTubeTop, minSeat, maxSeat, minStem, maxStem, ScaleEntriesOf(e, scale), h);
      p.Some? && p.value.saddle.Some? &&
      GetFitSettings(bb, p.value.seatpostTop, headTubeTop, p.value.stemBase, p.value.saddle.value, torsoAngle, shifterAngle,
                     scale, e.saddleHeight, h) ==
      Some(FitReport(e.seatHight, e.stemHight, Clamp(e.saddleOffset, -e.saddleRailLen / 2.0, e.saddleRailLen / 2.0),
                     torsoAngle, shifterAngle))
  {
    var se := ScaleEntriesOf(e, scale);
    assert se.seatHight - se.saddleHeight == e.seatHight * scale - e.saddleHeight * scale;
    assert se.stemHight == e.stemHight * scale && se.seatAngle == e.seatAngle && se.headAngle == e.headAngle;
    var top, stemBase := At(minSeat, maxSeat, sSeat), At(minStem, maxStem, sStem);
    PlaceFitInRange(bb, headTubeTop, minSeat, maxSeat, sSeat, minStem, maxStem, sStem, se, h);
    ReadBackDrawn(bb, headTubeTop, top, stemBase, e, se, scale, torsoAngle, shifterAngle, h);
  }

  /** Outside its range a drawn point is moved to the range's nearer end,
      and the fit reads back from there: a seat height whose seatpost
      would pass MaxSeat comes back as the height at MaxSeat, not as
      stored, and likewise at MinSeat and at the stem's two limits. */
  lemma OutOfRangeReadsRangeEnd(bb: Vec, headTubeTop: Vec, minSeat: Vec, maxSeat: Vec, minStem: Vec, maxStem: Vec,
                                e: FitEntries, scale: real, torsoAngle: real, shifterAngle: real, h: Host)
    requires HostOk(h) && scale > 0.0
    requires var p := PlaceFit(bb, headTubeTop, minSeat, maxSeat, minStem, maxStem, ScaleEntriesOf(e, scale), h);
      p.Some? && p.value.saddle.Some?
    ensures var se := ScaleEntriesOf(e, scale);
      var p := PlaceFit(bb, headTubeTop, minSeat, maxSeat, minStem, maxStem, se, h).value;
      var r := GetFitSettings(bb, p.seatpostTop, headTubeTop, p.stemBase, p.saddle.value, torsoAngle, shifterAngle,
                              scale, e.saddleHeight, h).value;
      var ts := LineParam(minSeat, maxSeat, AlongAngle(bb, se.seatHight - se.saddleHeight, se.seatAngle, h)).value;
      var tm := LineParam(minStem, maxStem, AlongAngle(headTubeTop, se.stemHight, se.headAngle, h)).value;
      (ts < 0.0 ==> r.seatHight == Dist(bb, minSeat, h) / scale + e.saddleHeight) &&
      (1.0 < ts ==> r.seatHight == Dist(bb, maxSeat, h) / scale + e.saddleHeight) &&
      (tm < 0.0 ==> r.stemHight == Dist(headTubeTop, minStem, h) / scale) &&
      (1.0 < tm ==> r.stemHight == Dist(headTubeTop, maxStem, h) / scale)
  {
    var se := ScaleEntriesOf(e, scale);
    var p := PlaceFit(bb, headTubeTop, minSeat, maxSeat, minStem, maxStem, se, h).value;
    var r := GetFitSettings(bb, p.seatpostTop, headTubeTop, p.stemBase, p.saddle.value, torsoAngle, shifterAngle,
                            scale, e.saddleHeight, h).value;
    assert r.seatHight == Dist(bb, p.seatpostTop, h) / scale + e.saddleHeight;
    assert r.stemHight == Dist(headTubeTop, p.stemBase, h) / scale;
  }
}
