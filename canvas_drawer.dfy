// The Drawer of app/static/js/canvas_drawer.js, up to the point where it
// starts building figures. It covers:
// - the canvas scale and the step limit it hands to the figure engine;
// - the scaled copies of the parameter dictionaries;
// - the clearing of the figure engine;
// - the fit `draw_preview` puts in place of the stored one;
// - the valid ranges `drawAngles` gives the rider's angles;
// - the scale of the kinematic sketch.
// The figure-by-figure construction that follows is not part of this
// model; its arithmetic is in Recipes.
module CanvasDrawer {
  import opened Wrappers
  import opened Geometry
  import opened Angles
  import opened Figures
  import opened Drag
  import opened Cascade
  import opened Engine
  import opened Recipes

  /** The four angles `drawAngles` builds. */
  datatype AngleName = ElbowAngle | TorsoAngle | ShoulderAngle | ShifterAngle

  /** The `valid_range` each angle is built with; the shifter angle has none
      and keeps its colour. */
  function ValidRange(n: AngleName): (r: Option<Range>)
    ensures r.None? <==> n == ShifterAngle
    ensures r.Some? ==> r.value.lo < r.value.hi
  {
    match n
    case ElbowAngle => Some(Range(145.0, 165.0))
    case TorsoAngle => Some(Range(35.0, 47.5))
    case ShoulderAngle => Some(Range(87.5, 92.5))
    case ShifterAngle => None
  }

  /** The shoulder's green band is the right angle give or take 1.25
      degrees; a torso between 38 and 44.5 degrees and an elbow between 150
      and 160 degrees are green. */
  lemma GreenBands(value: real)
    ensures Classify(value, ValidRange(ShoulderAngle).value) == "green" <==> 88.75 <= value <= 91.25
    ensures Classify(value, ValidRange(TorsoAngle).value) == "green" <==> 38.125 <= value <= 44.375
    ensures Classify(value, ValidRange(ElbowAngle).value) == "green" <==> 150.0 <= value <= 160.0
  {
  }

  /** The geometry keys `draw_preview` reads. */
  predicate HasPreviewKeys(g: Params)
  {
    "seatTube" in g && "minseatpostLen" in g && "maxseatpostLen" in g && "maxStemHight" in g
  }

  /** The FIT `draw_preview` puts in place of the scaled stored one: the
      saddle at mid seatpost, the stem at its highest, the hands at 45
      degrees and the saddle centred on its rails. */
  function PreviewFit(g: Params): (f: Params)
    requires HasPreviewKeys(g)
    ensures f.Keys == {"seatHight", "stemHight", "shifterAngle", "saddleOffset"}
    ensures f["stemHight"] == g["maxStemHight"] && f["shifterAngle"] == 45.0 && f["saddleOffset"] == 0.0
    ensures f["seatHight"] - g["seatTube"] - g["minseatpostLen"] == g["seatTube"] + g["maxseatpostLen"] - f["seatHight"]
  {
    map["seatHight" := g["seatTube"] + (g["minseatpostLen"] + g["maxseatpostLen"]) / 2.0,
        "stemHight" := g["maxStemHight"],
        "shifterAngle" := 45.0,
        "saddleOffset" := 0.0]
  }

  /** The preview's seat height lies within the seatpost's range whenever
      the range is proper. */
  lemma PreviewSeatInRange(g: Params)
    requires HasPreviewKeys(g) && g["minseatpostLen"] <= g["maxseatpostLen"]
    ensures g["seatTube"] + g["minseatpostLen"] <= PreviewFit(g)["seatHight"] <= g["seatTube"] + g["maxseatpostLen"]
  {
  }

  /** `KinematicScale`: the kinematic sketch is drawn for a 170 mm crank and
      stretched by the crank length, which is already scaled. */
  function KinematicScale(crankLen: real): real
  {
    crankLen / 170.0
  }

  /** The sketch follows the drawing: with the scaled crank length it is
      the scale times the sketch of the stored one. */
  lemma KinematicScaleFollowsDrawing(g: Params, scale: real)
    requires "crankLen" in g
    ensures "crankLen" in Scaled(g, scale)
    ensures KinematicScale(Scaled(g, scale)["crankLen"]) == scale * KinematicScale(g["crankLen"])
  {
    assert !EndsWithAngle("crankLen");
  }

  /** With a step limit set, as `calculateScale` sets it, a drag of a
      visible movable point that is no farther from the target than the
      limit moves the point onto the target. */
  lemma DragReachesNearTarget(g: seq<Node>, s: seq<State>, i: nat, target: Vec, maxStep: real, h: Host)
    requires HostOk(h) && Fits(g, s) && i < |g|
    requires g[i].moveable && g[i].visible && g[i].kind.PointK?
    requires 0.0 < Dist(s[i].pos, target, h) <= maxStep
    ensures var d := DragDelta(s[i].pos, target, maxStep, h);
      Move(g, s, i, target, Some(maxStep), h) == Update(g, s, i, d.x, d.y, h) &&
      Add(s[i].pos, d) == target
  {
    Drag.DragReachesNearTarget(s[i].pos, target, maxStep, h);
  }

  class Drawer {
    /** `INIT_GEOMETRY`, `INIT_ANTROPOMETRICS`, `INIT_FIT`: the stored
        dictionaries, never changed. */
    const initGeometry: Params
    const initAnthropometrics: Params
    const initFit: Params
    /** `GEOMETRY`, `ANTROPOMETRICS`, `FIT`: the scaled copies. */
    var geometry: Params
    var anthropometrics: Params
    var fit: Params
    var width: real
    var height: real
    var scale: real
    /** The figure engine the drawer builds into. */
    const scene: Scene

    ghost predicate Valid()
      reads scene
    {
      scene.Valid()
    }

    /** `new Drawer(CANVAS_ID, GEOMETRY, ANTROPOMETRICS, FIT)`: the stored
        dictionaries are kept; nothing is scaled yet. */
    constructor (scene: Scene, geometry: Params, anthropometrics: Params, fit: Params)
      requires scene.Valid()
      ensures Valid() && this.scene == scene
      ensures initGeometry == geometry && initAnthropometrics == anthropometrics && initFit == fit
      ensures this.geometry == map[] && this.anthropometrics == map[] && this.fit == map[]
    {
      this.scene := scene;
      initGeometry := geometry;
      initAnthropometrics := anthropometrics;
      initFit := fit;
      this.geometry := map[];
      this.anthropometrics := map[];
      this.fit := map[];
    }

    /** `calculateScale`, given the canvas's measured size and the
        `MAXSTEP` constant: the scale, and the engine's step limit scaled
        with it. */
    method CalculateScale(rectWidth: real, rectHeight: real, maxStepBase: real)
      requires Valid()
      modifies this`width, this`height, this`scale, scene`maxStep
      ensures Valid()
      ensures width == rectWidth && height == rectHeight && scale == CanvasScale(rectWidth, rectHeight)
      ensures scene.maxStep.Some? && scene.maxStep.value == maxStepBase * scale
    {
      width := rectWidth;
      height := rectHeight;
      scale := Min(width / 2000.0, height / 1750.0);
      scene.SetMaxStep(maxStepBase, scale);
    }

    /** `scaleData`: fresh copies of the stored dictionaries, every entry
        but the angles multiplied by the scale. */
    method ScaleData()
      modifies this`geometry, this`anthropometrics, this`fit
      ensures geometry == Scaled(initGeometry, scale)
      ensures anthropometrics == Scaled(initAnthropometrics, scale)
      ensures fit == Scaled(initFit, scale)
    {
      geometry := ScaleEntries(initGeometry, scale);
      anthropometrics := ScaleEntries(initAnthropometrics, scale);
      fit := ScaleEntries(initFit, scale);
    }

    /** `clearCanvas`: no figure left, the counters reset. */
    method ClearCanvas()
      requires Valid()
      modifies scene
      ensures Valid()
      ensures scene.nodes == [] && scene.states == [] && scene.ids == []
      ensures scene.counters == ClearedCounters(old(scene.counters)) && scene.maxStep == old(scene.maxStep)
    {
      scene.Clear();
    }

    /** The steps of `draw` that precede the construction of the figures.
        What they leave depends only on the stored dictionaries, the canvas
        size and the step constant, except for the CircleByCenterEdge
        counter. */
    method Draw(rectWidth: real, rectHeight: real, maxStepBase: real)
      requires Valid()
      modifies this, scene
      ensures Valid()
      ensures scene.nodes == [] && scene.ids == [] && scene.counters == ClearedCounters(old(scene.counters))
      ensures scale == CanvasScale(rectWidth, rectHeight) && scene.maxStep.Some? && scene.maxStep.value == maxStepBase * scale
      ensures geometry == Scaled(initGeometry, scale) && anthropometrics == Scaled(initAnthropometrics, scale)
      ensures fit == Scaled(initFit, scale)
    {
      ClearCanvas();
      CalculateScale(rectWidth, rectHeight, maxStepBase);
      ScaleData();
    }

    /** `reset`: draw again. */
    method Reset(rectWidth: real, rectHeight: real, maxStepBase: real)
      requires Valid()
      modifies this, scene
      ensures Valid()
      ensures scene.nodes == [] && scene.ids == [] && scene.counters == ClearedCounters(old(scene.counters))
      ensures scale == CanvasScale(rectWidth, rectHeight) && scene.maxStep.Some? && scene.maxStep.value == maxStepBase * scale
      ensures geometry == Scaled(initGeometry, scale) && fit == Scaled(initFit, scale)
    {
      Draw(rectWidth, rectHeight, maxStepBase);
    }

    /** The steps of `draw_preview` before the bike is built: those of
        `draw`, with the fit replaced by the preview fit. */
    method DrawPreview(rectWidth: real, rectHeight: real, maxStepBase: real)
      requires Valid() && HasPreviewKeys(initGeometry)
      modifies this, scene
      ensures Valid()
      ensures scene.nodes == [] && scene.ids == [] && scene.counters == ClearedCounters(old(scene.counters))
      ensures scale == CanvasScale(rectWidth, rectHeight) && scene.maxStep.Some? && scene.maxStep.value == maxStepBase * scale
      ensures geometry == Scaled(initGeometry, scale)
      ensures fit == PreviewFit(geometry)
    {
      Draw(rectWidth, rectHeight, maxStepBase);
      fit := PreviewFit(geometry);
    }
  }
}
