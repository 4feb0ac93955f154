// The construction helpers of app/static/js/geometry-helpers.js: each one
// builds a few auxiliary figures in the scene and returns a Line.
module Helpers {
  import opened Wrappers
  import opened Geometry
  import opened Figures
  import opened Cascade
  import opened Registry
  import opened CascadeFacts
  import opened Engine

  // ---------------------------------------------------------------------
  // the arithmetic of the helpers

  lemma MulNonNeg(a: real, b: real)
    requires 0.0 <= a && 0.0 <= b
    ensures 0.0 <= a * b
  {
  }

  lemma MulPos(a: real, b: real)
    requires 0.0 < a && 0.0 < b
    ensures 0.0 < a * b
  {
  }

  /** Of two non-negative roots, the smaller belongs to the smaller square. */
  lemma RootsOrdered(x: real, y: real)
    requires 0.0 <= x && 0.0 <= y
    ensures x < y <==> x * x < y * y
  {
    if x < y {
      MulNonNeg(x, y - x);
      MulPos(y, y - x);
      assert y * y - x * x == x * (y - x) + y * (y - x);
    } else {
      MulNonNeg(y, x - y);
      MulNonNeg(x, x - y);
      assert x * x - y * y == x * (x - y) + y * (x - y);
    }
  }

  /** `parallel`'s choice of the line's ends by `distance` (the model's
      `Dist`): the end strictly nearer the anchor first; on a tie the
      line's p2 first. Comparing the two roots is comparing the squared
      distances. */
  function ParallelEnds(e1: nat, e2: nat, q1: Vec, q2: Vec, anchor: Vec, h: Host): (r: (nat, nat))
    requires HostOk(h)
    ensures r == (if Dist2(q1, anchor) < Dist2(q2, anchor) then (e1, e2) else (e2, e1))
  {
    LenFacts(Sub(q1, anchor), h);
    LenFacts(Sub(q2, anchor), h);
    RootsOrdered(Dist(q1, anchor, h), Dist(q2, anchor, h));
    if Dist(q1, anchor, h) < Dist(q2, anchor, h) then (e1, e2) else (e2, e1)
  }

  /** `angled_line`'s k: -1 when the angle, brought into [0, 360) by
      `angleDeg - 360 * Math.floor(angleDeg / 360)`, exceeds 180. */
  function TurnSign(angleDeg: real): (k: real)
    ensures k == 1.0 || k == -1.0
  {
    if angleDeg - 360.0 * ((angleDeg / 360.0).Floor as real) > 180.0 then -1.0 else 1.0
  }

  /** k is -1 exactly when the angle, taken modulo whole turns, lies
      strictly between 180 and 360 degrees. */
  lemma TurnSignByTurn(angleDeg: real, w: real, t: int)
    requires 0.0 <= w < 360.0 && angleDeg == w + 360.0 * (t as real)
    ensures TurnSign(angleDeg) == (if w > 180.0 then -1.0 else 1.0)
  {
    Mod360Unique(angleDeg, w, t);
  }

  /** The two first guesses `middle_perpendicular` (and `parallel`, for
      the anchor and p2) give its points: the midpoint of a and b moved by a
      tenth of the perpendicular of b - a, one each way. */
  function BisectorGuesses(a: Vec, b: Vec): (r: (Vec, Vec))
    ensures Add(r.0, r.1) == Add(a, b)
    ensures Dot(Sub(r.0, r.1), Sub(b, a)) == 0.0
  {
    (Vec((a.x + b.x) / 2.0 + 0.1 * (b.y - a.y), (a.y + b.y) / 2.0 - 0.1 * (b.x - a.x)),
     Vec((a.x + b.x) / 2.0 - 0.1 * (b.y - a.y), (a.y + b.y) / 2.0 + 0.1 * (b.x - a.x)))
  }

  /** The guesses are the same distance from a as from b: they lie on the
      perpendicular bisector of ab. */
  lemma GuessesOnBisector(a: Vec, b: Vec)
    ensures Dist2(BisectorGuesses(a, b).0, a) == Dist2(BisectorGuesses(a, b).0, b)
    ensures Dist2(BisectorGuesses(a, b).1, a) == Dist2(BisectorGuesses(a, b).1, b)
  {
  }

  // ---------------------------------------------------------------------
  // what a point built on one point does

  /** A point whose dependents are not yet there and whose resolution
      succeeds completes its update. */
  lemma {:induction false} LeafPointUpdates(g: seq<Node>, s: seq<State>, i: nat, dx: real, dy: real, h: Host)
    requires HostOk(h) && Fits(g, s) && i < |g| && g[i].kind.PointK? && g[i].dependents == []
    requires Resolve(g, s, i, Add(s[i].pos, Vec(dx, dy)), h).To?
    ensures Update(g, s, i, dx, dy, h).ok
  {
    assert Kids(g, i) == [];
    var shifted := Add(s[i].pos, Vec(dx, dy));
    var s0 := s[i := s[i].(pos := shifted)];
    var res := Resolve(g, s, i, shifted, h);
    assert Update(g, s, i, dx, dy, h) == PointUpdate(g, s, i, dx, dy, h);
    assert PointUpdate(g, s, i, dx, dy, h) == Settle(g, s0, i, res.hide, res.pos, s[i].pos, h);
    LeafSettles(g, s0, i, res.hide, res.pos, s[i].pos, h);
  }

  /** With no dependents, the rest of a point's update cannot fail. */
  lemma LeafSettles(g: seq<Node>, s: seq<State>, i: nat, flag: Option<bool>, q: Vec, prev: Vec, h: Host)
    requires HostOk(h) && Fits(g, s) && i < |g| && Kids(g, i) == []
    ensures Settle(g, s, i, flag, q, prev, h).ok
  {
    var s1 := Hide(g, s, i, flag);
    var s2 := s1[i := s1[i].(pos := q)];
    assert DeltaLoop(g, s2, i, 0, q.x - prev.x, q.y - prev.y, h) == Outcome(s2, true);
    assert PlainLoop(g, s2, i, 0, h).ok;
  }

  /** `new Point({x, y, dependencies: [a]})` on a point a: the update
      succeeds and leaves the new point where it was built. */
  lemma PointOnPointStays(g: seq<Node>, s: seq<State>, init: Vec, a: nat, colour: string, visible: bool, moveable: bool, h: Host)
    requires HostOk(h) && Fits(g, s) && a < |g| && g[a].kind.PointK?
    ensures Admissible(g, PointK(init), [a])
    ensures var r := ConstructPoint(g, s, init, [a], colour, visible, moveable, h);
      r.1.ok && r.1.st[|g|].pos == init
  {
    var b := Register(g, s, PointK(init), [a], visible, moveable, InitState(PointK(init), colour, 0.0));
    var n := |g|;
    assert DepsOf(b.0, n) == [a];
    assert b.0[a].kind.PointK?;
    assert b.1[n].pos == init;
    PointOnPointFollowsDelta(b.0, b.1, n, 0.0, 0.0, h);
    LeafPointUpdates(b.0, b.1, n, 0.0, 0.0, h);
  }

  // ---------------------------------------------------------------------
  // the helpers

  /** The body shared by `h_line` and `v_line` on the arena: a hidden
      point at the anchor moved by `dir`, bound to the anchor, then the Line
      from the anchor to it. The helper point stays exactly `dir` away from
      the anchor, which nothing else changes. */
  function AxisArena(g: seq<Node>, s: seq<State>, anchor: nat, dir: Vec, visible: bool, h: Host): (r: (seq<Node>, seq<State>))
    requires HostOk(h) && Fits(g, s) && anchor < |g| && g[anchor].kind.PointK?
    ensures Fits(r.0, r.1) && |r.0| == |g| + 2
    ensures r.0[|g| + 1].kind == LineK(anchor, |g|, false)
    ensures r.0[|g|].kind == PointK(Add(s[anchor].pos, dir))
    ensures r.0[|g|].deps == [anchor] && !r.0[|g|].visible
    ensures r.1[anchor] == s[anchor] && r.1[|g|].pos == Add(s[anchor].pos, dir)
  {
    var init := Add(s[anchor].pos, dir);
    PointOnPointStays(g, s, init, anchor, "grey", false, false, h);
    var a := ConstructPoint(g, s, init, [anchor], "grey", false, false, h);
    var p := |g|;
    assert a.0[anchor].kind == g[anchor].kind;
    var c := ConstructFigure(a.0, a.1.st, LineK(anchor, p, false), [], "grey", visible, false, 0.0, h);
    assert c.0[p] == a.0[p].(dependents := c.0[p].dependents);
    c
  }

  /** `h_line` and `v_line` on the scene. */
  method AxisLine(sc: Scene, anchor: nat, dir: Vec, visible: bool, h: Host) returns (line: nat)
    requires sc.Valid() && HostOk(h) && anchor < |sc.nodes| && sc.nodes[anchor].kind.PointK?
    modifies sc
    ensures sc.Valid() && line == old(|sc.nodes|) + 1
    ensures (sc.nodes, sc.states) == AxisArena(old(sc.nodes), old(sc.states), anchor, dir, visible, h)
  {
    ghost var g, s := sc.nodes, sc.states;
    var init := Add(sc.states[anchor].pos, dir);
    PointOnPointStays(g, s, init, anchor, "grey", false, false, h);
    var p, ok := sc.AddPoint(init, [anchor], None, false, false, h);
    ghost var a := ConstructPoint(g, s, init, [anchor], "grey", false, false, h);
    assert sc.nodes == a.0 && sc.states == a.1.st;
    assert a.0[anchor].kind == g[anchor].kind;
    line := sc.AddFigure(LineK(anchor, p, false), [], None, visible, false, 0.0, h);
  }

  /** `h_line`: the Line from the anchor to a hidden point one unit to its
      right, which keeps the line horizontal. */
  method HLine(sc: Scene, anchor: nat, visible: bool, h: Host) returns (line: nat)
    requires sc.Valid() && HostOk(h) && anchor < |sc.nodes| && sc.nodes[anchor].kind.PointK?
    modifies sc
    ensures sc.Valid() && line == old(|sc.nodes|) + 1
    ensures (sc.nodes, sc.states) == AxisArena(old(sc.nodes), old(sc.states), anchor, Vec(1.0, 0.0), visible, h)
  {
    line := AxisLine(sc, anchor, Vec(1.0, 0.0), visible, h);
  }

  /** `v_line`: the Line from the anchor to a hidden point one unit below
      it (the canvas's y grows downward), which keeps the line vertical. */
  method VLine(sc: Scene, anchor: nat, visible: bool, h: Host) returns (line: nat)
    requires sc.Valid() && HostOk(h) && anchor < |sc.nodes| && sc.nodes[anchor].kind.PointK?
    modifies sc
    ensures sc.Valid() && line == old(|sc.nodes|) + 1
    ensures (sc.nodes, sc.states) == AxisArena(old(sc.nodes), old(sc.states), anchor, Vec(0.0, 1.0), visible, h)
  {
    line := AxisLine(sc, anchor, Vec(0.0, 1.0), visible, h);
  }

  /** The arena g1 is g0 with k more figures, the earlier ones of the
      same kinds. */
  ghost predicate Grew(g0: seq<Node>, g1: seq<Node>, k: nat)
  {
    |g1| == |g0| + k && forall j :: 0 <= j < |g0| ==> g1[j].kind == g0[j].kind
  }

  /** A hidden auxiliary figure (not a point, not an angle), as the helpers
      build them; what it adds to the scene in the helpers' terms. */
  method Aux(sc: Scene, kind: Kind, extra: seq<nat>, visible: bool, radius: real, h: Host) returns (n: nat)
    requires sc.Valid() && HostOk(h) && Admissible(sc.nodes, kind, extra) && !kind.PointK? && !kind.AngleK?
    modifies sc
    ensures sc.Valid() && n == old(|sc.nodes|) && Grew(old(sc.nodes), sc.nodes, 1) && sc.nodes[n].kind == kind
    ensures forall j :: 0 <= j < n ==> sc.states[j] == old(sc.states[j])
  {
    ghost var g, s := sc.nodes, sc.states;
    n := sc.AddFigure(kind, extra, None, visible, false, radius, h);
    ghost var c := ConstructFigure(g, s, kind, extra, "grey", visible, false, radius, h);
    assert sc.nodes == c.0 && sc.states == c.1;
  }

  /** A hidden auxiliary point built at init on the figures extra. */
  method AuxPoint(sc: Scene, init: Vec, extra: seq<nat>, h: Host) returns (n: nat, ok: bool)
    requires sc.Valid() && HostOk(h) && Admissible(sc.nodes, PointK(init), extra)
    modifies sc
    ensures sc.Valid() && n == old(|sc.nodes|) && Grew(old(sc.nodes), sc.nodes, 1) && sc.nodes[n].kind == PointK(init)
    ensures forall j :: 0 <= j < n ==> sc.states[j] == old(sc.states[j])
  {
    ghost var g, s := sc.nodes, sc.states;
    n, ok := sc.AddPoint(init, extra, None, false, false, h);
    ghost var c := ConstructPoint(g, s, init, extra, "grey", false, false, h);
    assert sc.nodes == c.0 && sc.states == c.1.st;
  }

  /** `perpendicular`: a hidden circle of radius 100 about the anchor, two
      hidden points where the line meets it, hidden circles of radius 200
      about those, the hidden point where these two circles meet, and the
      Line from that point to the anchor. ok is false where a point's
      update fails, which ends the construction. */
  method Perpendicular(sc: Scene, line: nat, anchor: nat, visible: bool, h: Host) returns (l: nat, ok: bool)
    requires sc.Valid() && HostOk(h) && line < |sc.nodes| && anchor < |sc.nodes| && sc.nodes[anchor].kind.PointK?
    modifies sc
    ensures sc.Valid()
    ensures ok ==> l == old(|sc.nodes|) + 6 && |sc.nodes| == l + 1 && sc.nodes[l].kind == LineK(l - 1, anchor, false)
  {
    l := 0;
    var c1, c2;
    c1, c2, ok := PerpendicularGuides(sc, line, anchor, h);
    if !ok { return; }
    var p1;
    p1, ok := AuxPoint(sc, Zero, [c1, c2], h);
    if !ok { return; }
    l := Aux(sc, LineK(p1, anchor, false), [], visible, 0.0, h);
  }

  /** The first five figures of `perpendicular`: the circle about the
      anchor, the two points on the line and the two circles about them. */
  method PerpendicularGuides(sc: Scene, line: nat, anchor: nat, h: Host) returns (c1: nat, c2: nat, ok: bool)
    requires sc.Valid() && HostOk(h) && line < |sc.nodes| && anchor < |sc.nodes| && sc.nodes[anchor].kind.PointK?
    modifies sc
    ensures sc.Valid()
    ensures ok ==> Grew(old(sc.nodes), sc.nodes, 5) && c1 < c2 < |sc.nodes|
  {
    c1, c2 := 0, 0;
    var c0 := Aux(sc, CircleK(anchor), [], false, 100.0, h);
    var pa := sc.states[anchor].pos;
    var q1;
    q1, ok := AuxPoint(sc, Vec(pa.x + 100.0, pa.y + 100.0), [line, c0], h);
    if !ok { return; }
    c1 := Aux(sc, CircleK(q1), [], false, 200.0, h);
    pa := sc.states[anchor].pos;
    var q2;
    q2, ok := AuxPoint(sc, Vec(pa.x - 100.0, pa.y - 100.0), [line, c0], h);
    if !ok { return; }
    c2 := Aux(sc, CircleK(q2), [], false, 200.0, h);
  }

  /** The four figures `middle_perpendicular` builds on a and b, and
      `parallel` on the anchor and p2: the circles about a through b and
      about b through a, and the two hidden points on both, started at the
      guesses symmetric about the midpoint of a and b (at q and q + 1). */
  method BisectorPoints(sc: Scene, a: nat, b: nat, h: Host) returns (q: nat, ok: bool)
    requires sc.Valid() && HostOk(h) && a < |sc.nodes| && sc.nodes[a].kind.PointK?
    requires b < |sc.nodes| && sc.nodes[b].kind.PointK?
    modifies sc
    ensures sc.Valid()
    ensures ok ==> Grew(old(sc.nodes), sc.nodes, 4) && q == old(|sc.nodes|) + 2
    ensures ok ==>
      var guess := BisectorGuesses(old(sc.states[a].pos), old(sc.states[b].pos));
      sc.nodes[q].kind == PointK(guess.0) && sc.nodes[q + 1].kind == PointK(guess.1)
  {
    var circle0 := Aux(sc, CircleByCenterEdgeK(a, b), [], false, 0.0, h);
    var circle1 := Aux(sc, CircleByCenterEdgeK(b, a), [], false, 0.0, h);
    var guess := BisectorGuesses(sc.states[a].pos, sc.states[b].pos);
    var q1;
    q, ok := AuxPoint(sc, guess.0, [circle0, circle1], h);
    if !ok { return; }
    q1, ok := AuxPoint(sc, guess.1, [circle0, circle1], h);
  }

  /** `middle_perpendicular`: the hidden Line through the two points
      `BisectorPoints` builds on p1 and p2. */
  method MiddlePerpendicular(sc: Scene, p1: nat, p2: nat, h: Host) returns (l: nat, ok: bool)
    requires sc.Valid() && HostOk(h) && p1 < |sc.nodes| && sc.nodes[p1].kind.PointK?
    requires p2 < |sc.nodes| && sc.nodes[p2].kind.PointK?
    modifies sc
    ensures sc.Valid()
    ensures ok ==> l == old(|sc.nodes|) + 4 && |sc.nodes| == l + 1 && sc.nodes[l].kind == LineK(l - 2, l - 1, false)
    ensures ok ==>
      var guess := BisectorGuesses(old(sc.states[p1].pos), old(sc.states[p2].pos));
      sc.nodes[l - 2].kind == PointK(guess.0) && sc.nodes[l - 1].kind == PointK(guess.1)
  {
    l := 0;
    var q;
    q, ok := BisectorPoints(sc, p1, p2, h);
    if !ok { return; }
    l := Aux(sc, LineK(q, q + 1, false), [], false, 0.0, h);
  }

  /** `parallel`: the Line through the anchor parallel to the line. The
      construction reflects the line's far end p2 about the perpendicular
      bisector of the anchor and p2 (`BisectorPoints`, the Line through its
      two points, the meeting point of that Line with the anchor-p2 Line),
      extends the Line from the near end p1 through that point by a
      tenth, and ends with the Line from the anchor to there. */
  method Parallel(sc: Scene, line: nat, anchor: nat, visible: bool, h: Host) returns (l: nat, ok: bool)
    requires sc.Valid() && HostOk(h) && line < |sc.nodes| && sc.nodes[line].kind.LineK?
    requires anchor < |sc.nodes| && sc.nodes[anchor].kind.PointK?
    modifies sc
    ensures sc.Valid()
    ensures ok ==> l == old(|sc.nodes|) + 10 && |sc.nodes| == l + 1 && sc.nodes[l].kind == LineK(anchor, l - 1, false)
    ensures ok ==>
      var e := old(sc.nodes[line].kind);
      e.p1 < old(|sc.nodes|) && e.p2 < old(|sc.nodes|) &&
      sc.nodes[l - 3].kind ==
        LineK(ParallelEnds(e.p1, e.p2, old(sc.states[e.p1].pos), old(sc.states[e.p2].pos), old(sc.states[anchor].pos), h).0, l - 4, false)
  {
    l := 0;
    assert NodeOk(sc.nodes, line);
    var e := sc.nodes[line].kind;
    var ends := ParallelEnds(e.p1, e.p2, sc.states[e.p1].pos, sc.states[e.p2].pos, sc.states[anchor].pos, h);
    var p1, p2 := ends.0, ends.1;
    var line0, circle0;
    line0, circle0, ok := ParallelReflect(sc, anchor, p1, p2, h);
    if !ok { return; }
    l, ok := ParallelLine(sc, anchor, p1, line0, circle0, visible, h);
  }

  /** The last two figures of `parallel`: the point on the Line line0
      and the circle circle0, started a tenth beyond line0's second end,
      and the Line from the anchor to it. */
  method ParallelLine(sc: Scene, anchor: nat, p1: nat, line0: nat, circle0: nat, visible: bool, h: Host) returns (l: nat, ok: bool)
    requires sc.Valid() && HostOk(h) && anchor < |sc.nodes| && sc.nodes[anchor].kind.PointK?
    requires p1 < |sc.nodes| && 0 < line0 < circle0 < |sc.nodes|
    modifies sc
    ensures sc.Valid()
    ensures ok ==> Grew(old(sc.nodes), sc.nodes, 2) && l == old(|sc.nodes|) + 1 && sc.nodes[l].kind == LineK(anchor, l - 1, false)
  {
    l := 0;
    var q0, q1 := sc.states[line0 - 1].pos, sc.states[p1].pos;
    var point1;
    point1, ok := AuxPoint(sc, Vec(q0.x + 0.1 * (q0.x - q1.x), q0.y + 0.1 * (q0.y - q1.y)), [line0, circle0], h);
    if !ok { return; }
    l := Aux(sc, LineK(anchor, point1, false), [], visible, 0.0, h);
  }

  /** The first nine figures of `parallel`: p2's reflection (a point at
      line0 - 1), the Line line0 from p1 to it and the circle about it
      through p1. */
  method ParallelReflect(sc: Scene, anchor: nat, p1: nat, p2: nat, h: Host) returns (line0: nat, circle0: nat, ok: bool)
    requires sc.Valid() && HostOk(h) && anchor < |sc.nodes| && sc.nodes[anchor].kind.PointK?
    requires p1 < |sc.nodes| && sc.nodes[p1].kind.PointK? && p2 < |sc.nodes| && sc.nodes[p2].kind.PointK?
    modifies sc
    ensures sc.Valid()
    ensures ok ==> Grew(old(sc.nodes), sc.nodes, 9) && line0 == old(|sc.nodes|) + 7 && circle0 == line0 + 1
    ensures ok ==> sc.nodes[line0].kind == LineK(p1, line0 - 1, false) && sc.nodes[line0 - 1].kind.PointK?
  {
    line0, circle0 := 0, 0;
    var m;
    m, ok := ParallelGuides(sc, anchor, p2, h);
    if !ok { return; }
    var point0;
    point0, ok := AuxPoint(sc, Zero, [m, m + 1], h);
    if !ok { return; }
    line0 := Aux(sc, LineK(p1, point0, false), [], false, 0.0, h);
    circle0 := Aux(sc, CircleByCenterEdgeK(point0, p1), [], false, 0.0, h);
  }

  /** The first six figures of `parallel`: `BisectorPoints` on the anchor
      and p2, the Line m through those points and the Line from the anchor
      to p2 (at m + 1). */
  method ParallelGuides(sc: Scene, anchor: nat, p2: nat, h: Host) returns (m: nat, ok: bool)
    requires sc.Valid() && HostOk(h) && anchor < |sc.nodes| && sc.nodes[anchor].kind.PointK?
    requires p2 < |sc.nodes| && sc.nodes[p2].kind.PointK?
    modifies sc
    ensures sc.Valid()
    ensures ok ==> Grew(old(sc.nodes), sc.nodes, 6) && m == |sc.nodes| - 2
  {
    m := 0;
    var q;
    q, ok := BisectorPoints(sc, anchor, p2, h);
    if !ok { return; }
    m := Aux(sc, LineK(q, q + 1, false), [], false, 0.0, h);
    var line1 := Aux(sc, LineK(anchor, p2, false), [], false, 0.0, h);
  }

  /** `angled_line`: the Line from p2 turned by angleDeg from the line
      p1-p2. A hidden circle of radius 100 about p2 and the hidden Line
      p1-p2 fix a point on that line (updated once more), a circle of the
      chord's length about it, and a hidden point started on the side k
      chooses lands on the chord's far end. */
  method AngledLine(sc: Scene, p1: nat, p2: nat, angleDeg: real, visible: bool, h: Host) returns (l: nat, ok: bool)
    requires sc.Valid() && HostOk(h) && p1 < |sc.nodes| && sc.nodes[p1].kind.PointK?
    requires p2 < |sc.nodes| && sc.nodes[p2].kind.PointK?
    modifies sc
    ensures sc.Valid()
    ensures ok ==> l == old(|sc.nodes|) + 5 && |sc.nodes| == l + 1 && sc.nodes[l].kind == LineK(p2, l - 1, false)
  {
    l := 0;
    var a := 100.0;
    var b := h.sqrt(2.0 * a * a * (1.0 - h.cos(angleDeg * (PI / 180.0))));
    var anchor;
    anchor, ok := AngledAnchor(sc, p1, p2, a, h);
    if !ok { return; }
    var circle1 := Aux(sc, CircleK(anchor), [], false, b, h);
    var k := TurnSign(angleDeg);
    var q2, qa := sc.states[p2].pos, sc.states[anchor].pos;
    var p3;
    p3, ok := AuxPoint(sc, Vec(2.0 * q2.x - qa.x + 0.1 * (q2.y - qa.y) * k, 2.0 * q2.y - qa.y - 0.1 * (q2.x - qa.x) * k), [anchor - 2, circle1], h);
    if !ok { return; }
    l := Aux(sc, LineK(p2, p3, false), [], visible, 0.0, h);
  }

  /** The first figures of `angled_line`: the circle of radius a about
      p2 (at anchor - 2), the Line p1-p2 and the point on both, updated
      once more by `anchor.update()`. */
  method AngledAnchor(sc: Scene, p1: nat, p2: nat, a: real, h: Host) returns (anchor: nat, ok: bool)
    requires sc.Valid() && HostOk(h) && p1 < |sc.nodes| && sc.nodes[p1].kind.PointK?
    requires p2 < |sc.nodes| && sc.nodes[p2].kind.PointK?
    modifies sc
    ensures sc.Valid()
    ensures ok ==> Grew(old(sc.nodes), sc.nodes, 3) && anchor == old(|sc.nodes|) + 2
    ensures ok ==> sc.nodes[anchor].kind.PointK? && sc.nodes[anchor - 2].kind == CircleK(p2)
  {
    var circle0 := Aux(sc, CircleK(p2), [], false, a, h);
    var line0 := Aux(sc, LineK(p1, p2, false), [], false, 0.0, h);
    anchor, ok := AuxPoint(sc, Zero, [circle0, line0], h);
    if !ok { return; }
    ok := Refresh(sc, anchor, h);
  }

  /** `figure.update()` on a figure of the scene: the figures stay as
      they are (the states change as Engine.Scene.UpdateFigure states). */
  method Refresh(sc: Scene, i: nat, h: Host) returns (ok: bool)
    requires sc.Valid() && HostOk(h) && i < |sc.nodes|
    modifies sc
    ensures sc.Valid() && sc.nodes == old(sc.nodes)
  {
    ok := sc.UpdateFigure(i, 0.0, 0.0, h);
  }
}
