// The two cascades of app/static/js/geometry-classes.js as functions of
// the arena's state: `Figure.hide`, which spreads a change of `hidden` to
// the dependents, and `update` (with `Point.update`'s resolution of a
// point against its dependencies), which recomputes a figure and then its
// dependents. The class in engine.dfy runs them step by step and is proved
// to produce what these functions say.
module Cascade {
  import opened Wrappers
  import opened Geometry
  import opened Intersection
  import opened Angles
  import opened Figures
  import opened Drag

  // ---------------------------------------------------------------------
  // hide

  /** The loop of `hide(false)`: is some dependency hidden? */
  predicate AnyDepHidden(g: seq<Node>, s: seq<State>, i: nat)
    requires Fits(g, s) && i < |g|
  {
    exists k :: 0 <= k < |DepsOf(g, i)| && s[DepsOf(g, i)[k]].hidden
  }

  /** The value `hide(hidden)` gives the figure's own flag. */
  predicate NewHidden(g: seq<Node>, s: seq<State>, i: nat, hidden: bool)
    requires Fits(g, s) && i < |g|
  {
    if hidden then true else AnyDepHidden(g, s, i)
  }

  /** `hide(v)`, with None for `hide(null)`: sets the figure's flag and,
      only if the flag changed, passes the figure's new flag to each
      dependent in turn. It changes nothing but flags, and nothing before
      figure i. */
  function Hide(g: seq<Node>, s: seq<State>, i: nat, v: Option<bool>): (r: seq<State>)
    requires Fits(g, s) && i < |g|
    ensures |r| == |s|
    ensures forall j :: 0 <= j < i ==> r[j] == s[j]
    ensures forall j :: 0 <= j < |s| ==> r[j] == s[j].(hidden := r[j].hidden)
    ensures v.None? ==> r == s
    ensures v.Some? ==> r[i].hidden == NewHidden(g, s, i, v.value)
    ensures v.Some? && s[i].hidden == NewHidden(g, s, i, v.value) ==> r == s
    decreases |g| - i, 1, 0
  {
    match v
    case None => s
    case Some(b) =>
      var flag := NewHidden(g, s, i, b);
      var s1 := s[i := s[i].(hidden := flag)];
      if s[i].hidden != flag then HideLoop(g, s1, i, 0) else s1
  }

  /** The loop `for (let dep of this.dependents) dep.hide(this.hidden)`
      from position k on. */
  function HideLoop(g: seq<Node>, s: seq<State>, i: nat, k: nat): (r: seq<State>)
    requires Fits(g, s) && i < |g|
    ensures |r| == |s|
    ensures forall j :: 0 <= j <= i ==> r[j] == s[j]
    ensures forall j :: 0 <= j < |s| ==> r[j] == s[j].(hidden := r[j].hidden)
    decreases |g| - i, 0, |Kids(g, i)| - k
  {
    if k >= |Kids(g, i)| then s
    else HideLoop(g, Hide(g, s, Kids(g, i)[k], Some(s[i].hidden)), i, k + 1)
  }

  // ---------------------------------------------------------------------
  // The candidate points of a point with two or more dependencies

  /** `allIntersections` with `first_iter`: Fault where an intersection
      is NaN, Start before the first non-empty intersection, then the
      candidates that survived so far. */
  datatype Cands = Fault | Start | Have(pts: seq<Vec>)

  /** Some point of xs lies within distance 1 (`min_dist < dist_th`). */
  predicate Near(q: Vec, xs: seq<Vec>, h: Host)
  {
    exists k :: 0 <= k < |xs| && Dist(q, xs[k], h) < 1.0
  }

  /** The candidates, in order, that lie near some point of xs. */
  function Filter(c: seq<Vec>, xs: seq<Vec>, h: Host): (r: seq<Vec>)
    ensures |r| <= |c|
    ensures forall q :: q in r ==> q in c && Near(q, xs, h)
    ensures forall q :: q in c && Near(q, xs, h) ==> q in r
  {
    if |c| == 0 then []
    else
      var last := c[|c| - 1];
      Filter(c[..|c| - 1], xs, h) + (if Near(last, xs, h) then [last] else [])
  }

  /** One pair of dependencies: an empty intersection is skipped, the
      first non-empty one sets the candidates, every later one filters
      them. */
  function Step(acc: Cands, inters: Option<seq<Vec>>, h: Host): (r: Cands)
    ensures inters.None? ==> r.Fault?
    ensures inters == Some([]) ==> r == acc
    ensures inters.Some? && inters.value != [] && acc.Start? ==> r == Have(inters.value)
    ensures inters.Some? && acc.Have? ==> r.Have? && forall q :: q in r.pts ==> q in acc.pts
  {
    match inters
    case None => Fault
    case Some(xs) =>
      if |xs| == 0 then acc
      else match acc
        case Fault => Fault
        case Start => Have(xs)
        case Have(c) => Have(Filter(c, xs, h))
  }

  /** The intersection of the a-th and b-th dependencies of figure i. */
  function PairInters(g: seq<Node>, s: seq<State>, i: nat, a: nat, b: nat, h: Host): Option<seq<Vec>>
    requires Fits(g, s) && i < |g| && a < |DepsOf(g, i)| && b < |DepsOf(g, i)|
  {
    assert NodeOk(g, i);
    Intersect(GeomOf(g, s, DepsOf(g, i)[a], h), GeomOf(g, s, DepsOf(g, i)[b], h), h)
  }

  /** The double loop over the pairs (a, b), a < b, from (a, b) on.
      Candidates only ever shrink, and a fault is final. */
  function FoldPairs(g: seq<Node>, s: seq<State>, i: nat, a: nat, b: nat, acc: Cands, h: Host): (r: Cands)
    requires Fits(g, s) && i < |g|
    ensures acc.Fault? ==> r.Fault?
    ensures r.Start? ==> acc.Start?
    ensures acc.Have? && r.Have? ==> forall q :: q in r.pts ==> q in acc.pts
    decreases |DepsOf(g, i)| - a, |DepsOf(g, i)| - b
  {
    var n := |DepsOf(g, i)|;
    if a >= n then acc
    else if b >= n then FoldPairs(g, s, i, a + 1, a + 2, acc, h)
    else FoldPairs(g, s, i, a, b + 1, Step(acc, PairInters(g, s, i, a, b, h), h), h)
  }

  function Candidates(g: seq<Node>, s: seq<State>, i: nat, h: Host): Cands
    requires Fits(g, s) && i < |g|
  {
    FoldPairs(g, s, i, 0, 1, Start, h)
  }

  /** The index `sort` by distance to pos brings to the front: the first
      of the nearest candidates (the sort is stable). */
  function ArgNearest(c: seq<Vec>, pos: Vec, h: Host): (k: nat)
    requires |c| > 0
    ensures k < |c|
    ensures forall j :: 0 <= j < |c| ==> Dist(c[k], pos, h) <= Dist(c[j], pos, h)
    ensures forall j :: 0 <= j < k ==> Dist(c[k], pos, h) < Dist(c[j], pos, h)
  {
    if |c| == 1 then 0
    else
      var k := ArgNearest(c[..|c| - 1], pos, h);
      assert forall j :: 0 <= j < |c| - 1 ==> c[..|c| - 1][j] == c[j];
      if Dist(c[|c| - 1], pos, h) < Dist(c[k], pos, h) then |c| - 1 else k
  }

  // ---------------------------------------------------------------------
  // update

  /** Where `Point.update` puts the point, and the `hide` call it makes
      (None: no call); Stuck where the JavaScript throws or computes NaN. */
  datatype Resolution = Stuck | To(pos: Vec, hide: Option<bool>)

  /** Steps 2 of `Point.update` for the shifted position. */
  function Resolve(g: seq<Node>, s: seq<State>, i: nat, shifted: Vec, h: Host): (r: Resolution)
    requires HostOk(h) && Fits(g, s) && i < |g| && g[i].kind.PointK?
    ensures |DepsOf(g, i)| == 0 ==> r == To(shifted, None)
    ensures |DepsOf(g, i)| == 1 ==>
      (r.Stuck? <==> ClosestValid(g, s, DepsOf(g, i)[0], shifted, h).None?) &&
      (r.To? ==> r == To(ClosestValid(g, s, DepsOf(g, i)[0], shifted, h).value, None))
  {
    assert NodeOk(g, i);
    var deps := DepsOf(g, i);
    if |deps| == 0 then To(shifted, None)
    else if |deps| == 1 then
      match ClosestValid(g, s, deps[0], shifted, h)
      case None => Stuck
      case Some(q) => To(q, None)
    else
      match Candidates(g, s, i, h)
      case Fault => Stuck
      case Start => Unresolved(g, s, i, shifted)
      case Have(c) =>
        if |c| > 0 then To(c[ArgNearest(c, shifted, h)], if s[i].hidden then Some(false) else None)
        else Unresolved(g, s, i, shifted)
  }

  /** No candidate: a visible point snaps back to where it was built and
      hides; a hidden one stays where the shift took it. */
  function Unresolved(g: seq<Node>, s: seq<State>, i: nat, shifted: Vec): Resolution
    requires Fits(g, s) && i < |g| && g[i].kind.PointK?
  {
    if !s[i].hidden then To(g[i].kind.init, Some(true)) else To(shifted, None)
  }

  /** The result of a cascade: the state, and false where the JavaScript
      throws (or computes NaN) part-way; the state is then the one reached
      at that moment. */
  datatype Outcome = Outcome(st: seq<State>, ok: bool)

  /** `update(dx, dy)` of figure i (the delta matters to points only),
      then of its dependents. Nothing before figure i changes. */
  function Update(g: seq<Node>, s: seq<State>, i: nat, dx: real, dy: real, h: Host): (r: Outcome)
    requires HostOk(h) && Fits(g, s) && i < |g|
    ensures |r.st| == |s|
    ensures forall j :: 0 <= j < i ==> r.st[j] == s[j]
    decreases |g| - i, 1, 2
  {
    if g[i].kind.PointK? then PointUpdate(g, s, i, dx, dy, h)
    else PlainLoop(g, s[i := Own(g, s, i, h)], i, 0, h)
  }

  /** `Point.update(dx, dy)`: the shift and the resolution; a resolution
      that fails stops the cascade with the point at its shifted
      position. */
  function PointUpdate(g: seq<Node>, s: seq<State>, i: nat, dx: real, dy: real, h: Host): (r: Outcome)
    requires HostOk(h) && Fits(g, s) && i < |g| && g[i].kind.PointK?
    ensures |r.st| == |s|
    ensures forall j :: 0 <= j < i ==> r.st[j] == s[j]
    decreases |g| - i, 1, 1
  {
    var prev := s[i].pos;
    var shifted := Add(prev, Vec(dx, dy));
    var s0 := s[i := s[i].(pos := shifted)];
    // The shift moves only this point, which none of its dependencies
    // reads: the resolution sees the same figures in s as in s0.
    var res := Resolve(g, s, i, shifted, h);
    if res.Stuck? then Outcome(s0, false)
    else Settle(g, s0, i, res.hide, res.pos, prev, h)
  }

  /** The rest of `Point.update` once the resolution gave q (and perhaps a
      flag): the point is hidden or shown and placed at q, the delta from
      its position before the shift (prev) is passed to the dependent
      points, then `update_dependents`. */
  function Settle(g: seq<Node>, s: seq<State>, i: nat, flag: Option<bool>, q: Vec, prev: Vec, h: Host): (r: Outcome)
    requires HostOk(h) && Fits(g, s) && i < |g|
    ensures |r.st| == |s|
    ensures forall j :: 0 <= j < i ==> r.st[j] == s[j]
    decreases |g| - i, 1, 0
  {
    var s1 := Hide(g, s, i, flag);
    var s2 := s1[i := s1[i].(pos := q)];
    var r1 := DeltaLoop(g, s2, i, 0, q.x - prev.x, q.y - prev.y, h);
    if r1.ok then PlainLoop(g, r1.st, i, 0, h) else r1
  }

  /** What the `update()` of a figure other than a point recomputes of the
      figure itself: a CircleByCenterEdge's and an Arc's radius from their
      points, an Angle's value and colour; the others keep their state. */
  function Own(g: seq<Node>, s: seq<State>, i: nat, h: Host): (r: State)
    requires HostOk(h) && Fits(g, s) && i < |g|
    ensures r.hidden == s[i].hidden && r.pos == s[i].pos
    ensures g[i].kind.AngleK? ==> 0.0 <= r.value <= 180.0
    ensures g[i].kind.AngleK? && g[i].kind.validRange.Some? ==> r.colour == Classify(r.value, g[i].kind.validRange.value)
    ensures g[i].kind.CircleByCenterEdgeK? || g[i].kind.ArcK? ==> 0.0 <= r.radius
  {
    assert NodeOk(g, i);
    match g[i].kind
    case CircleByCenterEdgeK(c, e) =>
      LenFacts(Sub(s[e].pos, s[c].pos), h);
      s[i].(radius := Len(Sub(s[e].pos, s[c].pos), h))
    case ArcK(c, p, _, _) =>
      LenFacts(Sub(s[p].pos, s[c].pos), h);
      s[i].(radius := Len(Sub(s[p].pos, s[c].pos), h))
    case AngleK(p1, p2, p3, range) =>
      var v := AngleValue(s[p1].pos, s[p2].pos, s[p3].pos, h);
      s[i].(value := v, colour := AngleColour(v, range, s[i].colour))
    case _ => s[i]
  }

  /** `dep.update(dx, dy)` for the dependents that are points, from
      position k on. */
  function DeltaLoop(g: seq<Node>, s: seq<State>, i: nat, k: nat, dx: real, dy: real, h: Host): (r: Outcome)
    requires HostOk(h) && Fits(g, s) && i < |g|
    ensures |r.st| == |s|
    ensures forall j :: 0 <= j <= i ==> r.st[j] == s[j]
    decreases |g| - i, 0, |Kids(g, i)| - k
  {
    if k >= |Kids(g, i)| then Outcome(s, true)
    else
      var d := Kids(g, i)[k];
      if g[d].kind.PointK? then
        var r := Update(g, s, d, dx, dy, h);
        if r.ok then DeltaLoop(g, r.st, i, k + 1, dx, dy, h) else r
      else DeltaLoop(g, s, i, k + 1, dx, dy, h)
  }

  /** `update_dependents`: `dep.update()` for every dependent, from
      position k on. */
  function PlainLoop(g: seq<Node>, s: seq<State>, i: nat, k: nat, h: Host): (r: Outcome)
    requires HostOk(h) && Fits(g, s) && i < |g|
    ensures |r.st| == |s|
    ensures forall j :: 0 <= j <= i ==> r.st[j] == s[j]
    decreases |g| - i, 0, |Kids(g, i)| - k
  {
    if k >= |Kids(g, i)| then Outcome(s, true)
    else
      var r := Update(g, s, Kids(g, i)[k], 0.0, 0.0, h);
      if r.ok then PlainLoop(g, r.st, i, k + 1, h) else r
  }

  // ---------------------------------------------------------------------
  // move

  /** Adds v to the position of point p. */
  function Shift(s: seq<State>, p: nat, v: Vec): (r: seq<State>)
    requires p < |s|
  {
    s[p := s[p].(pos := Add(s[p].pos, v))]
  }

  /** `move(arg)` of figure i. A Point drags toward the target arg, by a
      step of at most `Figure.MAXSTEP` (None: never set, which makes every
      step NaN), and only when moveable and drawn; a Circle puts its centre
      at arg; an Arc and an ArcThrough3Points shift their points by arg;
      the other figures ignore the call. */
  function Move(g: seq<Node>, s: seq<State>, i: nat, arg: Vec, maxStep: Option<real>, h: Host): (r: Outcome)
    requires HostOk(h) && Fits(g, s) && i < |g|
    ensures |r.st| == |s|
  {
    assert NodeOk(g, i);
    if !g[i].moveable then Outcome(s, true)
    else match g[i].kind
      case PointK(_) =>
        if !g[i].visible then Outcome(s, true)
        else if maxStep.None? && Dist(s[i].pos, arg, h) > 0.0 then Outcome(s, false)
        else
          var d := DragDelta(s[i].pos, arg, if maxStep.Some? then maxStep.value else 0.0, h);
          Update(g, s, i, d.x, d.y, h)
      case CircleK(c) => Update(g, s[c := s[c].(pos := arg)], i, 0.0, 0.0, h)
      case ArcK(c, p, _, _) => Update(g, Shift(Shift(s, c, arg), p, arg), i, 0.0, 0.0, h)
      case Arc3K(p1, p2, p3) => Update(g, Shift(Shift(Shift(s, p1, arg), p2, arg), p3, arg), i, 0.0, 0.0, h)
      case _ => Outcome(s, true)
  }
}
