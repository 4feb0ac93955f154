// The figures of app/static/js/geometry-classes.js as the objects the
// JavaScript keeps: `Figure.allFigures` with the links and the mutable fields
// of each figure, the `_id_counter` of each class and the static
// `Figure.MAXSTEP`. Every method does what the JavaScript's method does, step
// by step, and is proved to end in the state the functions of Cascade
// and Registry describe.
module Engine {
  import opened Wrappers
  import opened Geometry
  import opened Intersection
  import opened Angles
  import opened Figures
  import opened Cascade
  import opened Registry
  import opened Drag

  /** A figure's `id`: its class's name followed by a number. */
  datatype Id = Id(tag: Tag, serial: nat)

  const AllTags: set<Tag> := {PointT, CircleT, CircleByCenterEdgeT, LineT, ArcT, Arc3T, AngleT}

  /** The counters after `clearCanvas` in app/static/js/app.js: every one
      back to 0 but CircleByCenterEdge's, which that function forgets. */
  function ClearedCounters(c: map<Tag, nat>): (r: map<Tag, nat>)
    requires c.Keys == AllTags
    ensures r.Keys == AllTags
    ensures r[CircleByCenterEdgeT] == c[CircleByCenterEdgeT]
    ensures forall t :: t in r && t != CircleByCenterEdgeT ==> r[t] == 0
  {
    map t | t in AllTags :: if t == CircleByCenterEdgeT then c[t] else 0
  }

  /** `_id_counter++` of the class t. */
  function Bump(c: map<Tag, nat>, t: Tag): (r: map<Tag, nat>)
    requires t in c
    ensures r.Keys == c.Keys && r[t] == c[t] + 1
    ensures forall u :: u in c && u != t ==> r[u] == c[u]
  {
    c[t := c[t] + 1]
  }

  class Scene {
    /** `Figure.allFigures`: the links and flags of each figure ... */
    var nodes: seq<Node>
    /** ... and the fields the cascades change. */
    var states: seq<State>
    /** The `id` of each figure. */
    var ids: seq<Id>
    /** `_id_counter` of each class; a Segment takes Line's. */
    var counters: map<Tag, nat>
    /** `Figure.MAXSTEP`; None until the drawer sets it. */
    var maxStep: Option<real>

    /** The arena is well formed and the figures' ids are fresh. */
    ghost predicate Valid()
      reads this
    {
      Fits(nodes, states) && |ids| == |nodes| && Numbered(ids, counters)
    }

    /** The state when the module is loaded: no figure, every counter at
        0, `Figure.MAXSTEP` never set. */
    constructor ()
      ensures Valid() && nodes == [] && ids == [] && maxStep.None?
      ensures forall t :: t in counters ==> counters[t] == 0
    {
      nodes := [];
      states := [];
      ids := [];
      counters := map t | t in AllTags :: 0;
      maxStep := None;
    }

    // -------------------------------------------------------------------
    // hide

    /** The loop of `hide(false)` over the dependencies, which stops at
        the first hidden one. */
    method AnyDependencyHidden(i: nat) returns (b: bool)
      requires Fits(nodes, states) && i < |nodes|
      ensures b == AnyDepHidden(nodes, states, i)
    {
      var deps := DepsOf(nodes, i);
      b := false;
      var k := 0;
      while k < |deps|
        invariant 0 <= k <= |deps|
        invariant forall j :: 0 <= j < k ==> !states[deps[j]].hidden
      {
        if states[deps[k]].hidden {
          b := true;
          break;
        }
        k := k + 1;
      }
    }

    /** `hide(v)`, v None for `hide(null)`. */
    method HideFigure(i: nat, v: Option<bool>)
      requires Fits(nodes, states) && i < |nodes|
      modifies this`states
      ensures states == Hide(nodes, old(states), i, v)
      decreases |nodes| - i, 1
    {
      if v.None? {
        return;
      }
      var flag := true;
      if !v.value {
        flag := AnyDependencyHidden(i);
      }
      var changed := states[i].hidden != flag;
      states := states[i := states[i].(hidden := flag)];
      if changed {
        var kids := Kids(nodes, i);
        ghost var s1 := states;
        var k := 0;
        while k < |kids|
          invariant 0 <= k <= |kids| && |states| == |nodes|
          invariant HideLoop(nodes, states, i, k) == HideLoop(nodes, s1, i, 0)
        {
          HideFigure(kids[k], Some(states[i].hidden));
          k := k + 1;
        }
      }
    }

    // -------------------------------------------------------------------
    // Point.update

    /** The inner loop of `Point.update` over `inters`: is some point of
        xs within `dist_th` of q? min_dist None stands for Infinity. */
    method NearAny(q: Vec, xs: seq<Vec>, h: Host) returns (near: bool)
      ensures near == Near(q, xs, h)
    {
      var minDist: Option<real> := None;
      var j := 0;
      while j < |xs|
        invariant 0 <= j <= |xs|
        invariant (minDist.Some? && minDist.value < 1.0) <==> exists m :: 0 <= m < j && Dist(q, xs[m], h) < 1.0
      {
        var d := Dist(q, xs[j], h);
        minDist := Some(if minDist.None? then d else Min(minDist.value, d));
        j := j + 1;
      }
      near := minDist.Some? && minDist.value < 1.0;
    }

    /** The `tmp` loop of `Point.update`: the candidates that lie near the
        new intersection, in order. */
    method FilterNear(c: seq<Vec>, xs: seq<Vec>, h: Host) returns (r: seq<Vec>)
      ensures r == Filter(c, xs, h)
    {
      r := [];
      var k := 0;
      while k < |c|
        invariant 0 <= k <= |c|
        invariant r == Filter(c[..k], xs, h)
      {
        var near := NearAny(c[k], xs, h);
        if near {
          r := r + [c[k]];
        }
        assert c[..k + 1][..k] == c[..k];
        k := k + 1;
      }
      assert c[..|c|] == c;
    }

    /** The double loop of `Point.update` over the pairs of dependencies;
        `first_iter` is `c.Start?`. */
    method AllIntersections(i: nat, h: Host) returns (c: Cands)
      requires HostOk(h) && Fits(nodes, states) && i < |nodes|
      ensures c == Candidates(nodes, states, i, h)
    {
      var n := |DepsOf(nodes, i)|;
      c := Start;
      var a := 0;
      while a < n
        invariant FoldPairs(nodes, states, i, a, a + 1, c, h) == Candidates(nodes, states, i, h)
      {
        c := WithLaterDependencies(i, a, c, h);
        a := a + 1;
      }
    }

    /** The inner loop of that double loop, for the a-th dependency: its
        intersections with each later dependency, in turn; the first that
        is NaN ends the search. */
    method WithLaterDependencies(i: nat, a: nat, c0: Cands, h: Host) returns (c: Cands)
      requires HostOk(h) && Fits(nodes, states) && i < |nodes| && a < |DepsOf(nodes, i)|
      ensures FoldPairs(nodes, states, i, a + 1, a + 2, c, h) == FoldPairs(nodes, states, i, a, a + 1, c0, h)
    {
      var n := |DepsOf(nodes, i)|;
      c := c0;
      var b := a + 1;
      while b < n
        invariant a + 1 <= b <= n
        invariant FoldPairs(nodes, states, i, a, b, c, h) == FoldPairs(nodes, states, i, a, a + 1, c0, h)
      {
        var inters := PairInters(nodes, states, i, a, b, h);
        if inters.None? {
          return Fault;
        }
        if |inters.value| > 0 {
          if c.Start? {
            c := Have(inters.value);
          } else if c.Have? {
            var kept := FilterNear(c.pts, inters.value, h);
            c := Have(kept);
          }
        }
        b := b + 1;
      }
    }

    /** `inters.sort(...)` by distance to pos, then `inters[0]`: the first
        of the nearest points (the sort is stable). */
    method Nearest(c: seq<Vec>, pos: Vec, h: Host) returns (k: nat)
      requires |c| > 0
      ensures k == ArgNearest(c, pos, h)
    {
      k := 0;
      var j := 1;
      while j < |c|
        invariant 1 <= j <= |c| && k < j
        invariant forall m :: 0 <= m < j ==> Dist(c[k], pos, h) <= Dist(c[m], pos, h)
        invariant forall m :: 0 <= m < k ==> Dist(c[k], pos, h) < Dist(c[m], pos, h)
      {
        if Dist(c[j], pos, h) < Dist(c[k], pos, h) {
          k := j;
        }
        j := j + 1;
      }
    }

    /** Step 2 of `Point.update`: where the shifted point goes, and the
        `hide` call it makes. */
    method ResolvePoint(i: nat, shifted: Vec, h: Host) returns (r: Resolution)
      requires HostOk(h) && Fits(nodes, states) && i < |nodes| && nodes[i].kind.PointK?
      ensures r == Resolve(nodes, states, i, shifted, h)
    {
      var deps := DepsOf(nodes, i);
      if |deps| == 0 {
        return To(shifted, None);
      }
      if |deps| == 1 {
        var q := ClosestValid(nodes, states, deps[0], shifted, h);
        if q.None? {
          return Stuck;
        }
        return To(q.value, None);
      }
      var c := AllIntersections(i, h);
      if c.Fault? {
        return Stuck;
      }
      if c.Have? && |c.pts| > 0 {
        var k := Nearest(c.pts, shifted, h);
        return To(c.pts[k], if states[i].hidden then Some(false) else None);
      }
      if !states[i].hidden {
        return To(nodes[i].kind.init, Some(true));
      }
      return To(shifted, None);
    }

    /** `update(dx, dy)` of figure i: for a point, the shift, the
        resolution, the delta passed to the dependent points and
        `update_dependents`; for the other figures their own recompute
        and `update_dependents`. ok is false where the JavaScript throws. */
    method UpdateFigure(i: nat, dx: real, dy: real, h: Host) returns (ok: bool)
      requires HostOk(h) && Fits(nodes, states) && i < |nodes|
      modifies this`states
      ensures Outcome(states, ok) == Update(nodes, old(states), i, dx, dy, h)
      decreases |nodes| - i, 4
    {
      if nodes[i].kind.PointK? {
        ok := UpdatePoint(i, dx, dy, h);
      } else {
        states := states[i := Own(nodes, states, i, h)];
        ok := UpdateDependents(i, h);
      }
    }

    /** `Point.update(dx, dy)`: the shift and the resolution, then the
        rest in SettlePoint. */
    method UpdatePoint(i: nat, dx: real, dy: real, h: Host) returns (ok: bool)
      requires HostOk(h) && Fits(nodes, states) && i < |nodes| && nodes[i].kind.PointK?
      modifies this`states
      ensures Outcome(states, ok) == PointUpdate(nodes, old(states), i, dx, dy, h)
      decreases |nodes| - i, 3
    {
      var prev := states[i].pos;
      var shifted := Add(prev, Vec(dx, dy));
      // The resolution reads only the dependencies, which the shift
      // leaves alone, so it is computed before the shift is stored.
      var res := ResolvePoint(i, shifted, h);
      states := states[i := states[i].(pos := shifted)];
      if res.Stuck? {
        return false;
      }
      ok := SettlePoint(i, res.hide, res.pos, prev, h);
    }

    /** The point hidden or shown and placed at q, the delta from prev
        passed to the dependent points, then `update_dependents`. */
    method SettlePoint(i: nat, flag: Option<bool>, q: Vec, prev: Vec, h: Host) returns (ok: bool)
      requires HostOk(h) && Fits(nodes, states) && i < |nodes|
      modifies this`states
      ensures Outcome(states, ok) == Settle(nodes, old(states), i, flag, q, prev, h)
      decreases |nodes| - i, 2
    {
      HideFigure(i, flag);
      states := states[i := states[i].(pos := q)];
      ok := PassDelta(i, q.x - prev.x, q.y - prev.y, h);
      if ok {
        ok := UpdateDependents(i, h);
      }
    }

    /** Step 5 of `Point.update`: `dep.update(dx, dy)` for each dependent
        that is a point. */
    method PassDelta(i: nat, dx: real, dy: real, h: Host) returns (ok: bool)
      requires HostOk(h) && Fits(nodes, states) && i < |nodes|
      modifies this`states
      ensures Outcome(states, ok) == DeltaLoop(nodes, old(states), i, 0, dx, dy, h)
      decreases |nodes| - i, 1
    {
      var kids := Kids(nodes, i);
      ghost var s0 := states;
      var k := 0;
      while k < |kids|
        invariant 0 <= k <= |kids| && |states| == |nodes|
        invariant DeltaLoop(nodes, states, i, k, dx, dy, h) == DeltaLoop(nodes, s0, i, 0, dx, dy, h)
      {
        if nodes[kids[k]].kind.PointK? {
          var r := UpdateFigure(kids[k], dx, dy, h);
          if !r {
            return false;
          }
        }
        k := k + 1;
      }
      return true;
    }

    /** `update_dependents`: `dep.update()` for each dependent. */
    method UpdateDependents(i: nat, h: Host) returns (ok: bool)
      requires HostOk(h) && Fits(nodes, states) && i < |nodes|
      modifies this`states
      ensures Outcome(states, ok) == PlainLoop(nodes, old(states), i, 0, h)
      decreases |nodes| - i, 1
    {
      var kids := Kids(nodes, i);
      ghost var s0 := states;
      var k := 0;
      while k < |kids|
        invariant 0 <= k <= |kids| && |states| == |nodes|
        invariant PlainLoop(nodes, states, i, k, h) == PlainLoop(nodes, s0, i, 0, h)
      {
        var r := UpdateFigure(kids[k], 0.0, 0.0, h);
        if !r {
          return false;
        }
        k := k + 1;
      }
      return true;
    }

    // -------------------------------------------------------------------
    // move

    /** `move(arg)` of figure i, as each class defines it. */
    method MoveFigure(i: nat, arg: Vec, h: Host) returns (ok: bool)
      requires HostOk(h) && Fits(nodes, states) && i < |nodes|
      modifies this`states
      ensures Outcome(states, ok) == Move(nodes, old(states), i, arg, maxStep, h)
    {
      assert NodeOk(nodes, i);
      if !nodes[i].moveable {
        return true;
      }
      match nodes[i].kind
      case PointK(_) =>
        if !nodes[i].visible {
          return true;
        }
        if maxStep.None? && Dist(states[i].pos, arg, h) > 0.0 {
          return false;
        }
        var d := DragDelta(states[i].pos, arg, if maxStep.Some? then maxStep.value else 0.0, h);
        ok := UpdateFigure(i, d.x, d.y, h);
      case CircleK(c) =>
        states := states[c := states[c].(pos := arg)];
        ok := UpdateFigure(i, 0.0, 0.0, h);
      case ArcK(c, p, _, _) =>
        states := Shift(states, c, arg);
        states := Shift(states, p, arg);
        ok := UpdateFigure(i, 0.0, 0.0, h);
      case Arc3K(p1, p2, p3) =>
        states := Shift(states, p1, arg);
        states := Shift(states, p2, arg);
        states := Shift(states, p3, arg);
        ok := UpdateFigure(i, 0.0, 0.0, h);
      case _ =>
        return true;
    }

    // -------------------------------------------------------------------
    // constructors

    /** `Figure`'s constructor: append the figure, push it onto the
        `dependents` of each dependency while noting whether one is
        hidden, then `hide(any_dep_hidden)`. */
    method Enrol(kind: Kind, extra: seq<nat>, visible: bool, moveable: bool, st: State) returns (n: nat)
      requires Fits(nodes, states) && Admissible(nodes, kind, extra)
      modifies this`nodes, this`states
      ensures n == old(|nodes|)
      ensures (nodes, states) == Register(old(nodes), old(states), kind, extra, visible, moveable, st)
    {
      n := |nodes|;
      RegisterKeepsWellFormed(nodes, kind, extra, visible, moveable);
      nodes := nodes + [NewNode(kind, extra, visible, moveable)];
      states := states + [st.(hidden := false)];
      var any := LinkDependencies(n, Refs(kind) + extra);
      HideFigure(n, Some(any));
    }

    /** The loop of `Figure`'s constructor for the new figure n:
        `dep.dependents.push(this)` for each dependency, and
        `any_dep_hidden` collected on the way. */
    method LinkDependencies(n: nat, ds: seq<nat>) returns (any: bool)
      requires |states| == |nodes| && forall k :: 0 <= k < |ds| ==> ds[k] < n < |nodes|
      modifies this`nodes
      ensures nodes == PushAll(old(nodes), ds, n)
      ensures any == exists k :: 0 <= k < |ds| && states[ds[k]].hidden
    {
      ghost var g1 := nodes;
      var st := states;
      any := false;
      var k := 0;
      while k < |ds|
        invariant 0 <= k <= |ds| && |nodes| == |g1| && st == states
        invariant PushAll(nodes, ds[k..], n) == PushAll(g1, ds, n)
        invariant any <==> exists j :: 0 <= j < k && st[ds[j]].hidden
      {
        PushAllStep(nodes, ds, k, n);
        nodes := PushDependent(nodes, ds[k], n);
        any := any || st[ds[k]].hidden;
        k := k + 1;
      }
    }

    /** `new Point({...})`: the point takes the number its class's
        counter shows, which then goes up. */
    method AddPoint(init: Vec, extra: seq<nat>, colour: Option<string>, visible: bool, moveable: bool, h: Host) returns (n: nat, ok: bool)
      requires Valid() && HostOk(h) && Admissible(nodes, PointK(init), extra)
      modifies this
      ensures Valid() && n == old(|nodes|)
      ensures (nodes, Outcome(states, ok)) ==
        ConstructPoint(old(nodes), old(states), init, extra, DefaultColour(colour, moveable), visible, moveable, h)
      ensures ids == old(ids) + [Id(PointT, old(counters[PointT]))]
      ensures counters == Bump(old(counters), PointT) && maxStep == old(maxStep)
    {
      ghost var step := maxStep;
      n, ok := BuildPoint(init, extra, DefaultColour(colour, moveable), visible, moveable, h);
      assert maxStep == step;
      TakeId(PointT);
      assert maxStep == step;
    }

    /** The body of `Point`'s constructor: `Figure`'s constructor, then
        the first `update()`, which resolves the point; ok is false where
        that throws. */
    method BuildPoint(init: Vec, extra: seq<nat>, colour: string, visible: bool, moveable: bool, h: Host) returns (n: nat, ok: bool)
      requires HostOk(h) && Fits(nodes, states) && Admissible(nodes, PointK(init), extra)
      modifies this`nodes, this`states
      ensures n == old(|nodes|)
      ensures (nodes, Outcome(states, ok)) == ConstructPoint(old(nodes), old(states), init, extra, colour, visible, moveable, h)
    {
      n := Enrol(PointK(init), extra, visible, moveable, InitState(PointK(init), colour, 0.0));
      ok := UpdateFigure(n, 0.0, 0.0, h);
    }

    /** The id a constructor gives its figure, `${Class}${_id_counter}`,
        and the `_id_counter++` that follows. */
    method TakeId(t: Tag)
      requires Numbered(ids, counters)
      modifies this`ids, this`counters
      ensures Numbered(ids, counters)
      ensures ids == old(ids) + [Id(t, old(counters[t]))] && counters == Bump(old(counters), t)
    {
      assert t in AllTags;
      NewIdIsFresh(ids, counters, t);
      ids := ids + [Id(t, counters[t])];
      counters := Bump(counters, t);
    }

    /** `new Circle`, `new CircleByCenterEdge`, `new Line`, `new Segment`,
        `new Arc` or `new ArcThrough3Points`, numbered by its class's
        counter (Line's for a Segment). */
    method AddFigure(kind: Kind, extra: seq<nat>, colour: Option<string>, visible: bool, moveable: bool, radius: real, h: Host) returns (n: nat)
      requires Valid() && HostOk(h) && Admissible(nodes, kind, extra) && !kind.PointK? && !kind.AngleK?
      modifies this
      ensures Valid() && n == old(|nodes|)
      ensures (nodes, states) ==
        ConstructFigure(old(nodes), old(states), kind, extra, DefaultColour(colour, moveable), visible, moveable, radius, h)
      ensures ids == old(ids) + [Id(TagOf(kind), old(counters[TagOf(kind)]))]
      ensures counters == Bump(old(counters), TagOf(kind)) && maxStep == old(maxStep)
    {
      ghost var step := maxStep;
      n := BuildFigure(kind, extra, DefaultColour(colour, moveable), visible, moveable, radius, h);
      assert maxStep == step;
      TakeId(TagOf(kind));
      assert maxStep == step;
    }

    /** The body of those constructors: `Figure`'s constructor, then the
        subclass's `update()`; a Segment runs it twice, once in `Line`'s
        constructor and once in its own. */
    method BuildFigure(kind: Kind, extra: seq<nat>, colour: string, visible: bool, moveable: bool, radius: real, h: Host) returns (n: nat)
      requires HostOk(h) && Fits(nodes, states) && Admissible(nodes, kind, extra) && !kind.PointK? && !kind.AngleK?
      modifies this`nodes, this`states
      ensures n == old(|nodes|)
      ensures (nodes, states) == ConstructFigure(old(nodes), old(states), kind, extra, colour, visible, moveable, radius, h)
    {
      n := Enrol(kind, extra, visible, moveable, InitState(kind, colour, radius));
      UpdateWithoutDependents(nodes, states, n, h);
      var ok := UpdateFigure(n, 0.0, 0.0, h);
      if kind.LineK? && kind.segment {
        ghost var s1 := states;
        assert Own(nodes, states, n, h) == states[n];
        assert s1[n := Own(nodes, s1, n, h)] == s1;
        ok := UpdateFigure(n, 0.0, 0.0, h);
      }
    }

    /** `new Angle({p1, p2, p3, ...})`: registration and the second pushes
        onto p1, p2 and p3, the two dashed Segments when `draw_segments`,
        then the `update()` that measures the angle. The angle takes its id
        before the segments take theirs. */
    method AddAngle(p1: nat, p2: nat, p3: nat, range: Option<Range>, extra: seq<nat>, visible: bool, drawSegments: bool, h: Host) returns (n: nat)
      requires Valid() && HostOk(h) && Admissible(nodes, AngleK(p1, p2, p3, range), extra)
      modifies this
      ensures Valid() && n == old(|nodes|)
      ensures (nodes, states) == ConstructAngle(old(nodes), old(states), p1, p2, p3, range, extra, visible, drawSegments, h)
      ensures ids == old(ids) + AngleIds(old(counters), drawSegments)
      ensures counters == AngleCounters(old(counters), drawSegments)
      ensures maxStep == old(maxStep)
    {
      ghost var step := maxStep;
      TakeAngleIds(drawSegments);
      assert maxStep == step;
      n := BuildAngle(p1, p2, p3, range, extra, visible, drawSegments, h);
      assert maxStep == step;
    }

    /** The ids of an angle and, when `draw_segments`, of its two
        Segments, taken in that order. */
    method TakeAngleIds(drawSegments: bool)
      requires Numbered(ids, counters)
      modifies this`ids, this`counters
      ensures Numbered(ids, counters) && |ids| == old(|ids|) + (if drawSegments then 3 else 1)
      ensures ids == old(ids) + AngleIds(old(counters), drawSegments)
      ensures counters == AngleCounters(old(counters), drawSegments)
    {
      AngleIdsAreFresh(ids, counters, drawSegments);
      ids := ids + AngleIds(counters, drawSegments);
      counters := AngleCounters(counters, drawSegments);
    }

    /** The body of `Angle`'s constructor on the arena. */
    method BuildAngle(p1: nat, p2: nat, p3: nat, range: Option<Range>, extra: seq<nat>, visible: bool, drawSegments: bool, h: Host) returns (n: nat)
      requires Fits(nodes, states) && HostOk(h) && Admissible(nodes, AngleK(p1, p2, p3, range), extra)
      modifies this`nodes, this`states
      ensures n == old(|nodes|)
      ensures (nodes, states) == ConstructAngle(old(nodes), old(states), p1, p2, p3, range, extra, visible, drawSegments, h)
    {
      n := ArrangeAngle(p1, p2, p3, range, extra, visible, drawSegments, h);
      Measure(n, h);
    }

    /** `Angle`'s constructor up to its update. */
    method ArrangeAngle(p1: nat, p2: nat, p3: nat, range: Option<Range>, extra: seq<nat>, visible: bool, drawSegments: bool, h: Host) returns (n: nat)
      requires Fits(nodes, states) && HostOk(h) && Admissible(nodes, AngleK(p1, p2, p3, range), extra)
      modifies this`nodes, this`states
      ensures n == old(|nodes|)
      ensures (nodes, states) == AngleArena(old(nodes), old(states), p1, p2, p3, range, extra, visible, drawSegments, h)
    {
      ghost var g, s := nodes, states;
      n := EnrolAngle(p1, p2, p3, range, extra, visible);
      ghost var b := RegisterAngle(g, s, p1, p2, p3, range, extra, visible);
      assert nodes == b.0 && states == b.1;
      if drawSegments {
        BuildSegments(p1, p2, p3, h);
      }
    }

    /** `new Segment({p1: p1, p2: p2, dash: true, color: 'lightgrey'})`
        and the same from p3 to p2, in `Angle`'s constructor. */
    method BuildSegments(p1: nat, p2: nat, p3: nat, h: Host)
      requires Fits(nodes, states) && HostOk(h)
      requires Admissible(nodes, LineK(p1, p2, true), []) && Admissible(nodes, LineK(p3, p2, true), [])
      modifies this`nodes, this`states
      ensures (nodes, states) == AngleSegments(old(nodes), old(states), p1, p2, p3, h)
    {
      ghost var g, s := nodes, states;
      var a := BuildFigure(LineK(p1, p2, true), [], "lightgrey", true, false, 0.0, h);
      ghost var d := DashedSegment(g, s, p1, p2, h);
      assert nodes == d.0 && states == d.1;
      assert Admissible(nodes, LineK(p3, p2, true), []) by {
        RefsStillPoints(g, nodes, LineK(p3, p2, true), |g|, |nodes|);
      }
      a := BuildFigure(LineK(p3, p2, true), [], "lightgrey", true, false, 0.0, h);
    }

    /** The `update()` that ends `Angle`'s constructor, of the angle n,
        which has no dependents yet. */
    method Measure(n: nat, h: Host)
      requires Fits(nodes, states) && HostOk(h) && n < |nodes| && nodes[n].kind.AngleK? && nodes[n].dependents == []
      modifies this`states
      ensures states == MeasureAngle(nodes, old(states), n, h)
    {
      UpdateWithoutDependents(nodes, states, n, h);
      var ok := UpdateFigure(n, 0.0, 0.0, h);
    }

    /** The part of `Angle`'s constructor before the segments: `Figure`'s
        constructor (colour 'green', never moveable) and the second pushes
        onto p1, p2 and p3. */
    method EnrolAngle(p1: nat, p2: nat, p3: nat, range: Option<Range>, extra: seq<nat>, visible: bool) returns (n: nat)
      requires Fits(nodes, states) && Admissible(nodes, AngleK(p1, p2, p3, range), extra)
      modifies this`nodes, this`states
      ensures n == old(|nodes|)
      ensures (nodes, states) == RegisterAngle(old(nodes), old(states), p1, p2, p3, range, extra, visible)
    {
      var kind := AngleK(p1, p2, p3, range);
      n := Enrol(kind, extra, visible, false, InitState(kind, "green", 0.0));
      PushOntoPoints(n, old(nodes), p1, p2, p3, range);
    }

    /** `for (const p of [p1, p2, p3]) p.dependents.push(this)` in
        `Angle`'s constructor, for the angle n just registered on g. */
    method PushOntoPoints(n: nat, ghost g: seq<Node>, p1: nat, p2: nat, p3: nat, range: Option<Range>)
      requires WellFormed(nodes) && n == |g| && |nodes| == n + 1 && nodes[n].kind == AngleK(p1, p2, p3, range)
      requires RefsArePoints(g, AngleK(p1, p2, p3, range), n)
      requires forall j :: 0 <= j < n ==> nodes[j].kind == g[j].kind
      modifies this`nodes
      ensures nodes == PushAgain(g, old(nodes), p1, p2, p3, range)
    {
      ghost var g1 := nodes;
      var ps := [p1, p2, p3];
      var k := 0;
      while k < 3
        invariant 0 <= k <= 3 && |nodes| == n + 1
        invariant PushAll(nodes, ps[k..], n) == PushAll(g1, ps, n)
      {
        assert ps[k..][1..] == ps[k + 1..];
        nodes := PushDependent(nodes, ps[k], n);
        k := k + 1;
      }
      ghost var r := PushAgain(g, g1, p1, p2, p3, range);
    }

    // -------------------------------------------------------------------
    // the drawer's settings

    /** `clearCanvas` in app/static/js/app.js: no figure is left and the
        counters are reset. */
    method Clear()
      requires Valid()
      modifies this
      ensures Valid() && nodes == [] && states == [] && ids == []
      ensures counters == ClearedCounters(old(counters)) && maxStep == old(maxStep)
    {
      nodes := [];
      states := [];
      ids := [];
      counters := ClearedCounters(counters);
    }

    /** `Figure.MAXSTEP = MAXSTEP * this.scale` in `calculateScale` of
        app/static/js/canvas_drawer.js. */
    method SetMaxStep(base: real, scale: real)
      requires Valid()
      modifies this`maxStep
      ensures Valid() && maxStep == Some(base * scale)
    {
      maxStep := Some(base * scale);
    }
  }

  /** The ids an angle and, when `draw_segments`, its two Segments take:
      `Angle${n}`, then `Line${m}` and `Line${m + 1}`. */
  function AngleIds(c: map<Tag, nat>, drawSegments: bool): seq<Id>
    requires AngleT in c && LineT in c
  {
    [Id(AngleT, c[AngleT])] + if drawSegments then [Id(LineT, c[LineT]), Id(LineT, c[LineT] + 1)] else []
  }

  /** The counters once those ids are taken. */
  function AngleCounters(c: map<Tag, nat>, drawSegments: bool): map<Tag, nat>
    requires AngleT in c && LineT in c
  {
    if drawSegments then Bump(Bump(Bump(c, AngleT), LineT), LineT) else Bump(c, AngleT)
  }

  /** Every figure's id (class name and number) is below its class's
      counter and taken by no other figure. */
  ghost predicate Numbered(ids: seq<Id>, c: map<Tag, nat>)
  {
    c.Keys == AllTags &&
    (forall i :: 0 <= i < |ids| ==> ids[i].tag in c && ids[i].serial < c[ids[i].tag]) &&
    (forall i, j :: 0 <= i < j < |ids| ==> ids[i] != ids[j])
  }

  /** The ids an angle and its Segments take are new ones, one after
      another. */
  lemma AngleIdsAreFresh(ids: seq<Id>, c: map<Tag, nat>, drawSegments: bool)
    requires Numbered(ids, c)
    ensures Numbered(ids + AngleIds(c, drawSegments), AngleCounters(c, drawSegments))
  {
    assert AngleT in AllTags && LineT in AllTags;
    var a := Id(AngleT, c[AngleT]);
    NewIdIsFresh(ids, c, AngleT);
    if drawSegments {
      var c1 := Bump(c, AngleT);
      NewIdIsFresh(ids + [a], c1, LineT);
      var c2 := Bump(c1, LineT);
      NewIdIsFresh(ids + [a] + [Id(LineT, c[LineT])], c2, LineT);
      assert ids + [a] + [Id(LineT, c[LineT])] + [Id(LineT, c[LineT] + 1)] == ids + AngleIds(c, true);
    } else {
      assert ids + [a] == ids + AngleIds(c, false);
    }
  }

  /** A figure given its class's current counter as its number takes an
      id no other figure has, and the counter, once increased, stays
      above every number. */
  lemma NewIdIsFresh(ids: seq<Id>, c: map<Tag, nat>, t: Tag)
    requires Numbered(ids, c) && t in c
    ensures Numbered(ids + [Id(t, c[t])], Bump(c, t))
  {
  }
}
