// The constructors of app/static/js/geometry-classes.js as functions of the
// arena: `Figure`'s constructor appends the figure, pushes it onto the
// `dependents` of each of its dependencies and sets its first `hidden`
// flag; every subclass constructor then runs its own `update()`. An
// `Angle` pushes itself onto its three points a second time and may build
// two dashed Segments before its update.
module Registry {
  import opened Wrappers
  import opened Geometry
  import opened Angles
  import opened Figures
  import opened Cascade

  /** `dep.dependents.push(n)`. */
  function PushDependent(g: seq<Node>, d: nat, n: nat): (r: seq<Node>)
    requires d < |g|
    ensures |r| == |g|
    ensures r[d].dependents == g[d].dependents + [n]
    ensures forall j :: 0 <= j < |g| ==> r[j] == g[j].(dependents := r[j].dependents)
    ensures forall j :: 0 <= j < |g| && j != d ==> r[j] == g[j]
  {
    g[d := g[d].(dependents := g[d].dependents + [n])]
  }

  /** g1 is g with n pushed onto dependents lists only: every list keeps
      what it had and gains only copies of n, and gains one exactly when
      its figure is among ds. */
  ghost predicate Pushed(g: seq<Node>, g1: seq<Node>, ds: seq<nat>, n: nat)
  {
    |g1| == |g| &&
    (forall j :: 0 <= j < |g| ==> g1[j] == g[j].(dependents := g1[j].dependents)) &&
    (forall j :: 0 <= j < |g| ==> g[j].dependents <= g1[j].dependents) &&
    (forall j, k :: 0 <= j < |g| && |g[j].dependents| <= k < |g1[j].dependents| ==> g1[j].dependents[k] == n) &&
    (forall j :: 0 <= j < |g| && j in ds ==> n in g1[j].dependents) &&
    (forall j :: 0 <= j < |g| && j !in ds ==> g1[j].dependents == g[j].dependents)
  }

  /** The loop `for (let dep of this.dependencies) dep.dependents.push(this)`
      of `Figure`'s constructor: n pushed onto each of ds in turn. */
  function PushAll(g: seq<Node>, ds: seq<nat>, n: nat): (r: seq<Node>)
    requires forall k :: 0 <= k < |ds| ==> ds[k] < |g|
    ensures |r| == |g|
    decreases |ds|
  {
    if ds == [] then g else PushAll(PushDependent(g, ds[0], n), ds[1..], n)
  }

  /** The loop changes nothing but dependents lists: each gains copies of
      n only, and gains one exactly when its figure is among ds. */
  lemma {:induction false} PushAllPushed(g: seq<Node>, ds: seq<nat>, n: nat)
    requires forall k :: 0 <= k < |ds| ==> ds[k] < |g|
    ensures Pushed(g, PushAll(g, ds, n), ds, n)
    decreases |ds|
  {
    if ds != [] {
      var g1 := PushDependent(g, ds[0], n);
      var r := PushAll(g1, ds[1..], n);
      PushAllPushed(g1, ds[1..], n);
      assert forall j :: 0 <= j < |g| && j in ds && j != ds[0] ==> j in ds[1..];
      assert n in r[ds[0]].dependents by {
        assert g1[ds[0]].dependents[|g[ds[0]].dependents|] == n;
      }
    }
  }

  /** One step of PushAll from the k-th dependency on. */
  lemma PushAllStep(g: seq<Node>, ds: seq<nat>, k: nat, n: nat)
    requires k < |ds| && forall j :: 0 <= j < |ds| ==> ds[j] < |g|
    ensures PushAll(g, ds[k..], n) == PushAll(PushDependent(g, ds[k], n), ds[k + 1..], n)
  {
    var rest := ds[k..];
    assert rest[0] == ds[k] && rest[1..] == ds[k + 1..];
  }

  /** `color ? color : (moveable ? 'blue' : 'grey')`; None and "" are
      the falsy colours. A figure always ends up with a colour. */
  function DefaultColour(colour: Option<string>, moveable: bool): (c: string)
    ensures c != ""
    ensures colour.Some? && colour.value != "" ==> c == colour.value
    ensures colour.None? || colour.value == "" ==> c == (if moveable then "blue" else "grey")
  {
    if colour.Some? && colour.value != "" then colour.value
    else if moveable then "blue" else "grey"
  }

  /** What a constructor demands of its arguments: the figures it is
      built on exist, and those it reads coordinates of are points. */
  ghost predicate Admissible(g: seq<Node>, kind: Kind, extra: seq<nat>)
  {
    (forall k :: 0 <= k < |Refs(kind) + extra| ==> (Refs(kind) + extra)[k] < |g|) &&
    RefsArePoints(g, kind, |g|)
  }

  /** The node and state `Figure`'s constructor appends, before the loop
      over the dependencies. */
  function NewNode(kind: Kind, extra: seq<nat>, visible: bool, moveable: bool): Node
  {
    Node(kind, Refs(kind) + extra, [], visible, moveable)
  }

  /** The arena after the loop of `Figure`'s constructor is well formed. */
  lemma RegisterKeepsWellFormed(g: seq<Node>, kind: Kind, extra: seq<nat>, visible: bool, moveable: bool)
    requires WellFormed(g) && Admissible(g, kind, extra)
    ensures var ds := Refs(kind) + extra;
      WellFormed(PushAll(g + [NewNode(kind, extra, visible, moveable)], ds, |g|))
  {
    var ds := Refs(kind) + extra;
    var g1 := PushAll(g + [NewNode(kind, extra, visible, moveable)], ds, |g|);
    PushedOntoOld(g, kind, extra, visible, moveable);
    forall i | 0 <= i < |g1|
      ensures NodeOk(g1, i)
    {
      if i < |g| {
        OldNodeStaysOk(g, g1, ds, i);
      } else {
        assert i == |g|;
        NewNodeOk(g, g1, kind, extra, visible, moveable);
      }
    }
  }

  /** On the figures already there, the loop only pushes the new one. */
  lemma PushedOntoOld(g: seq<Node>, kind: Kind, extra: seq<nat>, visible: bool, moveable: bool)
    requires Admissible(g, kind, extra)
    ensures var ds := Refs(kind) + extra;
      var g1 := PushAll(g + [NewNode(kind, extra, visible, moveable)], ds, |g|);
      g1[|g|].deps == ds && Pushed(g, g1[..|g|], ds, |g|)
  {
    var ds := Refs(kind) + extra;
    var g0 := g + [NewNode(kind, extra, visible, moveable)];
    var g1 := PushAll(g0, ds, |g|);
    PushAllPushed(g0, ds, |g|);
    assert forall j :: 0 <= j < |g| ==> g0[j] == g[j] && g1[..|g|][j] == g1[j];
  }

  /** A figure already in the arena stays well linked after the new figure
      n = |g| has been appended and pushed onto the figures ds. */
  lemma OldNodeStaysOk(g: seq<Node>, g1: seq<Node>, ds: seq<nat>, i: nat)
    requires WellFormed(g) && i < |g| && |g1| == |g| + 1 && g1[|g|].deps == ds
    requires Pushed(g, g1[..|g|], ds, |g|)
    ensures NodeOk(g1, i)
  {
    assert forall j :: 0 <= j < |g| ==> g1[..|g|][j] == g1[j];
    assert NodeOk(g, i);
    forall k | 0 <= k < |g1[i].deps|
      ensures g1[i].deps[k] < i && i in g1[g1[i].deps[k]].dependents
    {
      var d := g[i].deps[k];
      assert i in g[d].dependents;
    }
    forall k | 0 <= k < |g1[i].dependents|
      ensures i < g1[i].dependents[k] < |g1| && i in g1[g1[i].dependents[k]].deps
    {
      if k < |g[i].dependents| {
        assert g1[i].dependents[k] == g[i].dependents[k];
      } else {
        assert g1[i].dependents[k] == |g|;
        assert i in ds;
      }
    }
    RefsStillPoints(g, g1, g[i].kind, i, i);
  }

  lemma NewNodeOk(g: seq<Node>, g1: seq<Node>, kind: Kind, extra: seq<nat>, visible: bool, moveable: bool)
    requires Admissible(g, kind, extra)
    requires g1 == PushAll(g + [NewNode(kind, extra, visible, moveable)], Refs(kind) + extra, |g|)
    ensures NodeOk(g1, |g|)
  {
    var n := |g|;
    var ds := Refs(kind) + extra;
    PushAllPushed(g + [NewNode(kind, extra, visible, moveable)], ds, n);
    assert g1[n].deps == ds;
    forall k | 0 <= k < |ds|
      ensures ds[k] < n && n in g1[ds[k]].dependents
    {
      assert ds[k] in ds;
    }
    RefsStillPoints(g, g1, kind, n, n);
  }

  /** Pointing to points survives appending nodes and pushing dependents. */
  lemma RefsStillPoints(g: seq<Node>, g1: seq<Node>, k: Kind, i: nat, i1: nat)
    requires RefsArePoints(g, k, i) && |g| <= |g1| && i <= i1
    requires forall j :: 0 <= j < |g| ==> g1[j].kind == g[j].kind
    ensures RefsArePoints(g1, k, i1)
  {
  }

  /** The second round of pushes of `Angle`'s constructor keeps the arena
      well formed: it pushes n only onto figures n depends on. */
  lemma {:induction false} PushAgainKeepsWellFormed(g: seq<Node>, ds: seq<nat>, n: nat)
    requires WellFormed(g) && n < |g|
    requires forall k :: 0 <= k < |ds| ==> ds[k] in g[n].deps
    ensures forall k :: 0 <= k < |ds| ==> ds[k] < |g|
    ensures WellFormed(PushAll(g, ds, n))
  {
    assert NodeOk(g, n);
    assert forall k :: 0 <= k < |ds| ==> ds[k] < n;
    var g1 := PushAll(g, ds, n);
    PushAllPushed(g, ds, n);
    forall i | 0 <= i < |g1|
      ensures NodeOk(g1, i)
    {
      assert NodeOk(g, i);
      forall k | 0 <= k < |g1[i].deps|
        ensures g1[i].deps[k] < i && i in g1[g1[i].deps[k]].dependents
      {
        var d := g[i].deps[k];
        assert i in g[d].dependents;
      }
      forall k | 0 <= k < |g1[i].dependents|
        ensures i < g1[i].dependents[k] < |g1| && i in g1[g1[i].dependents[k]].deps
      {
        if k < |g[i].dependents| {
          assert g1[i].dependents[k] == g[i].dependents[k];
        } else {
          assert g1[i].dependents[k] == n;
          assert i in ds;
          var m :| 0 <= m < |ds| && ds[m] == i;
        }
      }
      RefsStillPoints(g, g1, g[i].kind, i, i);
    }
  }

  /** `Figure`'s constructor for a figure of the given kind built on the
      figures `Refs(kind) + extra`, with `st` the state its subclass
      fields start in: the arena is extended, and the new figure is
      hidden exactly when one of its dependencies is (`hide` is called
      with `this.hidden || any_dep_hidden`, and `this.hidden` starts
      false). */
  function Register(g: seq<Node>, s: seq<State>, kind: Kind, extra: seq<nat>, visible: bool, moveable: bool, st: State): (r: (seq<Node>, seq<State>))
    requires Fits(g, s) && Admissible(g, kind, extra)
    ensures Fits(r.0, r.1) && |r.0| == |g| + 1
    ensures r.0[|g|] == NewNode(kind, extra, visible, moveable)
    ensures forall j :: 0 <= j < |g| ==> r.0[j] == g[j].(dependents := r.0[j].dependents)
    ensures forall j :: 0 <= j < |g| ==> r.1[j] == s[j]
    ensures r.1[|g|] == st.(hidden := exists k :: 0 <= k < |Refs(kind) + extra| && s[(Refs(kind) + extra)[k]].hidden)
    ensures forall j :: 0 <= j < |g| && j in Refs(kind) + extra ==> |g| in r.0[j].dependents
    ensures forall j :: 0 <= j < |g| && j !in Refs(kind) + extra ==> r.0[j] == g[j]
  {
    var n := |g|;
    var ds := Refs(kind) + extra;
    var g1 := PushAll(g + [NewNode(kind, extra, visible, moveable)], ds, n);
    PushAllPushed(g + [NewNode(kind, extra, visible, moveable)], ds, n);
    RegisterKeepsWellFormed(g, kind, extra, visible, moveable);
    var s1 := s + [st.(hidden := false)];
    // `any_dep_hidden`, collected while pushing.
    var any := exists k :: 0 <= k < |ds| && s[ds[k]].hidden;
    assert any == AnyDepHidden(g1, s1, n) by {
      assert DepsOf(g1, n) == ds;
      forall k | 0 <= k < |ds| ensures s1[ds[k]] == s[ds[k]] {
        assert ds[k] < n;
      }
    }
    (g1, Hide(g1, s1, n, Some(any)))
  }

  /** The state a subclass constructor starts from: a Point at its (x, y),
      a Circle with its given radius, every other figure with nothing
      computed yet; `value` is the Angle's `null`. */
  function InitState(kind: Kind, colour: string, radius: real): State
  {
    State(false, if kind.PointK? then kind.init else Zero, if kind.CircleK? then radius else 0.0, 0.0, colour)
  }

  /** `Point`'s constructor: `Figure`'s constructor, then `update()`,
      which resolves the new point against its dependencies; it fails
      where that resolution throws. */
  function ConstructPoint(g: seq<Node>, s: seq<State>, init: Vec, extra: seq<nat>, colour: string, visible: bool, moveable: bool, h: Host): (r: (seq<Node>, Outcome))
    requires HostOk(h) && Fits(g, s) && Admissible(g, PointK(init), extra)
    ensures Fits(r.0, r.1.st) && |r.0| == |g| + 1
    ensures r.0[|g|] == NewNode(PointK(init), extra, visible, moveable)
    ensures forall j :: 0 <= j < |g| ==> r.0[j] == g[j].(dependents := r.0[j].dependents)
    ensures forall j :: 0 <= j < |g| ==> r.1.st[j] == s[j]
  {
    var b := Register(g, s, PointK(init), extra, visible, moveable, InitState(PointK(init), colour, 0.0));
    (b.0, Update(b.0, b.1, |g|, 0.0, 0.0, h))
  }

  /** Any other constructor but `Angle`'s: `Figure`'s constructor, then
      the subclass's `update()`, which, with no dependents yet, only
      recomputes the new figure itself (`Own`) and cannot fail. */
  function ConstructFigure(g: seq<Node>, s: seq<State>, kind: Kind, extra: seq<nat>, colour: string, visible: bool, moveable: bool, radius: real, h: Host): (r: (seq<Node>, seq<State>))
    requires HostOk(h) && Fits(g, s) && Admissible(g, kind, extra) && !kind.PointK? && !kind.AngleK?
    ensures Fits(r.0, r.1) && |r.0| == |g| + 1
    ensures r.0[|g|] == NewNode(kind, extra, visible, moveable)
    ensures forall j :: 0 <= j < |g| ==> r.0[j] == g[j].(dependents := r.0[j].dependents)
    ensures forall j :: 0 <= j < |g| && j !in Refs(kind) + extra ==> r.0[j] == g[j]
    ensures forall j :: 0 <= j < |g| ==> r.1[j] == s[j]
    ensures kind.CircleK? ==> r.1[|g|].radius == radius
  {
    var b := Register(g, s, kind, extra, visible, moveable, InitState(kind, colour, radius));
    (b.0, b.1[|g| := Own(b.0, b.1, |g|, h)])
  }

  /** The update a constructor runs on its new figure, which has no
      dependents yet, is `Own` for every figure but a point, and never
      fails. */
  lemma {:induction false} UpdateWithoutDependents(g: seq<Node>, s: seq<State>, i: nat, h: Host)
    requires HostOk(h) && Fits(g, s) && i < |g| && g[i].dependents == [] && !g[i].kind.PointK?
    ensures Update(g, s, i, 0.0, 0.0, h) == Outcome(s[i := Own(g, s, i, h)], true)
  {
    assert Kids(g, i) == [];
  }

  /** A dashed Segment from a to b as an `Angle` builds it: it changes
      no state before it and no figure but a and b. */
  function DashedSegment(g: seq<Node>, s: seq<State>, a: nat, b: nat, h: Host): (r: (seq<Node>, seq<State>))
    requires HostOk(h) && Fits(g, s) && Admissible(g, LineK(a, b, true), [])
    ensures Fits(r.0, r.1) && |r.0| == |g| + 1
    ensures forall j :: 0 <= j < |g| ==> r.0[j].kind == g[j].kind
    ensures forall j :: 0 <= j < |g| && j != a && j != b ==> r.0[j] == g[j]
    ensures forall j :: 0 <= j < |g| ==> r.1[j] == s[j]
  {
    var c := ConstructFigure(g, s, LineK(a, b, true), [], "lightgrey", true, false, 0.0, h);
    assert Refs(LineK(a, b, true)) + [] == [a, b];
    c
  }

  /** The two dashed Segments p1-p2 and p3-p2 an `Angle` builds when
      `draw_segments`. */
  function AngleSegments(g: seq<Node>, s: seq<State>, p1: nat, p2: nat, p3: nat, h: Host): (r: (seq<Node>, seq<State>))
    requires HostOk(h) && Fits(g, s) && Admissible(g, LineK(p1, p2, true), []) && Admissible(g, LineK(p3, p2, true), [])
    ensures Fits(r.0, r.1) && |r.0| == |g| + 2
    ensures forall j :: 0 <= j < |g| && j != p1 && j != p2 && j != p3 ==> r.0[j] == g[j]
    ensures forall j :: 0 <= j < |g| ==> r.1[j] == s[j]
  {
    var a := DashedSegment(g, s, p1, p2, h);
    RefsStillPoints(g, a.0, LineK(p3, p2, true), |g|, |a.0|);
    DashedSegment(a.0, a.1, p3, p2, h)
  }

  /** `Angle`'s constructor on the points p1, p2 (the vertex) and p3:
      registration (with the default colour 'green', never moveable), the
      second pushes onto the three points, the two dashed Segments
      p1-p2 and p3-p2 when `draw_segments`, and then the angle's update,
      which measures the angle and colours it. */
  function ConstructAngle(g: seq<Node>, s: seq<State>, p1: nat, p2: nat, p3: nat, range: Option<Range>, extra: seq<nat>, visible: bool, drawSegments: bool, h: Host): (r: (seq<Node>, seq<State>))
    requires HostOk(h) && Fits(g, s) && Admissible(g, AngleK(p1, p2, p3, range), extra)
    ensures Fits(r.0, r.1) && |r.0| == |g| + (if drawSegments then 3 else 1)
    ensures r.0[|g|].kind == AngleK(p1, p2, p3, range) && r.0[|g|].dependents == []
    ensures 0.0 <= r.1[|g|].value <= 180.0
    ensures range.Some? ==> r.1[|g|].colour == Classify(r.1[|g|].value, range.value)
  {
    var t := AngleArena(g, s, p1, p2, p3, range, extra, visible, drawSegments, h);
    (t.0, MeasureAngle(t.0, t.1, |g|, h))
  }

  /** The arena `Angle`'s constructor leaves before its update: the
      registered angle, followed by its two Segments when `draw_segments`. */
  function AngleArena(g: seq<Node>, s: seq<State>, p1: nat, p2: nat, p3: nat, range: Option<Range>, extra: seq<nat>, visible: bool, drawSegments: bool, h: Host): (r: (seq<Node>, seq<State>))
    requires HostOk(h) && Fits(g, s) && Admissible(g, AngleK(p1, p2, p3, range), extra)
    ensures Fits(r.0, r.1) && |r.0| == |g| + (if drawSegments then 3 else 1)
    ensures r.0[|g|].kind == AngleK(p1, p2, p3, range) && r.0[|g|].dependents == []
  {
    var b := RegisterAngle(g, s, p1, p2, p3, range, extra, visible);
    if drawSegments then AngleSegments(b.0, b.1, p1, p2, p3, h) else b
  }

  /** The update that ends `Angle`'s constructor, of the angle n, which
      has no dependents: its value and colour are set, nothing else
      changes. */
  function MeasureAngle(g: seq<Node>, s: seq<State>, n: nat, h: Host): (r: seq<State>)
    requires HostOk(h) && Fits(g, s) && n < |g| && g[n].kind.AngleK?
    ensures |r| == |s|
    ensures forall j :: 0 <= j < |s| && j != n ==> r[j] == s[j]
    ensures 0.0 <= r[n].value <= 180.0
    ensures g[n].kind.validRange.Some? ==> r[n].colour == Classify(r[n].value, g[n].kind.validRange.value)
  {
    s[n := Own(g, s, n, h)]
  }

  /** The part of `Angle`'s constructor before the segments: `Figure`'s
      constructor and the second pushes onto p1, p2 and p3. */
  function RegisterAngle(g: seq<Node>, s: seq<State>, p1: nat, p2: nat, p3: nat, range: Option<Range>, extra: seq<nat>, visible: bool): (r: (seq<Node>, seq<State>))
    requires Fits(g, s) && Admissible(g, AngleK(p1, p2, p3, range), extra)
    ensures Fits(r.0, r.1) && |r.0| == |g| + 1
    ensures r.0[|g|].kind == AngleK(p1, p2, p3, range) && r.0[|g|].dependents == []
    ensures p1 < |g| && p2 < |g| && p3 < |g|
    ensures Admissible(r.0, LineK(p1, p2, true), []) && Admissible(r.0, LineK(p3, p2, true), [])
    ensures forall j :: 0 <= j < |g| ==> r.1[j] == s[j]
  {
    var b := Register(g, s, AngleK(p1, p2, p3, range), extra, visible, false, InitState(AngleK(p1, p2, p3, range), "green", 0.0));
    (PushAgain(g, b.0, p1, p2, p3, range), b.1)
  }

  /** A dashed Segment between two points an angle at index |g| is built on
      may be constructed in any arena that keeps the kinds of g. */
  lemma SegmentAdmissible(g: seq<Node>, r: seq<Node>, a: nat, b: nat, angle: Kind)
    requires angle.AngleK? && RefsArePoints(g, angle, |g|) && |g| < |r|
    requires a in Refs(angle) && b in Refs(angle)
    requires forall j :: 0 <= j < |g| ==> r[j].kind == g[j].kind
    ensures Admissible(r, LineK(a, b, true), [])
  {
    assert Refs(LineK(a, b, true)) + [] == [a, b];
  }

  /** The second pushes of `Angle`'s constructor, onto p1, p2 and p3, of
      the angle just registered as the last figure of g1, built on g. */
  function PushAgain(g: seq<Node>, g1: seq<Node>, p1: nat, p2: nat, p3: nat, range: Option<Range>): (r: seq<Node>)
    requires WellFormed(g1) && |g1| == |g| + 1 && g1[|g|].kind == AngleK(p1, p2, p3, range)
    requires RefsArePoints(g, AngleK(p1, p2, p3, range), |g|)
    requires forall j :: 0 <= j < |g| ==> g1[j].kind == g[j].kind
    ensures WellFormed(r) && |r| == |g1|
    ensures r[|g|] == g1[|g|]
    ensures Admissible(r, LineK(p1, p2, true), []) && Admissible(r, LineK(p3, p2, true), [])
    ensures forall j :: 0 <= j < |g1| ==> r[j] == g1[j].(dependents := r[j].dependents)
  {
    var n := |g|;
    assert NodeOk(g1, n);
    PushAgainKeepsWellFormed(g1, [p1, p2, p3], n);
    var r := PushAll(g1, [p1, p2, p3], n);
    PushAllPushed(g1, [p1, p2, p3], n);
    assert n !in [p1, p2, p3];
    SegmentAdmissible(g, r, p1, p2, AngleK(p1, p2, p3, range));
    SegmentAdmissible(g, r, p3, p2, AngleK(p1, p2, p3, range));
    r
  }
}
