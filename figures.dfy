// The figures of app/static/js/geometry-classes.js as an arena: every
// figure is an entry of a sequence, addressed by its position, which is
// the order of construction. A figure's `dependencies` and `dependents`
// arrays become index lists; what a figure reads of another one (the
// coordinates of a point, the radius of a circle) is read from the state
// entry at that index.
module Figures {
  import opened Wrappers
  import opened Geometry
  import opened Straight
  import opened Round
  import opened Intersection
  import opened Angles

  /** The subclass of a figure with its constructor arguments; the indices
      are those of the figures it was built on. */
  datatype Kind =
    | PointK(init: Vec)
    | CircleK(center: nat)
    | CircleByCenterEdgeK(center: nat, edge: nat)
    | LineK(p1: nat, p2: nat, segment: bool)
    | ArcK(center: nat, point: nat, fromAngle: real, toAngle: real)
    | Arc3K(p1: nat, p2: nat, p3: nat)
    | AngleK(p1: nat, p2: nat, p3: nat, validRange: Option<Range>)

  /** The links and flags of a figure, fixed while the cascades run;
      the figure's id is kept beside the arena, in engine.dfy. */
  datatype Node = Node(kind: Kind, deps: seq<nat>, dependents: seq<nat>, visible: bool, moveable: bool)

  /** The classes that keep an id counter; a Segment counts as a Line. */
  datatype Tag = PointT | CircleT | CircleByCenterEdgeT | LineT | ArcT | Arc3T | AngleT

  function TagOf(k: Kind): Tag
  {
    match k
    case PointK(_) => PointT
    case CircleK(_) => CircleT
    case CircleByCenterEdgeK(_, _) => CircleByCenterEdgeT
    case LineK(_, _, _) => LineT
    case ArcK(_, _, _, _) => ArcT
    case Arc3K(_, _, _) => Arc3T
    case AngleK(_, _, _, _) => AngleT
  }

  /** What the cascades change: `hidden`, a point's x and y, the radius of
      circles and arcs, an angle's value and colour. */
  datatype State = State(hidden: bool, pos: Vec, radius: real, value: real, colour: string)

  /** The figures a constructor puts at the head of `dependencies`. */
  function Refs(k: Kind): seq<nat>
  {
    match k
    case PointK(_) => []
    case CircleK(c) => [c]
    case CircleByCenterEdgeK(c, e) => [c, e]
    case LineK(p1, p2, _) => [p1, p2]
    case ArcK(c, p, _, _) => [c, p]
    case Arc3K(p1, p2, p3) => [p1, p2, p3]
    case AngleK(p1, p2, p3, _) => [p1, p2, p3]
  }

  /** The arena's shape: a figure depends only on earlier figures, its
      dependents are later figures, the two lists mirror each other, and
      the figures a constructor reads coordinates of are points. */
  ghost predicate WellFormed(g: seq<Node>)
  {
    forall i :: 0 <= i < |g| ==> NodeOk(g, i)
  }

  ghost predicate NodeOk(g: seq<Node>, i: nat)
    requires i < |g|
  {
    Refs(g[i].kind) <= g[i].deps &&
    (forall k :: 0 <= k < |g[i].deps| ==> g[i].deps[k] < i && i in g[g[i].deps[k]].dependents) &&
    (forall k :: 0 <= k < |g[i].dependents| ==>
       i < g[i].dependents[k] < |g| && i in g[g[i].dependents[k]].deps) &&
    RefsArePoints(g, g[i].kind, i)
  }

  /** The dependencies of figure i, all built before it. */
  function DepsOf(g: seq<Node>, i: nat): (r: seq<nat>)
    requires WellFormed(g) && i < |g|
    ensures r == g[i].deps
    ensures forall k :: 0 <= k < |r| ==> r[k] < i
  {
    assert NodeOk(g, i);
    g[i].deps
  }

  /** The dependents of figure i, all built after it. */
  function Kids(g: seq<Node>, i: nat): (r: seq<nat>)
    requires WellFormed(g) && i < |g|
    ensures r == g[i].dependents
    ensures forall k :: 0 <= k < |r| ==> i < r[k] < |g|
  {
    assert NodeOk(g, i);
    g[i].dependents
  }

  /** The figures a constructor of kind k at index i reads as points are
      earlier points. */
  ghost predicate RefsArePoints(g: seq<Node>, k: Kind, i: nat)
  {
    match k
    case PointK(_) => true
    case CircleK(c) => PointBefore(g, c, i)
    case CircleByCenterEdgeK(c, e) => PointBefore(g, c, i) && PointBefore(g, e, i)
    case LineK(p1, p2, _) => PointBefore(g, p1, i) && PointBefore(g, p2, i)
    case ArcK(c, p, _, _) => PointBefore(g, c, i) && PointBefore(g, p, i)
    case Arc3K(p1, p2, p3) => PointBefore(g, p1, i) && PointBefore(g, p2, i) && PointBefore(g, p3, i)
    case AngleK(p1, p2, p3, _) => PointBefore(g, p1, i) && PointBefore(g, p2, i) && PointBefore(g, p3, i)
  }

  ghost predicate PointBefore(g: seq<Node>, r: nat, i: nat)
  {
    r < i && r < |g| && g[r].kind.PointK?
  }

  ghost predicate Fits(g: seq<Node>, s: seq<State>)
  {
    WellFormed(g) && |s| == |g|
  }

  /** `closest_valid` of figure d for the point p; None where the JavaScript
      throws (a null from ArcThrough3Points) or computes NaN (a Line or
      Segment whose ends coincide). Point, CircleByCenterEdge and Angle
      inherit the identity of `Figure.closest_valid`. */
  function ClosestValid(g: seq<Node>, s: seq<State>, d: nat, p: Vec, h: Host): (r: Option<Vec>)
    requires HostOk(h) && Fits(g, s) && d < |g|
    ensures (g[d].kind.PointK? || g[d].kind.CircleByCenterEdgeK? || g[d].kind.AngleK?) ==> r == Some(p)
    ensures (g[d].kind.CircleK? || g[d].kind.ArcK?) ==> r == Some(Offer(s[g[d].kind.center].pos, s[d].radius, g[d].kind, p, h))
    ensures g[d].kind.LineK? ==>
      (r.None? <==> Dot(Sub(s[g[d].kind.p2].pos, s[g[d].kind.p1].pos), Sub(s[g[d].kind.p2].pos, s[g[d].kind.p1].pos)) == 0.0)
    ensures g[d].kind.Arc3K? ==> (r.None? <==> Circumcenter(s[g[d].kind.p1].pos, s[g[d].kind.p2].pos, s[g[d].kind.p3].pos).None?)
  {
    assert NodeOk(g, d);
    match g[d].kind
    case PointK(_) => Some(p)
    case CircleByCenterEdgeK(_, _) => Some(p)
    case AngleK(_, _, _, _) => Some(p)
    case CircleK(c) => Some(CircleClosest(s[c].pos, s[d].radius, p, h))
    case LineK(p1, p2, seg) =>
      if seg then SegmentClosest(s[p1].pos, s[p2].pos, p) else LineClosest(s[p1].pos, s[p2].pos, p)
    case ArcK(c, _, from, to) => Some(ArcClosest(s[c].pos, s[d].radius, from, to, p, h))
    case Arc3K(p1, p2, p3) => Arc3Closest(s[p1].pos, s[p2].pos, s[p3].pos, p, h)
  }

  /** The centre point of a Circle or an Arc. */
  function CenterOf(g: seq<Node>, d: nat): (c: nat)
    requires WellFormed(g) && d < |g| && (g[d].kind.CircleK? || g[d].kind.ArcK?)
    ensures c < d && g[c].kind.PointK?
  {
    assert NodeOk(g, d);
    g[d].kind.center
  }

  /** The point a Circle or an Arc offers lies on its circle, at the
      radius the figure holds. */
  lemma ClosestValidOnCircle(g: seq<Node>, s: seq<State>, d: nat, p: Vec, h: Host)
    requires HostOk(h) && Fits(g, s) && d < |g| && (g[d].kind.CircleK? || g[d].kind.ArcK?)
    ensures Dist2(ClosestValid(g, s, d, p, h).value, s[CenterOf(g, d)].pos) == Sq(s[d].radius)
  {
    OfferedOnCircle(ClosestValid(g, s, d, p, h), s[CenterOf(g, d)].pos, s[d].radius, g[d].kind, p, h);
  }

  lemma OfferedOnCircle(v: Option<Vec>, c: Vec, radius: real, k: Kind, p: Vec, h: Host)
    requires HostOk(h) && (k.CircleK? || k.ArcK?) && v == Some(Offer(c, radius, k, p, h))
    ensures v.Some? && Dist2(v.value, c) == Sq(radius)
  {
    OfferOnCircle(c, radius, k, p, h);
  }

  /** The point a Circle or an Arc about c offers for p. */
  function Offer(c: Vec, radius: real, k: Kind, p: Vec, h: Host): Vec
    requires HostOk(h) && (k.CircleK? || k.ArcK?)
  {
    if k.CircleK? then CircleClosest(c, radius, p, h) else ArcClosest(c, radius, k.fromAngle, k.toAngle, p, h)
  }

  /** The point a Circle or an Arc about c offers lies on that circle. */
  lemma OfferOnCircle(c: Vec, radius: real, k: Kind, p: Vec, h: Host)
    requires HostOk(h) && (k.CircleK? || k.ArcK?)
    ensures Dist2(Offer(c, radius, k, p, h), c) == radius * radius
  {
    if k.CircleK? {
      CircleClosestOnCircle(c, radius, p, h);
    } else {
      ArcClosestOnCircle(c, radius, k.fromAngle, k.toAngle, p, h);
    }
  }

  /** What `Figure.intersection` reads of figure d: a circle's centre and
      radius (a CircleByCenterEdge's radius measured afresh from its edge
      point), a line's ends and whether it is a segment. */
  function GeomOf(g: seq<Node>, s: seq<State>, d: nat, h: Host): (r: Geom)
    requires Fits(g, s) && d < |g|
    ensures r.OtherG? <==> !(g[d].kind.CircleK? || g[d].kind.CircleByCenterEdgeK? || g[d].kind.LineK?)
    ensures r.LineG? ==> g[d].kind.LineK? && r.segment == g[d].kind.segment
  {
    assert NodeOk(g, d);
    match g[d].kind
    case CircleK(c) => CircleG(s[c].pos, s[d].radius)
    case CircleByCenterEdgeK(c, e) => CircleG(s[c].pos, Len(Sub(s[e].pos, s[c].pos), h))
    case LineK(p1, p2, seg) => LineG(s[p1].pos, s[p2].pos, seg)
    case _ => OtherG
  }
}
