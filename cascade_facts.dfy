// What the cascades of cascade.dfy promise about the figure they start at:
// where `Point.update` puts a point with no, one, or several
// dependencies, and what `hide(true)` does to the dependents.
module CascadeFacts {
  import opened Wrappers
  import opened Geometry
  import opened Intersection
  import opened Figures
  import opened Cascade

  /** Two states that agree before figure i. */
  ghost predicate AgreeBelow(s: seq<State>, t: seq<State>, i: nat)
  {
    |s| == |t| && forall j :: 0 <= j < i && j < |s| ==> s[j] == t[j]
  }

  lemma AnyDepHiddenLocal(g: seq<Node>, s: seq<State>, t: seq<State>, i: nat)
    requires Fits(g, s) && Fits(g, t) && i < |g| && AgreeBelow(s, t, i)
    ensures AnyDepHidden(g, s, i) == AnyDepHidden(g, t, i)
  {
    if AnyDepHidden(g, s, i) {
      var k :| 0 <= k < |DepsOf(g, i)| && s[DepsOf(g, i)[k]].hidden;
      assert t[DepsOf(g, i)[k]].hidden;
    }
    if AnyDepHidden(g, t, i) {
      var k :| 0 <= k < |DepsOf(g, i)| && t[DepsOf(g, i)[k]].hidden;
      assert s[DepsOf(g, i)[k]].hidden;
    }
  }

  /** After `update(dx, dy)` of a point, the point is where the resolution
      of its shifted position put it, with the flag its `hide` call gave
      it; the dependents' updates never move it again. A resolution that
      fails stops the cascade with the point at its shifted position. */
  lemma {:induction false} UpdatePoint(g: seq<Node>, s: seq<State>, i: nat, dx: real, dy: real, h: Host)
    requires HostOk(h) && Fits(g, s) && i < |g| && g[i].kind.PointK?
    ensures var shifted := Add(s[i].pos, Vec(dx, dy));
      var s0 := s[i := s[i].(pos := shifted)];
      var res := Resolve(g, s, i, shifted, h);
      var r := Update(g, s, i, dx, dy, h);
      (res.Stuck? ==> r == Outcome(s0, false)) &&
      (res.To? ==>
         (r.st[i].pos == res.pos &&
          r.st[i].hidden == (if res.hide.Some? then NewHidden(g, s, i, res.hide.value) else s[i].hidden)))
  {
    var shifted := Add(s[i].pos, Vec(dx, dy));
    var s0 := s[i := s[i].(pos := shifted)];
    var res := Resolve(g, s, i, shifted, h);
    assert Update(g, s, i, dx, dy, h) == PointUpdate(g, s, i, dx, dy, h);
    if res.To? {
      assert PointUpdate(g, s, i, dx, dy, h) == Settle(g, s0, i, res.hide, res.pos, s[i].pos, h);
      var s1 := Hide(g, s0, i, res.hide);
      var s2 := s1[i := s1[i].(pos := res.pos)];
      var r1 := DeltaLoop(g, s2, i, 0, res.pos.x - s[i].pos.x, res.pos.y - s[i].pos.y, h);
      assert r1.st[i] == s2[i];
      if r1.ok {
        assert PlainLoop(g, r1.st, i, 0, h).st[i] == s2[i];
      }
      if res.hide.Some? {
        AnyDepHiddenLocal(g, s0, s, i);
      }
    }
  }

  /** A point without dependencies moves by exactly the delta and keeps its
      flag. */
  lemma FreePointMovesByDelta(g: seq<Node>, s: seq<State>, i: nat, dx: real, dy: real, h: Host)
    requires HostOk(h) && Fits(g, s) && i < |g| && g[i].kind.PointK? && |DepsOf(g, i)| == 0
    ensures Update(g, s, i, dx, dy, h).st[i].pos == Vec(s[i].pos.x + dx, s[i].pos.y + dy)
    ensures Update(g, s, i, dx, dy, h).st[i].hidden == s[i].hidden
  {
    UpdatePoint(g, s, i, dx, dy, h);
  }

  /** A point with one dependency goes to that figure's `closest_valid` of
      its shifted position; where that fails the cascade stops. */
  lemma OneDependencyPoint(g: seq<Node>, s: seq<State>, i: nat, dx: real, dy: real, h: Host)
    requires HostOk(h) && Fits(g, s) && i < |g| && g[i].kind.PointK? && |DepsOf(g, i)| == 1
    ensures var shifted := Add(s[i].pos, Vec(dx, dy));
      var q := ClosestValid(g, s, DepsOf(g, i)[0], shifted, h);
      var r := Update(g, s, i, dx, dy, h);
      (q.None? ==> !r.ok) && (q.Some? ==> r.st[i].pos == q.value && r.st[i].hidden == s[i].hidden)
  {
    UpdatePoint(g, s, i, dx, dy, h);
  }

  /** A point whose only dependency is a point (whose `closest_valid` is
      the identity) keeps its own position plus the delta. */
  lemma PointOnPointFollowsDelta(g: seq<Node>, s: seq<State>, i: nat, dx: real, dy: real, h: Host)
    requires HostOk(h) && Fits(g, s) && i < |g| && g[i].kind.PointK? && |DepsOf(g, i)| == 1
    requires g[DepsOf(g, i)[0]].kind.PointK?
    ensures Update(g, s, i, dx, dy, h).st[i].pos == Vec(s[i].pos.x + dx, s[i].pos.y + dy)
  {
    OneDependencyPoint(g, s, i, dx, dy, h);
  }

  /** A point with two or more dependencies: with candidates left it goes
      to the first nearest one and is shown again when its dependencies
      allow it (a shown point stays shown); without any a shown point
      returns to where it was built and hides, and a hidden one stays at
      its shifted position. A NaN intersection stops the cascade. */
  lemma {:induction false} SeveralDependenciesPoint(g: seq<Node>, s: seq<State>, i: nat, dx: real, dy: real, h: Host)
    requires HostOk(h) && Fits(g, s) && i < |g| && g[i].kind.PointK? && |DepsOf(g, i)| >= 2
    ensures var shifted := Add(s[i].pos, Vec(dx, dy));
      var c := Candidates(g, s, i, h);
      var r := Update(g, s, i, dx, dy, h);
      (c.Fault? ==> !r.ok) &&
      (c.Have? && |c.pts| > 0 ==>
         r.st[i].pos == c.pts[ArgNearest(c.pts, shifted, h)] &&
         r.st[i].hidden == (s[i].hidden && AnyDepHidden(g, s, i))) &&
      ((c.Start? || (c.Have? && |c.pts| == 0)) && !s[i].hidden ==>
         r.st[i].pos == g[i].kind.init && r.st[i].hidden) &&
      ((c.Start? || (c.Have? && |c.pts| == 0)) && s[i].hidden ==>
         r.st[i].pos == shifted && r.st[i].hidden)
  {
    UpdatePoint(g, s, i, dx, dy, h);
  }

  // ---------------------------------------------------------------------
  // hide(true)

  /** `hide(true)` only ever hides: no flag is cleared, the figure is
      hidden, and, when it was shown, so is each of its dependents. */
  lemma {:induction false} HideTrue(g: seq<Node>, s: seq<State>, i: nat)
    requires Fits(g, s) && i < |g|
    ensures var r := Hide(g, s, i, Some(true));
      r[i].hidden &&
      (forall j :: 0 <= j < |s| && s[j].hidden ==> r[j].hidden) &&
      (!s[i].hidden ==> forall k :: 0 <= k < |Kids(g, i)| ==> r[Kids(g, i)[k]].hidden)
    decreases |g| - i, 1, 0
  {
    if !s[i].hidden {
      var s1 := s[i := s[i].(hidden := true)];
      HideLoopTrue(g, s1, i, 0);
    }
  }

  lemma {:induction false} HideLoopTrue(g: seq<Node>, s: seq<State>, i: nat, k: nat)
    requires Fits(g, s) && i < |g| && s[i].hidden
    ensures var r := HideLoop(g, s, i, k);
      (forall j :: 0 <= j < |s| && s[j].hidden ==> r[j].hidden) &&
      (forall m :: k <= m < |Kids(g, i)| ==> r[Kids(g, i)[m]].hidden)
    decreases |g| - i, 0, |Kids(g, i)| - k
  {
    if k < |Kids(g, i)| {
      var d := Kids(g, i)[k];
      var s1 := Hide(g, s, d, Some(true));
      assert HideLoop(g, s, i, k) == HideLoop(g, s1, i, k + 1);
      HideTrue(g, s, d);
      assert s1[i].hidden;
      HideLoopTrue(g, s1, i, k + 1);
    }
  }
}
