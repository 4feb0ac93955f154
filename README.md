# Bike-fit simulator core in Dafny

This project models the core of a bike-fit simulator. The simulator draws a rider on a bicycle from three dictionaries: the bike's geometry, the rider's body measurements (anthropometry) and the fit settings (seat height, stem height, shifter angle, saddle offset). The model covers the following parts.

- **The constraint-geometry engine** (`geometry-classes.js`). Points, lines, segments, circles, arcs and angles are figures. Each figure depends on the figures it was built from. A drag moves one figure, and the change cascades through its dependents. A point that depends on two figures snaps to the intersection nearest to it. If no intersection exists, the point hides. Angles are measured and coloured against a valid range.
- **The construction helpers** (`geometry-helpers.js`). They build vertical and horizontal guides, perpendiculars, parallels, angled lines and the middle perpendicular.
- **The two drawers.** `canvas_drawer.js` and `app.js` each compute a canvas scale, scale the parameter dictionaries and clear the engine. Only `canvas_drawer.js` sets the drag step limit.
- **Reading the fit back** (`getFitSettings`). It belongs to the interface classes: `Interface` in `app.js` and in `canvas_interface.js`, whose two copies are identical. It reads the fit back from the figures a drawer has drawn.
- **The server side**:
  - the conversion of anthropometry from centimetres (`fit_service.add_anthro`);
  - the fit, bike and authentication validators;
  - the error handler;
  - the in-memory store (`MockDAO`).
- **Tooltip placement** (`tooltip-position.js`).

## How the model is built

- **The engine** is an arena. The figures' fixed parts (kind, dependencies, flags, valid range) are a `seq<Node>`. Their changing parts (position or geometry, visibility, colour, value) are a `seq<State>`. Indices stand in for object references.
- **The engine's classes.** `Engine.Scene` is the class that owns the arena and the id counters. Its methods construct, move and clear figures. Each method is proved against the pure functions in `Cascade` and `Registry`, and the facts about those functions are proved as lemmas.
- **Numbers** are exact reals. Square roots and the trigonometric functions come in through a `Host` value. `HostOk` states what the model assumes of them: `sqrt` is the exact non-negative root of a non-negative argument, `atan2` lies in (-PI, PI], and cos² + sin² = 1. Where the JavaScript computes NaN, or throws, the model returns `None` or an `Outcome` whose `ok` flag is false.
- **Python values** (`None`, booleans, integers, floats, strings, dictionaries) are the datatype `PyValues.Value`. A request is a `map<string, Value>`.
- **Hiding follows the code.** `hide(false)` shows a point again as soon as none of its dependencies is hidden. The point does not remember that its own constraint had no solution.
- **The store** is the class `MockDao.MockDb`. Its tables are sequences of rows, and its counters are a map from table to next id. Every method keeps the store's invariant: ids increasing and below the counter, and unique keys where the Python code looks rows up by key.

## Model

| member | source | states |
|---|---|---|
| Geometry.Normalize | app/static/js/geometry-classes.js:711 | normalising to a length gives a vector of that length on the same line; the zero vector stays zero |
| Geometry.WrapDegreesIsMod360 | app/static/js/geometry-classes.js:637-638 | the double remainder maps every angle, negative ones included, to its representative in [0, 360) |
| Geometry.InSweepIsTurn | app/static/js/geometry-classes.js:641-646 | the arc's sweep test holds exactly when the turn from the start to the angle is at most the turn from the start to the end |
| Angles.ReduceTurn | app/static/js/geometry-classes.js:830-833 | the turn differs from the raw difference by at most one full turn and lies in (-PI, PI] |
| Angles.AngleValue | app/static/js/geometry-classes.js:820-836 | an angle's value in degrees lies in [0, 180] |
| Angles.Classify | app/static/js/geometry-classes.js:838-846 | the colour is red exactly outside the range, green exactly inside the middle half, and orange otherwise |
| Angles.ClassifyBands | app/static/js/geometry-classes.js:838-846 | on a proper range, green is the middle half, orange the two outer quarters, and red everything outside the range |
| Angles.AngleColour | app/static/js/geometry-classes.js:838-846 | an angle without a valid range keeps its colour; with a range it is classified |
| Straight.LineParam | app/static/js/geometry-classes.js:510-517 | the projection parameter t satisfies t·‖b−a‖² = (p−a)·(b−a); it is undefined exactly when the line has zero length |
| Straight.LineClosest | app/static/js/geometry-classes.js:510-519 | the closest point of a line is the foot of the perpendicular from p, at the projection parameter; it is undefined for a zero-length line |
| Straight.LineClosestIsNearest | app/static/js/geometry-classes.js:510-519 | no point of the line is nearer to p than the projection |
| Straight.SegmentClosest | app/static/js/geometry-classes.js:548-559 | a segment's closest point is the projection when its parameter lies in [0, 1]; otherwise it is the nearer end |
| Straight.OnSegmentStays | app/static/js/geometry-classes.js:548-559 | a point of a segment of positive length is its own closest point, so the segment leaves it where it is |
| Intersection.LineLine | app/static/js/geometry-classes.js:147-171 | two lines meet in at most one point; there is one exactly when they are not parallel and both segments admit the parameters; that point lies on both lines |
| Intersection.LinesMeet | app/static/js/geometry-classes.js:158-170 | the point at parameter t on the first line is the point at parameter u on the second |
| Intersection.PushIfValid | app/static/js/geometry-classes.js:194-197 | a root is kept exactly when the segment admits its parameter, and it is kept as the point at that parameter |
| Intersection.LineCircle | app/static/js/geometry-classes.js:174-203 | a line and a circle have no points when the discriminant is negative, and at most two otherwise; the result is undefined when the line has zero length and the discriminant is not negative; every point is the point at a root the segment admits; a second point comes only from roots more than 1e-9 apart; a line that meets the circle always yields a point, and a segment that admits the first root yields that root's point |
| Intersection.RootOnCircle | app/static/js/geometry-classes.js:180-197 | a root of the quadratic gives a point on the circle |
| Intersection.RootsSolve | app/static/js/geometry-classes.js:187-190 | both computed roots solve the quadratic |
| Intersection.RootsOnCircle | app/static/js/geometry-classes.js:187-197 | the points at both computed roots lie on the circle |
| Intersection.LineCircleOnCircle | app/static/js/geometry-classes.js:174-203 | every line–circle intersection point lies on the circle |
| Intersection.CircleCircle | app/static/js/geometry-classes.js:114-144 | two circles meet in at most two points, and in none when the centres coincide, lie too far apart, or one circle lies inside the other; centres at least 1e-9 apart whose circles neither miss nor nest within the tolerance give at least one point |
| Intersection.FootDistance | app/static/js/geometry-classes.js:129 | the foot of the common chord lies at the distance a from the first centre that solves the radical-line equation a·2d = r1² − r2² + d² |
| Intersection.ChordEnds | app/static/js/geometry-classes.js:133-142 | there are one or two chord ends, two exactly when the half chord is at least 1e-9; below that, the answer is the foot point alone |
| Intersection.CircleCircleOnCircles | app/static/js/geometry-classes.js:114-144 | both points of a two-point answer lie on both circles |
| Intersection.TwoPoints | app/static/js/geometry-classes.js:125-142 | a two-point answer has centres at least 1e-9 apart and a half chord of at least 1e-9, and it is the pair of chord ends |
| Intersection.ChordEndsOnCircles | app/static/js/geometry-classes.js:129-142 | the chord ends lie on both circles whenever a solves the radical-line equation and the half chord squared is r1² − a² |
| Intersection.ChordPointOnCircles | app/static/js/geometry-classes.js:133-141 | a point a along the line of centres and k across it, with k² = r1² − a², lies on both circles |
| Intersection.ChordScalar | app/static/js/geometry-classes.js:129-141 | the algebra behind it: turning (a, k) by the unit direction of the line of centres keeps the length r1, and (a − d, k) the length r2 |
| Intersection.RotationKeepsLength | app/static/js/geometry-classes.js:139-141 | turning a pair by a unit vector keeps its length |
| Intersection.HalfChordSquare | app/static/js/geometry-classes.js:130-131 | a half chord of at least 1e-9 is the root of r1² − a² itself, not of the clamped 0 |
| Intersection.Intersect | app/static/js/geometry-classes.js:85-206 | any pair involving a kind the JavaScript does not intersect gives no points; every answer has at most two points; two lines always give an answer of at most one point |
| Intersection.IntersectLineCircleOnCircle | app/static/js/geometry-classes.js:174-177 | a line and a circle give points on the circle whichever order they come in |
| Round.CircleClosest | app/static/js/geometry-classes.js:399-410 | a circle's closest point lies on the circle, on the ray from the centre through p; from the centre itself, it is the point one radius to the right |
| Round.CircleClosestOnCircle | app/static/js/geometry-classes.js:399-410 | every closest point a circle offers lies on it |
| Round.PointOnCircleOnCircle | app/static/js/geometry-classes.js:586-592 | the point at a given angle and radius lies on the circle |
| Round.DirectionDegrees | app/static/js/geometry-classes.js:636-639 | the projection's direction, corrected for negative angles, lies in [0, 360) |
| Round.ArcClosest | app/static/js/geometry-classes.js:625-655 | an arc's closest point is the projection on its circle or, failing that, the end point nearer to the projection, the end angle's on a tie; no end is nearer to the projection than the one chosen; from the centre itself, it is the start end |
| Round.ArcKeepsProjectionWithinSweep | app/static/js/geometry-classes.js:636-649 | the arc keeps the projection when the turn from the start angle to it is at most the arc's sweep, whatever the signs and sizes of the angles |
| Round.ArcLeavesProjectionOutsideSweep | app/static/js/geometry-classes.js:648-654 | when the turn from the start angle to the projection is longer than the sweep, the arc answers with the start end when it is strictly nearer to the projection, and with the end end otherwise |
| Round.ArcClosestOnCircle | app/static/js/geometry-classes.js:625-655 | every closest point an arc offers lies on its circle |
| Round.Circumcenter | app/static/js/geometry-classes.js:744-763 | there is no circumcentre exactly when the determinant of the three points is below 1e-9 in magnitude |
| Round.CircumcenterEquidistant | app/static/js/geometry-classes.js:744-763 | the circumcentre is equally far from the three points |
| Round.Arc3Closest | app/static/js/geometry-classes.js:702-742 | an arc through three points answers exactly when they have a circumcentre; from the centre itself it answers with the first point; it keeps the projection on the circumcircle when that lies on the side of the chord p1–p3 where p2 lies, and otherwise answers with the nearer of p1 and p3, p3 on a tie |
| Round.ProjectionOnCircumcircle | app/static/js/geometry-classes.js:706-711 | the projection at the radius of the first point is as far from the centre as that point |
| Round.Arc3ClosestOnCircle | app/static/js/geometry-classes.js:702-742 | every closest point of an arc through three points lies on the circle through them |
| Drag.DragReachesNearTarget | app/static/js/geometry-classes.js:340-350 | a target no farther than the step limit is reached exactly |
| Drag.FarDeltaIsScaled | app/static/js/geometry-classes.js:343-347 | the step toward a farther target is the way to it, scaled by the step limit over its length |
| Drag.DragStepsTowardFarTarget | app/static/js/geometry-classes.js:340-350 | a farther target is approached by exactly the step limit, straight toward it |
| Drag.DragAtTargetIsStill | app/static/js/geometry-classes.js:347-349 | a point already at the target takes no step |
| Figures.DepsOf | app/static/js/geometry-classes.js:15-21 | a figure's dependencies were all built before it |
| Figures.Kids | app/static/js/geometry-classes.js:16-20 | a figure's dependents were all built after it |
| Figures.ClosestValid | app/static/js/geometry-classes.js:81-83 | points, circles by centre and edge, and angles give back the position asked for; circles and arcs always answer, with the point their own closest-point method offers; a line answers unless it has zero length; an arc through three points answers exactly when they have a circumcentre |
| Figures.ClosestValidOnCircle | app/static/js/geometry-classes.js:399-410 | the point a circle or an arc offers lies on its circle, at the radius the figure holds |
| Figures.GeomOf | app/static/js/geometry-classes.js:91-113 | only circles, circles by centre and edge, and lines take part in intersections; a line keeps its segment flag |
| Cascade.Hide | app/static/js/geometry-classes.js:36-63 | hiding changes only hidden flags, and none of the figures before the one hidden; without an argument nothing changes |
| Cascade.HideLoop | app/static/js/geometry-classes.js:59-62 | passing the flag on to the dependents changes only hidden flags, and only of later figures |
| Cascade.Filter | app/static/js/geometry-classes.js:285-294 | the candidates kept are exactly those near some new intersection point, in their order |
| Cascade.Step | app/static/js/geometry-classes.js:279-295 | a pair whose intersection is undefined makes the search fail; a pair without points changes nothing; the first pair with points gives the candidates; later pairs only shrink them |
| Cascade.FoldPairs | app/static/js/geometry-classes.js:277-297 | over all pairs of dependencies, candidates only shrink and a failure is final |
| Cascade.ArgNearest | app/static/js/geometry-classes.js:299-303 | the candidate chosen is nearest to the point's position, and the first of the nearest, as a stable sort leaves it |
| Cascade.Resolve | app/static/js/geometry-classes.js:270-312 | a free point goes where it is shifted; a point on one figure goes to that figure's closest point, or the update fails when there is none |
| Cascade.Update | app/static/js/geometry-classes.js:259-337 | an update keeps the number of figures and leaves every figure built before the updated one as it was |
| Cascade.PointUpdate | app/static/js/geometry-classes.js:259-312 | a point's update (shift and resolution, then the rest as Cascade.Settle) keeps the number of figures and every figure built before the point; a failed resolution stops with the point at its shifted position |
| Cascade.Settle | app/static/js/geometry-classes.js:313-337 | placing the resolved point, passing the delta to dependent points and then their plain updates keeps the number of figures and every figure built before the point |
| Cascade.Own | app/static/js/geometry-classes.js:819-846 | an update of a figure other than a point keeps its position and hidden flag; an angle's value lies in [0, 180] and its colour is classified against its range; radii are never negative |
| Cascade.DeltaLoop | app/static/js/geometry-classes.js:330-334 | passing the delta on keeps the number of figures and leaves the figure and everything before it as they were |
| Cascade.PlainLoop | app/static/js/geometry-classes.js:30-34 | updating the dependents keeps the number of figures and leaves the figure and everything before it as they were |
| Cascade.Move | app/static/js/geometry-classes.js:340-350 | a move keeps the number of figures |
| CascadeFacts.UpdatePoint | app/static/js/geometry-classes.js:259-312 | after an update a point sits where the resolution of its shifted position put it, with the flag its hide call gave it, and its dependents never move it again; a failed resolution stops the cascade with the point at its shifted position |
| CascadeFacts.FreePointMovesByDelta | app/static/js/geometry-classes.js:263-266 | a point without dependencies moves by exactly the delta and keeps its hidden flag |
| CascadeFacts.OneDependencyPoint | app/static/js/geometry-classes.js:270-271 | a point on one figure goes to that figure's closest point to its shifted position, and the cascade stops where there is none |
| CascadeFacts.PointOnPointFollowsDelta | app/static/js/geometry-classes.js:81-83 | a point whose only dependency is a point moves by exactly the delta |
| CascadeFacts.SeveralDependenciesPoint | app/static/js/geometry-classes.js:272-312 | a point on several figures fails on an undefined intersection; it goes to the first nearest candidate and is shown again when its dependencies allow it; without candidates, a shown point goes back to where it was built and hides, and a hidden one stays where it was shifted |
| CascadeFacts.HideTrue | app/static/js/geometry-classes.js:36-63 | hiding never shows a figure; the figure ends hidden, and when it was shown, so do its dependents |
| CascadeFacts.HideLoopTrue | app/static/js/geometry-classes.js:59-62 | passing a true flag on hides every remaining dependent and shows none |
| Engine.ClearedCounters | app/static/js/app.js:116-127 | clearing sets every class counter back to 0 except CircleByCenterEdge's, which keeps its value |
| Engine.Bump | app/static/js/geometry-classes.js:211-212 | taking an id raises its class's counter by one and leaves the other counters alone |
| Engine.AngleIdsAreFresh | app/static/js/geometry-classes.js:770-804 | the ids an angle and its two segments take are new and distinct, and the counters stay above every number issued |
| Engine.NewIdIsFresh | app/static/js/geometry-classes.js:211-212 | the id a figure takes from its class's counter is one no figure has, and the raised counter stays above every number |
| Engine.Scene.constructor | app/static/js/geometry-classes.js:5-7 | a new scene has no figures, every counter at 0 and no step limit set |
| Engine.Scene.AnyDependencyHidden | app/static/js/geometry-classes.js:41-47 | the loop that stops at the first hidden dependency answers whether any dependency is hidden |
| Engine.Scene.HideFigure | app/static/js/geometry-classes.js:36-63 | the recursive hide on the scene leaves the states the hide function describes |
| Engine.Scene.NearAny | app/static/js/geometry-classes.js:287-291 | the minimum-distance loop answers whether some new intersection point lies within the threshold |
| Engine.Scene.FilterNear | app/static/js/geometry-classes.js:285-294 | the filtering loop keeps exactly the candidates the filter function keeps |
| Engine.Scene.AllIntersections | app/static/js/geometry-classes.js:277-297 | the double loop over pairs of dependencies computes the candidates of the fold over all pairs |
| Engine.Scene.Nearest | app/static/js/geometry-classes.js:300-303 | the scan picks the first nearest candidate |
| Engine.Scene.ResolvePoint | app/static/js/geometry-classes.js:270-312 | the point's resolution on the scene is the one the resolution function gives |
| Engine.Scene.UpdateFigure | app/static/js/geometry-classes.js:259-337 | an update on the scene leaves the state and the success flag of the cascade function |
| Engine.Scene.UpdatePoint | app/static/js/geometry-classes.js:259-337 | a point's update on the scene leaves the state and the success flag of the point's cascade function |
| Engine.Scene.SettlePoint | app/static/js/geometry-classes.js:313-337 | placing the resolved point and updating its dependents on the scene leaves the state and the success flag of the settle function |
| Engine.Scene.PassDelta | app/static/js/geometry-classes.js:330-334 | passing the delta to dependent points on the scene matches the delta loop function |
| Engine.Scene.UpdateDependents | app/static/js/geometry-classes.js:30-34 | updating every dependent on the scene matches the plain loop function |
| Engine.Scene.MoveFigure | app/static/js/geometry-classes.js:340-350 | a move on the scene, with the scene's step limit, matches the move function |
| Engine.Scene.Enrol | app/static/js/geometry-classes.js:9-27 | the figure constructor's registration appends the new figure and links it to its dependencies as the register function does |
| Engine.Scene.LinkDependencies | app/static/js/geometry-classes.js:18-22 | the loop pushes the new figure onto each dependency and reports whether any dependency is hidden |
| Engine.Scene.AddPoint | app/static/js/geometry-classes.js:210-248 | a new point takes the next id of its class and is built and resolved as the point construction function describes; the scene's invariant holds after it |
| Engine.Scene.BuildPoint | app/static/js/geometry-classes.js:213-248 | the point constructor on the arena matches the point construction function |
| Engine.Scene.TakeId | app/static/js/geometry-classes.js:211-212 | a constructor's id is its class's counter value, which then goes up, and ids stay fresh |
| Engine.Scene.AddFigure | app/static/js/geometry-classes.js:355-677 | a new figure other than a point or an angle takes the next id of its class (Line's for a segment) and is built as the figure construction function describes |
| Engine.Scene.BuildFigure | app/static/js/geometry-classes.js:355-677 | the constructor of such a figure on the arena matches the figure construction function |
| Engine.Scene.AddAngle | app/static/js/geometry-classes.js:769-807 | a new angle takes its id before its segments take theirs, and is built, linked and measured as the angle construction function describes |
| Engine.Scene.TakeAngleIds | app/static/js/geometry-classes.js:770-804 | an angle takes one id, or three with its segments, in that order |
| Engine.Scene.BuildAngle | app/static/js/geometry-classes.js:769-807 | the angle constructor on the arena matches the angle construction function |
| Engine.Scene.ArrangeAngle | app/static/js/geometry-classes.js:769-805 | the angle constructor up to its update leaves the arena the angle arena function describes |
| Engine.Scene.BuildSegments | app/static/js/geometry-classes.js:801-804 | the two dashed segments are built as the angle segments function describes |
| Engine.Scene.Measure | app/static/js/geometry-classes.js:806 | the closing update of an angle's constructor leaves the measured state |
| Engine.Scene.EnrolAngle | app/static/js/geometry-classes.js:770-782 | an angle's registration and its second pushes match the angle registration function |
| Engine.Scene.PushOntoPoints | app/static/js/geometry-classes.js:779-781 | the second pushes onto the three points match the push function |
| Engine.Scene.Clear | app/static/js/app.js:116-127 | clearing removes every figure, resets the counters except CircleByCenterEdge's and keeps the step limit |
| Engine.Scene.SetMaxStep | app/static/js/canvas_drawer.js:88 | the step limit becomes the base constant times the scale |
| Registry.PushDependent | app/static/js/geometry-classes.js:20 | a push appends the new figure to one figure's dependents and changes nothing else |
| Registry.PushAllPushed | app/static/js/geometry-classes.js:19-22 | the new figure is pushed onto each dependency in turn, and nothing but dependents lists changes |
| Registry.DefaultColour | app/static/js/geometry-classes.js:11 | a figure keeps a non-empty colour it is given; otherwise it is blue when moveable and grey when not |
| Registry.RegisterKeepsWellFormed | app/static/js/geometry-classes.js:9-27 | registering a figure whose dependencies exist keeps every link between figures consistent |
| Registry.PushAgainKeepsWellFormed | app/static/js/geometry-classes.js:779-781 | the angle's second round of pushes keeps the links consistent, since it pushes only onto figures the angle depends on |
| Registry.Register | app/static/js/geometry-classes.js:9-27 | registration appends exactly one new figure and leaves the older figures as they were, except for their dependents lists |
| Registry.ConstructPoint | app/static/js/geometry-classes.js:210-248 | a new point is appended; older figures keep their state and change only their dependents lists |
| Registry.ConstructFigure | app/static/js/geometry-classes.js:355-677 | a new figure is appended; the only figures whose links change are its dependencies |
| Registry.UpdateWithoutDependents | app/static/js/geometry-classes.js:30-34 | updating a figure that is not a point and has no dependents recomputes only its own state, and it cannot fail |
| Registry.DashedSegment | app/static/js/geometry-classes.js:801-802 | a dashed segment changes no earlier state and no figure but its two ends |
| Registry.AngleSegments | app/static/js/geometry-classes.js:801-804 | an angle's two segments add two figures and change no figure but the angle's three points |
| Registry.ConstructAngle | app/static/js/geometry-classes.js:769-807 | a new angle adds one figure, or three with its segments; its value lies in [0, 180] and its colour is classified against its range |
| Registry.AngleArena | app/static/js/geometry-classes.js:769-805 | before its update, the angle is registered without dependents and followed by its segments |
| Registry.MeasureAngle | app/static/js/geometry-classes.js:819-846 | measuring changes only the angle, whose value lies in [0, 180] and whose colour is classified |
| Registry.RegisterAngle | app/static/js/geometry-classes.js:770-782 | registering an angle adds one figure on three existing points, between which dashed segments may be built |
| Registry.PushAgain | app/static/js/geometry-classes.js:779-781 | the second pushes keep the arena well formed and change only dependents lists |
| Helpers.ParallelEnds | app/static/js/geometry-helpers.js:68-77 | the parallel takes first the end of the line strictly nearer the anchor, and the line's second end on a tie |
| Helpers.TurnSign | app/static/js/geometry-helpers.js:101-104 | the side factor is 1 or -1 |
| Helpers.TurnSignByTurn | app/static/js/geometry-helpers.js:101-104 | the side factor is -1 exactly when the angle, taken modulo whole turns, lies strictly between 180 and 360 degrees |
| Helpers.BisectorGuesses | app/static/js/geometry-helpers.js:121-122 | the two starting guesses are symmetric about the midpoint of the two points, on the perpendicular to the line through them |
| Helpers.GuessesOnBisector | app/static/js/geometry-helpers.js:121-122 | each guess is as far from one point as from the other |
| Helpers.PointOnPointStays | app/static/js/geometry-helpers.js:15-21 | a point built on a single point can be constructed, and its update succeeds and leaves it where it was built |
| Helpers.AxisArena | app/static/js/geometry-helpers.js:13-31 | an axis line adds a hidden point offset from the anchor by the direction and bound to it, then the line from the anchor to that point |
| Helpers.AxisLine | app/static/js/geometry-helpers.js:13-51 | the horizontal and vertical guides on the scene leave the arena the axis function describes and keep the scene's invariant |
| Helpers.HLine | app/static/js/geometry-helpers.js:33-51 | the horizontal guide runs from the anchor to a hidden point one unit to its right |
| Helpers.VLine | app/static/js/geometry-helpers.js:13-31 | the vertical guide runs from the anchor to a hidden point one unit below it |
| Helpers.Perpendicular | app/static/js/geometry-helpers.js:53-61 | a successful perpendicular adds seven figures and ends with the line from the last construction point to the anchor |
| Helpers.PerpendicularGuides | app/static/js/geometry-helpers.js:54-58 | the perpendicular's construction first adds five figures: a circle about the anchor, two points on the line and two circles about them |
| Helpers.BisectorPoints | app/static/js/geometry-helpers.js:117-122 | the middle perpendicular's two construction points start at the symmetric guesses |
| Helpers.MiddlePerpendicular | app/static/js/geometry-helpers.js:117-124 | a successful middle perpendicular ends with the line through the two points started at the symmetric guesses |
| Helpers.Parallel | app/static/js/geometry-helpers.js:67-90 | a successful parallel adds eleven figures and ends with the line from the anchor to the last construction point, built from the ends the end choice puts first |
| Helpers.ParallelReflect | app/static/js/geometry-helpers.js:83-89 | the parallel's reflection step adds nine figures, among them the line from the near end through the reflected point and a circle about that point |
| Helpers.ParallelLine | app/static/js/geometry-helpers.js:88-89 | the parallel's last step adds two figures and ends with the line from the anchor to the point just added |
| Helpers.ParallelGuides | app/static/js/geometry-helpers.js:78-82 | the parallel's guides add six figures, the middle line second from last |
| Helpers.AngledLine | app/static/js/geometry-helpers.js:92-115 | a successful angled line adds six figures and ends with the line from the second point to the last construction point |
| Helpers.AngledAnchor | app/static/js/geometry-helpers.js:96-98 | the angled line's anchor is a point added after a circle about the second point and the line through both points |
| Anthro.AddAnthro | app/services/fit_service.py:5-27 | the sole height is 45 mm and the torso's middle and lowest angles are 45 and 10 degrees, whatever the measurements |
| Anthro.RestoreAddAnthro | app/services/fit_service.py:6-27 | the conversion loses no measurement: each input can be read back from the converted dictionary |
| Anthro.CentimetresToMillimetres | app/services/fit_service.py:7-23 | the hip, lower leg, longest torso, upper arm and forearm are the centimetre inputs times ten |
| Anthro.TorsoOrdered | app/services/fit_service.py:16-18 | for a positive torso length, the three torso lengths are strictly ordered, shortest at the most bent posture |
| Anthro.FootTriangle | app/services/fit_service.py:10-12 | for a positive foot length, heel, ankle and ball of the foot form a proper triangle |
| Anthro.HeightFeedsThree | app/services/fit_service.py:8-26 | the height feeds only the hip joint offset, the neck length and the head radius |
| Anthro.FootFeedsFour | app/services/fit_service.py:10-13 | the four foot entries depend on the foot length alone |
| Tooltip.PositionTooltip | app/static/js/tooltip-position.js:26-92 | the image fits within min(350, 40% of the viewport) on each axis and keeps its aspect ratio. It sits right of the icon when that fits, else left of it; when that crosses the left margin it is centred in the viewport, but never left of the margin. It is vertically centred unless that crosses the bottom margin, and never above the top margin |
| Tooltip.FitImage | app/static/js/tooltip-position.js:36-61 | with a natural size the image keeps its aspect ratio, stays within both limits and fills one of them; without one it takes the limits |
| PyValues.Get | app/validators/fit_validator.py:39 | a missing key reads as None |
| PyValues.PyEqReflexive | app/models/mock_dao.py:128 | Python equality holds between every value and itself |
| PyValues.PyEqSymmetric | app/models/mock_dao.py:265 | Python equality is symmetric |
| PyValues.PyEqAcrossKinds | app/models/mock_dao.py:276 | True equals 1 and 1 equals 1.0, also inside lists; a string equals only that string, and None only None |
| PyValues.ToFloat | app/validators/bike_validator.py:98 | a number converts to itself; a value that is neither a number nor a string does not convert |
| PyValues.StripIsSlice | app/validators/bike_validator.py:163 | stripping removes whitespace from the ends only: the result is a slice of the input with whitespace at neither end |
| PyValues.StripFixed | app/validators/bike_validator.py:163 | a string without whitespace at either end strips to itself, and whitespace alone strips to the empty string |
| PyValues.StripIdempotent | app/validators/bike_validator.py:163 | stripping twice strips nothing more |
| Validation.ValidationResult.constructor | app/validators/fit_validator.py:9-13 | a new result is valid, with no errors and no data |
| Validation.ValidationResult.AddError | app/validators/fit_validator.py:15-17 | adding an error appends it and makes the result invalid |
| FitValidator.BasicErrorNone | app/validators/fit_validator.py:41-48 | a field passes its basic check exactly when it is a number within its limits |
| FitValidator.BasicErrorsEmpty | app/validators/fit_validator.py:38-48 | the loop over the field table reports nothing exactly when every field passes |
| FitValidator.BasicErrorsPerField | app/validators/fit_validator.py:38-48 | each field gets exactly one basic error when its check fails and none otherwise |
| FitValidator.NoErrorsElsewhere | app/validators/fit_validator.py:38-48 | the basic checks report no error under a name outside the field table |
| FitValidator.BodyOf | app/validators/fit_validator.py:45-55 | the body read from data that passed the basic checks has every length at least its lower limit |
| FitValidator.RatioErrorsEmpty | app/validators/fit_validator.py:57-97 | a ratio check passes exactly when the value lies between its two fractions of the height |
| FitValidator.RatioChecksPass | app/validators/fit_validator.py:54-97 | the ratio checks report nothing exactly when every ratio is plausible |
| FitValidator.ArmsDifferEmpty | app/validators/fit_validator.py:111-116 | the arm check passes exactly when upper arm and forearm differ by at most a tenth of their sum |
| FitValidator.ArmsTorsoEmpty | app/validators/fit_validator.py:118-124 | the arms-against-torso check passes exactly when the two arm segments together differ from the torso by at most 30% of the torso |
| FitValidator.LegsEmpty | app/validators/fit_validator.py:126-135 | the leg check passes exactly when hip plus lower leg lies between 45% and 55% of the height in millimetres |
| FitValidator.CrossChecksPass | app/validators/fit_validator.py:99-135 | the cross checks report nothing exactly when every cross relation holds |
| FitValidator.ProportionsPass | app/validators/fit_validator.py:54-135 | the proportion checks report nothing exactly on plausible bodies |
| FitValidator.CrossChecksNameEveryField | app/validators/fit_validator.py:101-124 | a failed cross check reports an error under every field it involves |
| FitValidator.AnthropometryAccepted | app/validators/fit_validator.py:19-140 | anthropometry is accepted exactly when the data is non-empty, every field is a number within its limits and the body is plausible |
| FitValidator.ValidateAnthropometry | app/validators/fit_validator.py:19-140 | the validator reports the errors of the anthropometry checks, and keeps the data exactly when it is valid |
| FitValidator.CheckFields | app/validators/fit_validator.py:38-48 | the field loop reports the basic errors of the field table |
| FitValidator.CheckProportions | app/validators/fit_validator.py:54-135 | the proportion checks append the ratio errors, then the cross errors |
| FitValidator.CheckRatios | app/validators/fit_validator.py:54-97 | the ratio checks append the ratio errors |
| FitValidator.CheckRatio | app/validators/fit_validator.py:57-62 | one ratio check appends that ratio's errors |
| FitValidator.CheckCross | app/validators/fit_validator.py:99-135 | the cross checks append the cross errors |
| FitValidator.CheckLegFoot | app/validators/fit_validator.py:101-104 | the leg-against-foot check appends its errors |
| FitValidator.CheckTorsoLeg | app/validators/fit_validator.py:106-109 | the torso-against-leg check appends its errors |
| FitValidator.CheckArmsDiffer | app/validators/fit_validator.py:111-116 | the arm check appends its errors |
| FitValidator.CheckArmsTorso | app/validators/fit_validator.py:118-124 | the arms-against-torso check appends its errors |
| FitValidator.CheckLegs | app/validators/fit_validator.py:126-135 | the leg length check appends its errors |
| FitValidator.SettingErrorsEmpty | app/validators/fit_validator.py:160-184 | the settings loop reports nothing exactly when every setting passes |
| FitValidator.NumericSettingsPresenceOnly | app/validators/fit_validator.py:160-184 | a numeric setting fails exactly when it is missing; its range is not checked |
| FitValidator.FitSettingsAccepted | app/validators/fit_validator.py:142-184 | a fit is accepted exactly when every field is present, the stripped name has 1 to 100 characters and the size is a positive int |
| FitValidator.SettingsData | app/validators/fit_validator.py:186-195 | a passing fit is stored with exactly the keys size_id, name and the five numeric fields: its size as given, its name stripped and every numeric field converted to a float; a conversion that raises gives no data |
| FitValidator.SettingsDataIdempotent | app/validators/fit_validator.py:186-195 | building the stored data again from stored data changes nothing |
| FitValidator.ValidateFitSettings | app/validators/fit_validator.py:142-197 | the validator reports the settings errors; a valid fit raises exactly when a conversion fails |
| FitValidator.FitRequestAccepted | app/validators/fit_validator.py:206-217 | a fit request passes exactly when it names a fit by a non-blank string and a size by a positive int |
| FitValidator.ValidateFitRequest | app/validators/fit_validator.py:199-224 | the validator reports the request errors and, when valid, keeps the stripped fit name and the size |
| BikeValidator.SizesOut | app/validators/bike_validator.py:82-148 | the loop leaves each size as its own parameter checks rewrite it, in order |
| BikeValidator.ValidateBikeData | app/validators/bike_validator.py:18-153 | the validator reports the errors of every size; the sizes come back rewritten, and they are kept as data exactly when valid |
| BikeValidator.CheckSizesOf | app/validators/bike_validator.py:82-148 | the loop over sizes appends every size's errors and leaves the rewritten sizes |
| BikeValidator.CheckSizeOf | app/validators/bike_validator.py:83-148 | one size's parameter checks and order checks append its errors and rewrite it |
| BikeValidator.CheckParamsOf | app/validators/bike_validator.py:87-121 | the loop over the parameter table checks each parameter in turn |
| BikeValidator.CheckParamOf | app/validators/bike_validator.py:88-121 | one pass checks one parameter |
| BikeValidator.CheckOrder | app/validators/bike_validator.py:124-148 | the order check appends an error when a minimum exceeds its maximum |
| BikeValidator.DefaultsSkipRange | app/validators/bike_validator.py:91-93 | a missing or blank optional parameter takes its default and reports nothing, even where the default lies outside its range |
| BikeValidator.MissingRequiredIsSilent | app/validators/bike_validator.py:91-96 | a missing required parameter is left alone and reports nothing |
| BikeValidator.PresentParamOneError | app/validators/bike_validator.py:96-121 | a present parameter reports at most one error, under its indexed name; it reports none exactly when it converts and lies within range, and a converted value is written back |
| BikeValidator.FieldNamesDistinct | app/validators/bike_validator.py:103 | two sizes never report under the same field name: the bare name of the first size and the indexed names of the later ones are all distinct |
| BikeValidator.NatToStringRoundTrip | app/validators/bike_validator.py:103 | the decimal index in a field name reads back as the index |
| BikeValidator.SizesPass | app/validators/bike_validator.py:82-148 | the sizes pass exactly when every size passes its parameter and order checks |
| BikeValidator.ModelAccepted | app/validators/bike_validator.py:159-168 | a model name passes exactly when it is a string with 2 to 100 characters once stripped; a falsy model of any kind (None, 0, False, an empty list) is reported as required |
| BikeValidator.ValidateBikeModel | app/validators/bike_validator.py:155-172 | the validator reports the model errors and, when valid, keeps the stripped name |
| AuthValidator.MatchesWordStripped | app/validators/auth_validator.py:36 | on a stripped name, the word pattern matches exactly a non-empty run of word characters |
| AuthValidator.Lower | app/validators/auth_validator.py:60 | lower-casing maps every character and keeps the length |
| AuthValidator.UsernameAccepted | app/validators/auth_validator.py:29-41 | a username passes exactly when, stripped, it has 3 to 50 word characters, neither starts nor ends with an underscore and holds no double underscore |
| AuthValidator.PasswordAccepted | app/validators/auth_validator.py:43-61 | a password passes exactly when it is a string of 8 to 100 characters with a lower-case letter, an upper-case letter, a digit and a special character, no character three times in a row, and does not contain the username, ignoring case |
| AuthValidator.NonStringPasswords | app/validators/auth_validator.py:44-49 | a falsy password of any kind is reported as required, and a list or dictionary password draws the too-short or too-long error by its number of entries |
| AuthValidator.EmptyUsernameFlagsPassword | app/validators/auth_validator.py:60-61 | with an empty username, an otherwise good password is rejected for containing the username |
| AuthValidator.ValidateRegister | app/validators/auth_validator.py:19-66 | the validator reports the registration errors and, when valid, keeps the stripped username and the password |
| AuthValidator.CheckUsername | app/validators/auth_validator.py:29-41 | the username check appends the username's error, if any |
| AuthValidator.CheckPassword | app/validators/auth_validator.py:43-61 | the password check appends the password's error, if any |
| AuthValidator.LoginAccepted | app/validators/auth_validator.py:68-88 | a login passes exactly when the stripped username has 1 to 50 characters and the password is truthy, of whatever kind (a non-empty list passes); the emptiness errors are never reported |
| AuthValidator.ValidateLogin | app/validators/auth_validator.py:68-93 | the validator reports the login errors and, when valid, keeps the stripped username and the password as given |
| ErrorHandler.NewAppError | app/utils/error_handler.py:15-21 | a plain application error has status 400, no field and the given message |
| ErrorHandler.SubclassStatusCodes | app/utils/error_handler.py:24-52 | each error subclass fixes its status: validation 400, not found 404, unauthorised 401, forbidden 403, database 500 |
| ErrorHandler.FormatErrorResponse | app/utils/error_handler.py:55-94 | an error body never reports success; it lists errors exactly for a validation error, and has an error message exactly otherwise; a field it names is non-empty |
| ErrorHandler.FormatErrorResponseCases | app/utils/error_handler.py:55-94 | a validation error lists its errors; another application error gives its message and, when non-empty, its field; any other exception gives the generic message, with details and class name only on request |
| ErrorHandler.NoDetailsByDefault | app/utils/error_handler.py:81-94 | without a request for them, no internal details or class names reach the client |
| ErrorHandler.HandleErrors | app/utils/error_handler.py:97-123 | a route that returns passes its result through; one that raises answers with the formatted error body |
| ErrorHandler.HandledStatusIsStored | app/utils/error_handler.py:104-121 | an application error answers with its own status, and any other exception with 500 |
| ErrorHandler.SafeDatabaseOperation | app/utils/error_handler.py:153-167 | a guarded store call passes its result through, and any exception becomes a database error naming the operation |
| ErrorHandler.GuardedRouteAnswers | app/utils/error_handler.py:160-165 | a guarded route either passes the result through or answers 500 with the operation's failure message |
| ErrorHandler.MissingErrors | app/utils/error_handler.py:140-147 | the required-field loop reports at most one error per listed field |
| ErrorHandler.MissingErrorsSound | app/utils/error_handler.py:142-147 | every reported error names a missing listed field as required |
| ErrorHandler.MissingErrorsComplete | app/utils/error_handler.py:142-147 | every missing listed field is reported |
| ErrorHandler.MissingErrorsExact | app/utils/error_handler.py:140-150 | nothing is reported exactly when every listed field holds a value |
| ErrorHandler.RequestDataAccepted | app/utils/error_handler.py:126-150 | nothing is raised exactly when data is present and, when fields are required, is a dictionary holding a value for each; on missing data or a dictionary what is raised is a validation error; otherwise it may be the TypeError Python raises for the membership test |
| ErrorHandler.ValidateRequestData | app/utils/error_handler.py:126-150 | the request check, which stops at the first field whose membership test raises, raises exactly the error the request data function describes |
| ErrorHandler.ProbeField | app/utils/error_handler.py:143 | on a dictionary a field is absent exactly when it is missing, and the test never raises; whatever it raises is a TypeError |
| ErrorHandler.ScanDictionary | app/utils/error_handler.py:142-147 | on a dictionary the loop never raises and reports exactly the missing fields |
| ErrorHandler.ScanOtherRaises | app/utils/error_handler.py:142-147 | on other data the loop raises exactly when some field's test raises, with the first such field's exception; on a number or True it raises exactly when a field is required |
| ErrorHandler.ScanOtherReportsAll | app/utils/error_handler.py:142-147 | on a string or a list where no test raises, every field is reported as required |
| ErrorHandler.ScanCrashSticks | app/utils/error_handler.py:142-147 | once a field's test raises, the fields after it are not looked at |
| MockDao.Geometry | app/models/mock_dao.py:95-97 | a size row takes every key of the input but the model name, plus the model's id |
| MockDao.MockDb.constructor | app/models/mock_dao.py:9-24 | the new store is empty with every counter at 1 |
| MockDao.MockDb.NextId | app/models/mock_dao.py:26-30 | the next id is the table's counter, which then moves on by one; no table changes |
| MockDao.MockDb.GetUserByUsername | app/models/mock_dao.py:61-62 | the lookup finds a user of that name exactly when there is one |
| MockDao.MockDb.CreateUserAccount | app/models/mock_dao.py:33-53 | a taken username changes nothing and is reported; otherwise one user with the next id and the role "user" is appended |
| MockDao.MockDb.AuthenticateUser | app/models/mock_dao.py:55-59 | a login succeeds exactly when the user exists and the password checks against the stored hash, and gives the user's id and role |
| MockDao.MockDb.AddUserBike | app/models/mock_dao.py:65-124 | without a model name and a size, nothing changes and an error is reported; otherwise the user's model is found or created and the size row is updated or created; the model counter moves on exactly when a model is created, the size counter exactly when no row of that model and size exists, and every other counter keeps its value |
| MockDao.MockDb.FindOrCreateModel | app/models/mock_dao.py:75-93 | the user's model of that name is reused, or a new private, unmoderated model with the next id is appended |
| MockDao.MockDb.UpsertSize | app/models/mock_dao.py:99-118 | the size row of that model and size label is updated in place and no counter moves, or a new row is appended and only the size counter moves on |
| MockDao.MockDb.GetBikeGeometry | app/models/mock_dao.py:126-131 | the lookup finds a size row whose id equals the given one under Python equality exactly when there is one |
| MockDao.MockDb.GetVisibleBikeModels | app/models/mock_dao.py:133-141 | the visible models are exactly the public ones and the user's own |
| MockDao.MockDb.GetUserBikeModels | app/models/mock_dao.py:143-148 | the user's models are exactly those the user owns |
| MockDao.MockDb.GetPendingBikes | app/models/mock_dao.py:150-155 | the pending models are exactly those awaiting moderation |
| MockDao.MockDb.SetBikeVisibility | app/models/mock_dao.py:157-167 | the first model with that id becomes public or private and moderated; an unknown id is an error and changes nothing |
| MockDao.MockDb.SetBikePending | app/models/mock_dao.py:304-317 | only the user's own model with that id is sent to moderation; otherwise nothing changes and an error is reported |
| MockDao.MockDb.DeleteUserBike | app/models/mock_dao.py:293-302 | exactly the models with that id and owner are removed, in order; their size rows stay |
| MockDao.MockDb.KeyedEntries | app/models/mock_dao.py:176-179 | when every key is a number, the keyed entries are the model's entries |
| MockDao.MockDb.GetBikeSizes | app/models/mock_dao.py:169-183 | the answer is either the failure answer [] or the model's `{size, id}` entries in some order; when every sort key is a number, all of them come back |
| MockDao.UnkeyedPermutes | app/models/mock_dao.py:176-178 | reordering the keyed entries reorders the `{size, id}` entries they carry, so sorting loses and adds none |
| MockDao.MockDb.BikeSizesOrdered | app/models/mock_dao.py:169-183 | when every key is a number, the sizes come back as the model's entries, reordered so that seat tube lengths never decrease, sizes with equal seat tubes keeping their order (Python's `sorted` is stable) |
| MockDao.MockDb.GetBikeSizeId | app/models/mock_dao.py:185-204 | the id found is that of the first size row, under Python equality, with the first model of that name and the size label; whenever such a row exists an id is found; no model of that name means no id |
| MockDao.MockDb.AddUserAnthropometry | app/models/mock_dao.py:207-219 | one row is appended with the next id, the user, the data and the creation time |
| MockDao.MockDb.UserAnthropometry | app/models/mock_dao.py:223-226 | a user's rows are exactly the stored rows whose user id equals the user under Python equality |
| MockDao.MockDb.GetLatestUserAnthropometry | app/models/mock_dao.py:221-238 | there is an answer exactly when the user has rows; it is the first of the latest rows, without its id, user and time |
| MockDao.MockDb.SaveFitSettings | app/models/mock_dao.py:241-259 | saving always consumes an id; with every key present one fit is appended, otherwise nothing is stored and an error is reported |
| MockDao.MockDb.GetFitByName | app/models/mock_dao.py:261-270 | the lookup finds a fit whose name and size equal the given ones under Python equality exactly when there is one |
| MockDao.MockDb.GetUserFits | app/models/mock_dao.py:272-280 | the names returned are exactly those of the user's fits whose size equals the given one under Python equality |
| MockDao.MockDb.DeleteFit | app/models/mock_dao.py:282-291 | exactly the user's fits whose name and size equal the given ones under Python equality are removed, in order |
| MockDao.UpsertExisting | app/models/mock_dao.py:106-110 | an existing row for the model and size label takes the new geometry's values and keeps its model, size and any key the geometry lacks |
| MockDao.UpsertNew | app/models/mock_dao.py:111-118 | without such a row, exactly one row is appended, with the fresh id and the creation time |
| MockDao.AppendedKeepsUsers | app/models/mock_dao.py:42-49 | appending a user with the counter's id and a new name keeps ids increasing and names unique |
| MockDao.AppendedKeepsModels | app/models/mock_dao.py:83-91 | appending a model with the counter's id keeps ids increasing and each user's model names unique |
| MockDao.AppendedKeepsSizes | app/models/mock_dao.py:113-118 | appending a size row for a new model and size pair keeps those pairs unique |
| MockDao.AppendedKeepsFits | app/models/mock_dao.py:243-255 | appending a fit with the counter's id keeps fit ids increasing |
| MockDao.NamesOfFilter | app/models/mock_dao.py:276-280 | the names of the filtered fits are exactly the names of the fits that satisfy the condition |
| MockTables.First | app/models/mock_dao.py:62 | the first match is found when one exists, and nothing earlier matches |
| MockTables.Filter | app/models/mock_dao.py:145 | filtering never lengthens a list |
| MockTables.FilterMembers | app/models/mock_dao.py:135-138 | the filter keeps exactly the elements that satisfy the condition |
| MockTables.FilterIncreasing | app/models/mock_dao.py:295-298 | filtering keeps increasing keys increasing |
| MockTables.FilterDistinct | app/models/mock_dao.py:284-287 | filtering keeps distinct keys distinct |
| MockTables.ReplaceDistinct | app/models/mock_dao.py:108-110 | replacing a row by one with the same key keeps keys distinct |
| MockTables.ReplaceIncreasing | app/models/mock_dao.py:159-162 | replacing a row by one with the same key keeps keys increasing |
| MockTables.LatestIndex | app/models/mock_dao.py:231 | the latest row's index lies within the list |
| MockTables.LatestIndexIsFirstMax | app/models/mock_dao.py:231 | the latest row has the largest key, and every earlier row a strictly smaller one |
| MockTables.Insert | app/models/mock_dao.py:177-179 | insertion adds exactly the one element |
| MockTables.InsertSorted | app/models/mock_dao.py:177-179 | insertion into a sorted list keeps it sorted |
| MockTables.SortByKeySorts | app/models/mock_dao.py:177-179 | the sort orders by key and loses or adds nothing |
| MockTables.SortByKeySorted | app/models/mock_dao.py:177-179 | the sort orders by key |
| MockTables.SortByKeyPermutes | app/models/mock_dao.py:177-179 | the sort keeps exactly the entries it was given |
| MockTables.SortByKeyStable | app/models/mock_dao.py:177-179 | the sort is stable: for every key, the entries with that key appear in the same order as before |
| MockTables.InsertStable | app/models/mock_dao.py:177-179 | inserting into a sorted list puts the new entry after every entry with the same key |
| Recipes.CanvasScale | app/static/js/canvas_drawer.js:87 | the 2000 by 1750 drawing scaled by the canvas scale fits the canvas and fills at least one of its sides |
| Recipes.Scaled | app/static/js/canvas_drawer.js:91-104 | a scaled dictionary has the same keys as the one it was scaled from |
| Recipes.ScaleEntries | app/static/js/canvas_drawer.js:96-103 | the key-by-key loop multiplies every entry whose name does not end in "Angle" by the scale, and keeps the angles |
| Recipes.ScaledInverse | app/static/js/canvas_drawer.js:91-104 | scaling by a non-zero factor loses nothing: scaling back by the inverse restores the dictionary |
| Recipes.ScaledTwice | app/static/js/canvas_drawer.js:91-104 | scaling twice is scaling once by the product, and angles never change |
| Recipes.HandlebarSplit | app/static/js/canvas_drawer.js:262-277 | the drop is split into two radii, the first no larger than the reach; a flat bar is drawn exactly when the reach exceeds it, and the flat bar and the first radius make up the reach |
| Recipes.HandlebarOutline | app/static/js/canvas_drawer.js:262-291 | the handlebar is one connected outline that reaches the bar's reach forward of the stem's end and the bar's drop below it |
| Recipes.ExtraDrop | app/static/js/canvas_drawer.js:292-300 | the extra drop is drawn exactly when the gap exceeds 30 scaled units, and it ends 30 scaled units short |
| Recipes.AlongAngleDistance | app/static/js/canvas_drawer.js:211 | a point placed a non-negative length along an angle lies exactly that far from its origin |
| Recipes.RailsHaveLength | app/static/js/canvas_drawer.js:216-218 | saddle rails of non-zero length have a defined projection |
| Recipes.SaddleOffsetClamped | app/static/js/canvas_drawer.js:216-219 | on rails of positive length, the saddle stays at its offset within half the rail's length of the centre, and otherwise stops at the nearer end |
| Recipes.SaddleOnRails | app/static/js/canvas_drawer.js:216-219 | wherever it lands, the saddle lies on its rails, at the rails' height |
| CanvasDrawer.ValidRange | app/static/js/canvas_drawer.js:122-131 | the elbow, torso and shoulder angles have proper valid ranges, and the shifter angle has none |
| CanvasDrawer.GreenBands | app/static/js/canvas_drawer.js:123-127 | the shoulder is green within 1.25 degrees of a right angle, the torso between 38.125 and 44.375 degrees, and the elbow between 150 and 160 degrees |
| CanvasDrawer.PreviewFit | app/static/js/canvas_drawer.js:73-78 | the preview puts the saddle midway along the seatpost's range, the stem at its highest, the hands at 45 degrees and the saddle centred on its rails |
| CanvasDrawer.PreviewSeatInRange | app/static/js/canvas_drawer.js:73-74 | the preview's seat height lies within the seatpost's range when that range is proper |
| CanvasDrawer.KinematicScaleFollowsDrawing | app/static/js/canvas_drawer.js:312-313 | with the scaled crank length, the kinematic sketch is the scale times the sketch of the stored crank |
| CanvasDrawer.DragReachesNearTarget | app/static/js/canvas_drawer.js:88 | with the step limit set, a drag of a visible movable point within the limit of its target is the update by the delta that lands on the target |
| CanvasDrawer.Drawer.constructor | app/static/js/canvas_drawer.js:29-41 | a new drawer keeps the stored dictionaries and has scaled nothing yet |
| CanvasDrawer.Drawer.CalculateScale | app/static/js/canvas_drawer.js:83-89 | the drawer records the canvas size and its scale, and sets the engine's step limit to the base constant times the scale |
| CanvasDrawer.Drawer.ScaleData | app/static/js/canvas_drawer.js:91-104 | the working dictionaries become the stored ones scaled |
| CanvasDrawer.Drawer.ClearCanvas | app/static/js/canvas_drawer.js:134-148 | clearing removes every figure and resets the counters except CircleByCenterEdge's |
| CanvasDrawer.Drawer.Draw | app/static/js/canvas_drawer.js:57-66 | before any figure is built, drawing leaves an empty engine, the canvas scale, the scaled step limit and the scaled dictionaries |
| CanvasDrawer.Drawer.Reset | app/static/js/canvas_drawer.js:150-152 | a reset leaves what a draw leaves |
| CanvasDrawer.Drawer.DrawPreview | app/static/js/canvas_drawer.js:68-81 | a preview draws as a draw does, with the fit replaced by the preview fit of the scaled geometry |
| AppDrawer.ValidRange | app/static/js/app.js:104-110 | the older drawer gives the same three angles proper ranges, and the shifter angle none |
| AppDrawer.RangesNested | app/static/js/app.js:105-109 | each of this drawer's ranges lies inside the newer drawer's range for that angle, so an angle red there is red here, and the newer drawer's green elbow band is exactly this drawer's elbow range |
| AppDrawer.KinematicScaledTwice | app/static/js/app.js:292-293 | this drawer scales the kinematic sketch twice: it is the newer drawer's sketch times the scale once more |
| AppDrawer.ClearTwice | app/static/js/app.js:129-132 | clearing twice leaves the counters as clearing once |
| AppDrawer.DragIsStuck | app/static/js/app.js:63-69 | with the step limit never set, a drag of a visible movable point toward any other position fails and leaves the state unchanged |
| AppDrawer.Drawer.constructor | app/static/js/app.js:28-39 | a new drawer keeps the stored dictionaries and has scaled nothing yet |
| AppDrawer.Drawer.CalculateScale | app/static/js/app.js:63-69 | the drawer records the canvas size and its scale, and leaves the engine, and so its step limit, untouched |
| AppDrawer.Drawer.ScaleData | app/static/js/app.js:71-86 | the working dictionaries become the stored ones scaled |
| AppDrawer.Drawer.ClearCanvas | app/static/js/app.js:116-127 | clearing removes every figure and resets the counters except CircleByCenterEdge's |
| AppDrawer.Drawer.Draw | app/static/js/app.js:53-61 | before any figure is built, drawing leaves an empty engine, the canvas scale and the scaled dictionaries, with the step limit as it was |
| AppDrawer.Drawer.Reset | app/static/js/app.js:129-132 | a reset clears and then draws, and it leaves what a single draw leaves |
| AppDrawer.GetFitSettings | app/static/js/app.js:743-755 | the read-back is undefined exactly for a zero scale; the two angles are reported as measured, and at a positive scale the seat height is at least the saddle height and the stem height is not negative |
| AppDrawer.ReadScaledEntries | app/static/js/app.js:71-86 | the entries read from the scaled dictionaries are the stored entries with their lengths scaled and their angles kept |
| AppDrawer.SeatComesBack | app/static/js/app.js:747 | the seat height comes back from the seatpost top drawn along the seat angle |
| AppDrawer.StemComesBack | app/static/js/app.js:748 | the stem height comes back from the stem base drawn along the head angle |
| AppDrawer.SaddleComesBack | app/static/js/app.js:749 | the saddle offset comes back, clamped to the rails, from the saddle drawn on the scaled rails |
| AppDrawer.ReadBack | app/static/js/app.js:743-755 | from points whose unscaled distances and offset are given values, the read-back reports exactly those values |
| AppDrawer.PlaceFit | app/static/js/app.js:186-192 | the seatpost top and the stem's base are built at the stored heights along their tube angles and then snapped onto their ranges as a point on one segment is: onto the projection inside the range, onto the nearer end outside it; a range of zero length gives no placement |
| AppDrawer.PlaceFitInRange | app/static/js/geometry-classes.js:268-271 | points built inside their ranges stay where they were built |
| AppDrawer.ReadBackDrawn | app/static/js/app.js:743-755 | the points drawn from scaled entries read back as the stored seat and stem heights and the saddle offset clamped to the rails |
| AppDrawer.OutOfRangeReadsRangeEnd | app/static/js/app.js:743-755 | a fit whose seatpost top or stem base falls outside its range reads back as the height at the range's nearer end, not as stored |
| AppDrawer.FitRoundTrip | app/static/js/app.js:743-755 | a fit drawn at any positive scale, with the seatpost top and the stem base inside their ranges, reads back as stored: the seat and stem heights unchanged and the saddle offset clamped to the rails |

## Left out

- Rendering: paper.js paths, canvas events, the DOM, and the interface classes (`canvas_interface.js`, `preview_interface.js`) that wire mouse drags to `move`. The model starts where a drag reaches the engine.
- Floating point: numbers are exact reals, so IEEE rounding, infinities and NaN are not modelled. Where the JavaScript computes NaN points, the model reports a failure instead: `None`, or an `Outcome` whose `ok` is false, which also stops the cascade at that point. This covers the projection onto a zero-length line and the line–circle intersection with a zero-length line. In the JavaScript, NaN coordinates would propagate instead of stopping.
- Square roots, `atan2`, `cos` and `sin` come in through the `Host` parameter. The model assumes only what `HostOk` states. `Math.PI` is the decimal 3.141592653589793.
- A JavaScript exception in the middle of a cascade (the `null` an arc through three collinear points returns) stops the cascade with the state reached so far. The model does not follow what the exception then does in the event handler.
- The figure-by-figure construction of the bike and the rider (`drawFrame`, `drawWheels`, `drawStem`, `drawHandlebars`, `drawSaddle`, `drawLegs`, `drawTorso`, `drawArms`, `drawHead` and the leg linkage) is not modelled as scene calls. Its arithmetic (handlebar split, extra drop, saddle on its rails, points along an angle) is in `Recipes`, and the engine operations it calls are modelled.
- `AppDrawer.FitRoundTrip` covers fits whose seatpost top and stem base fall inside their ranges. Outside them, `AppDrawer.OutOfRangeReadsRangeEnd` states the heights at the range ends that the read-back then gives. Later drags of these points are not followed.
- The older drawer in `app.js` calls `h_line(point, false)` at lines 106, 150, 207, 248, 262 and 272. It leaves out the scope argument that `geometry-helpers.js:33` takes first, so the anchor becomes `false`. The Figure constructor then fails reading the dependents of `false` (`geometry-classes.js:19-20`), at line 150 before any wheel is drawn. `AppDrawer` stops before the figures are built, so this failure is not modelled.
- The canvas size comes in as a parameter. So does the `MAXSTEP` constant; `constants.js` is not part of this model.
- `CanvasDrawer.PreviewFit` requires the four geometry keys it reads. A missing key gives NaN in the JavaScript.
- `AppDrawer.GetFitSettings` does not report the bike id that `getFitSettings` copies through unchanged.
- The relation between the preview fit and the scaled stored fit is not proved.
- The `middle` helper of `geometry-helpers.js` is left out. It calls `middle_perpendicular` without the scope argument, and nothing calls it.
- `app/utils/geometry_calc.py` and the pass-through functions of `fit_service.py` other than `add_anthro` are not part of this model.
- String stripping covers the whitespace of the Latin-1 range, and `lower()` covers ASCII letters only. The rest of Unicode is not modelled.
- Regular expressions are modelled as the character predicates they match.
- Error and validation message texts are abstracted as the `Reason` and `Message` datatypes.
- Inputs on which the Python source itself crashes are excluded by preconditions:
  - `BikeValidator.ValidateBikeData` requires each size to be a dictionary whose "size", when present, is a string;
  - `BikeValidator.ValidateBikeModel` requires a truthy model to be a string (`.strip()` raises on anything else; a falsy model of any kind is reported as required);
  - `AuthValidator.ValidateRegister` and `AuthValidator.ValidateLogin` require a present username to be a string (`.strip()`);
  - both require a truthy password to be a string, a list or a dictionary (`len` raises on a number or True);
  - `AuthValidator.ValidateRegister` also requires a list or dictionary password of 8 to 100 entries not to occur, since `re.search` raises on it. Shorter or longer ones draw the length errors, and at login any truthy list or dictionary passes.
- Number parsing, password hashing and checking, and the current time are parameters.
- Logging is left out.
- The `except Exception` branches of the store's methods are modelled only where an input reaches them: a missing key in `save_fit_settings` and a failed comparison in `get_bike_sizes`. The others catch failures of the running process, which the model does not have.
- `get_bike_sizes` with two or more sizes whose "seatTube" values are all strings: Python sorts them as strings, but the model answers `[]` as it does for mixed keys. Only the all-numeric case is proved (`MockDao.MockDb.BikeSizesOrdered`).
- Intersection.CircleCircle: where the two points lie is stated by `Intersection.CircleCircleOnCircles`. The single point answered for touching circles (a half chord below 1e-9) is not proved to lie on the circles, since it does so only up to that tolerance.
- Angles.AngleValue: states only the range [0, 180] of the angle's value, not its relation to the directions of the two sides, which goes through `atan2`.
- Round.DirectionDegrees: states only that the direction lies in [0, 360), for the same reason.
- Cascade.Move: its own contract states only that the number of figures is kept. What a drag does is stated by `CanvasDrawer.DragReachesNearTarget`, `AppDrawer.DragIsStuck` and the `Drag` lemmas.
- Cascade.PointUpdate: like Cascade.Update, its own contract states only the frame.
- Cascade.Settle: like Cascade.Update, its own contract states only the frame.
- Cascade.Update: its own contract states only the frame. What happens to the updated point is stated by the `CascadeFacts` lemmas.
- Helpers.Perpendicular: states which figures are built and how they are linked, not that the line is perpendicular. The positions after the cascade go through `sqrt`.
- Helpers.MiddlePerpendicular: states the figures and their starting guesses, not that the line bisects the segment.
- Helpers.Parallel: states the figures and the choice of ends, not that the line is parallel.
- Helpers.AngledLine: states the figures, not the angle the line makes.

## Findings

| source | as written | input that shows it | evidently intended | confidence | as-written member | corrected member |
|---|---|---|---|---|---|---|
| app/static/js/app.js:63-69 | `calculateScale` never sets the static `Figure.MAXSTEP`; `geometry-classes.js:7` declares `MAXSTEP` as an instance field only, so `Point.move` takes the minimum of `undefined` and the distance | dragging any visible movable point toward a position other than its own: the step is NaN and the point does not reach the target | set `Figure.MAXSTEP = MAXSTEP * this.scale`, as `canvas_drawer.js:88` does | not executed | AppDrawer.DragIsStuck | CanvasDrawer.DragReachesNearTarget |
