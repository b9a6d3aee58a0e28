# Fishbowl board: shape registry and pointer interaction

A Dafny model of the interaction core of the geometric-shapes toy in
`game.js`. Shapes lie in a round "fishbowl" drawn on a canvas. The bowl has a
wedge-shaped opening. The player drags shapes with the mouse or a finger.
A double click, or a tap with two fingers, turns a shape a quarter turn.

The model covers:

- the arena: its centre and radius from the canvas size, the rim test
  `dist + 28 <= R`, and the angle window `[0.17π, 1.83π]` that leaves the
  opening out (`geometry.dfy`);
- the shape registry: shape records, the top-down hit test, bring-to-front
  and the quarter turn (`shapes.dfy`);
- the initializer: bounded rejection sampling of up to 20 shapes
  (`placement.dfy`);
- the pointer handlers: pointer position, pointer-down, pointer-move and
  pointer-up, each a pure transition of the state (`interaction.dfy`);
- sessions: the initializer followed by any sequence of pointer events,
  with the handlers wired up as the listener block at game.js:6-12 intends
  (see "## Left out" for why the file as written never gets that far). In
  every state a session reaches, no two shapes are closer than `1.7 · 28`,
  and every shape is within the rim (`session.dfy`).

Modelling choices:

- Distances. Every `Math.hypot(..) < c` comparison is modelled as a
  comparison of squared distances. `Geometry.HypotBelowIffSquareBelow` and
  `Geometry.HypotWithinRimIffInRadius` prove that the two forms agree.
- Angles. The model has no trigonometry. The window `[0.17π, 1.83π]` of the
  normalised `atan2` angle is stated geometrically. A point is outside the
  window when it is the centre itself (`atan2(0, 0)` is 0), or when it lies
  in the wedge `dx > 0`, `|dy| < tan(0.17π)·dx`. The value `tan(0.17π)`
  (about 0.5914) is carried in the arena as `openingSlope`. With y growing
  downwards on a canvas, this opening faces the right-hand side of the
  canvas, not the top; the drawing code at game.js:157 leaves the same gap.
- Turns. `rot` counts quarter turns as a `nat`. A shape that was never turned
  reads as 0, as it does in both `rotarFigura` and `drawFigura`.
- Randomness. The initializer reads its candidates (kind, colour, position)
  from a caller-supplied stream `nat -> Candidate`, one per iteration.
- Events. The canvas's bounding-box origin is an input carried by each
  event.

Two behaviours of `game.js` are modelled as written:

- Stale drag slot. Pointer-down records the drag slot (game.js:50) and only
  then brings the grabbed shape to the front (game.js:54-55). When the
  grabbed shape was not already on top, later moves write the shape that slid
  into that slot. `Interaction.GrabbedShapeFollowsOnlyFromTop` proves that the
  grabbed shape follows the pointer exactly when it was on top already. In
  every other case its upper neighbour moves instead. The collision scan
  skips the same slot it writes, so separation is still preserved.
- Initializer and the opening. The initializer checks the rim and the
  overlap, but not the angle window (game.js:136), although the comment at
  game.js:116 asks for the shapes to lie inside the fishbowl without
  leaving its edge. The model follows the code.
  `Placement.OpeningCandidateIsPlaced` shows a shape can start inside the
  opening. So "outside the opening" is not an invariant of the board; only
  the rim and the separation are (`Session.AtRest`).

## Model

| member | source | states |
|---|---|---|
| Geometry.HypotBelowIffSquareBelow | game.js:81-82 | for any non-negative distance `d` with `d² = sq`, `d < c` holds iff `sq < c²`; so the squared tests are the game's `Math.hypot(..) < c` tests |
| Geometry.HypotWithinRimIffInRadius | game.js:73-74 | for any non-negative distance `d` from the centre, `d + 28 <= R` holds iff the squared rim test `InRadius` does |
| Geometry.ArenaOf | game.js:109-111 | the arena centre is the canvas midpoint (equally far from opposite edges); the radius is 95% of half the width; for a positive width, `0 < R < cx < width` |
| Geometry.InOpening | game.js:69-74 | the opening contains the centre (`atan2(0, 0)` is 0), lies in the right half-plane, and, for a positive slope, contains the points straight right of the centre; it is the complement of the `[0.17π, 1.83π]` window exactly when `openingSlope` is `tan(0.17π)` |
| Geometry.OpeningIsMirrorSymmetric | game.js:71-72 | the opening is symmetric about the horizontal through the centre, as the window `[0.17π, 2π − 0.17π]` is |
| Geometry.RimInsideCanvas | game.js:109-111 | on a canvas at least as tall as it is wide, every centre that passes the rim test lies strictly inside the canvas |
| Shapes.ShapeAt | game.js:30-37 | the hit test answers -1 or an index; an answered shape covers the point (squared distance `< 32²`); no later shape covers it; so it is the greatest covering index, and -1 means no shape covers the point |
| Shapes.ShapeAtSeesOnlyPositions | game.js:30-37 | two registries that agree on every position give the same hit-test answer, whatever their kinds, colours and turns |
| Shapes.BringToFront | game.js:54-55 | same length and multiset; the removed shape is last; shapes before it keep their index; shapes after it move down one slot, so their relative order is kept |
| Shapes.BringToFrontKeepsSeparated | game.js:54-55 | reordering a separated registry leaves it separated |
| Shapes.BringToFrontKeepsInRadius | game.js:54-55 | reordering keeps every shape within the rim |
| Shapes.RotateAt | game.js:93-97 | the turned shape gains exactly one quarter turn and keeps its kind, colour and flag; no position changes; every other shape is unchanged |
| Shapes.RotateAtKeepsGeometry | game.js:93-97 | a turn changes neither the hit-test answer, nor separation, nor the rim test of any shape |
| Placement.Place | game.js:126-148 | the loop ends by the measure (shapes missing, rejections left); it only appends, and every appended shape is one of the draws it made, on the board and unturned; it stops with at most 20 shapes; it keeps the shapes separated and within the rim; it draws at most `(20 − placed)·1000 + (1000 − failures)` candidates; stopping short of 20 means at least `1000 − failures` draws were made, no shape comes from the last 1000 draws (the counter restarts on every acceptance), and each of those draws fails the rim test or overlaps the final registry |
| Placement.AppendKeepsSeparated | game.js:141-146 | appending a candidate that overlaps no placed shape keeps the registry separated |
| Placement.Initialize | game.js:117-148 | from an empty registry: at most 20 shapes, each one of the draws; pairwise at least `1.7 · 28` apart; all within the rim; all flagged on the board; at most 21000 draws; with fewer than 20 shapes, at least 1000 draws were made, none of the last 1000 became a shape, and each of them is turned away by the result, i.e. 1000 consecutive rejections |
| Placement.OpeningCandidateIsPlaced | game.js:135-139 | a first draw at distance `0 < ρ <= R − 28` straight right of the centre lies in the opening, yet becomes the first shape, since only the rim and the overlap are checked |
| Interaction.PointerPos | game.js:14-28 | adding the canvas origin back to the result gives the first touch point when there is one, else the mouse position |
| Interaction.PointerDown | game.js:39-58 | a miss leaves the state unchanged; a hit without a turn gesture starts the drag (`Grab`); the registry length is kept; a drag slot stays in range |
| Interaction.IsTurnGesture | game.js:45 | every second click (`detail` 2) turns, whatever its touch points; a mouse event turns iff it is a second click; an event that is not a second click turns iff it carries exactly two touch points |
| Interaction.TurnGestureTurnsOnly | game.js:44-49 | a double click or two-finger tap on a hit shape adds exactly one quarter turn to it; it moves no shape and keeps the order; it leaves the drag slot and offset as they were |
| Interaction.Grab | game.js:50-55 | the drag slot is the hit index; pointer plus offset is the grabbed shape's position; the registry is the old one with that shape moved to the end (same length, same multiset, others in order) |
| Interaction.CollidesFrom | game.js:79-83 | the scan answers true iff some index at or after the start, other than the drag slot, is strictly closer than `1.7 · 28` to the candidate |
| Interaction.PointerMove | game.js:60-87 | without a drag, no change; if the candidate (pointer + offset) is in the opening, beyond the rim, or too close to another slot, no change; otherwise only the shape in the drag slot changes, and only its position, which becomes the candidate |
| Interaction.MoveKeepsSeparated | game.js:78-85 | a move keeps a separated registry separated and keeps every shape within the rim; a moved shape lands in the arena, outside the opening |
| Interaction.PointerUp | game.js:89-91 | the drag ends; the registry and offset are untouched |
| Interaction.MoveAfterUpIsIgnored | game.js:61 | after pointer-up a move changes nothing, and a second pointer-up changes nothing |
| Interaction.GrabbedShapeFollowsOnlyFromTop | game.js:50-55 | after a drag starts at slot `idx` and the pointer moves to an allowed spot, the grabbed shape reaches the candidate iff `idx` was the top slot; otherwise the grabbed shape is unchanged and the shape from slot `idx + 1` moves instead |
| Session.Step | game.js:6-12 | a press is handled by `PointerDown`, a move by `PointerMove`, a release or leave by `PointerUp`; the registry length is kept and the drag slot stays in range |
| Session.Run | game.js:6-12 | a sequence of events keeps the registry length and keeps the drag slot in range |
| Session.Start | game.js:2-4 | the state once the script has run (the declarations at lines 2-4, then the initializer call at line 264): no drag, zero offset, the initializer's shapes, and the board at rest |
| Session.StepKeepsAtRest | game.js:39-97 | every handler keeps the board at rest |
| Session.RunKeepsAtRest | game.js:39-97 | any sequence of events keeps the board at rest |
| Session.ReachableIsAtRest | game.js:39-148 | in every state reachable from the initializer by pointer events, shapes are pairwise at least `1.7 · 28` apart and within the rim |

## Left out

- Drawing: `drawPecera`, `drawBoard` and `drawFigura` (game.js:151-262) only draw. They change no state.
- DOM wiring: listener registration (game.js:6-12), `preventDefault`, `getContext` and `getBoundingClientRect` are browser calls. The bounding-box origin is an input of each event. `Session.Step` only models which handler an event reaches.
- Session: models the wiring as evidently intended. As written, game.js:6 uses `canvas` before its `const` declaration at game.js:102, which throws a ReferenceError. The script stops at line 6, so no listener is registered and `inicializarFiguras()` (game.js:264) never runs. The model does not represent that failure.
- Random sampling: `Math.random` is replaced by the candidate stream. The centre-biased polar sampling (game.js:128-134) only shapes the distribution. The kind and colour palettes (game.js:119-123) are folded into the candidates.
- Floating point: the model uses exact reals. Rounding in `hypot`, `atan2` and the accumulated `rot += π/2` is not modelled.
- Geometry.InOpening: the window test uses `openingSlope` in place of `tan(0.17π)`. The value is supplied, not computed, because the model has no trigonometry.
- Resize: the arena is recomputed from the canvas on every call. A session fixes it, so the at-rest invariant is stated for one canvas size.
- Interaction.PointerMove: requires the drag slot to be in range. Every reachable state meets this (`Session.Run`). In the game an out-of-range slot would fail at game.js:84.
- Interaction.PointerPos: a touch event with no touch points reads the mouse position, which a browser leaves undefined. This only happens on touch-end, whose handler ignores the position.
