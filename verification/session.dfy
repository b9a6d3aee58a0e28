/** A session of the fishbowl board (game.js): the initializer fills the
    registry once, then pointer events drive the handlers one at a time.
    The arena is fixed for the session. */
module Session {
  import opened Wrappers
  import opened Geometry
  import opened Shapes
  import opened Placement
  import opened Interaction

  datatype Event = Down(down: PointerEvent) | Move(move: PointerEvent) | Up

  /** The state once the script has run: the drag slot and offset as first
      declared (no drag, zero offset) and the registry the initializer
      filled. The board starts at rest, with the initializer's shapes. */
  function Start(a: Arena, cands: nat -> Candidate): (s: State)
    ensures s.dragging.None? && s.off == Point(0.0, 0.0)
    ensures s.figs == Initialize(a, cands).shapes
    ensures AtRest(a, s)
  {
    State(Initialize(a, cands).shapes, None, Point(0.0, 0.0))
  }

  /** Dispatches one event to its handler: a press to pointer-down, a move
      to pointer-move, a release or leave to pointer-up. */
  function Step(a: Arena, s: State, e: Event): (r: State)
    requires DragInRange(s)
    ensures e.Down? ==> r == PointerDown(s, e.down)
    ensures e.Move? ==> r == PointerMove(s, a, e.move)
    ensures e.Up? ==> r == PointerUp(s)
    ensures |r.figs| == |s.figs| && DragInRange(r)
  {
    match e
    case Down(ev) => PointerDown(s, ev)
    case Move(ev) => PointerMove(s, a, ev)
    case Up => PointerUp(s)
  }

  /** Feeds a sequence of events to the handlers, in order. */
  function Run(a: Arena, s: State, es: seq<Event>): (r: State)
    requires DragInRange(s)
    ensures |r.figs| == |s.figs| && DragInRange(r)
    decreases |es|
  {
    if |es| == 0 then s else Run(a, Step(a, s, es[0]), es[1..])
  }

  /** What holds of the board between events: the drag slot names a shape,
      there are at most 20 shapes, no two are too close, and every shape is
      within the rim. (Being outside the opening is not among them, since
      the initializer does not check it.) */
  predicate AtRest(a: Arena, s: State) {
    && DragInRange(s)
    && |s.figs| <= MaxShapes
    && Separated(s.figs)
    && AllInRadius(a, s.figs)
  }

  /** Every handler keeps the board at rest. */
  lemma StepKeepsAtRest(a: Arena, s: State, e: Event)
    requires AtRest(a, s)
    ensures AtRest(a, Step(a, s, e))
  {
    match e
    case Down(ev) =>
      var idx := ShapeAt(s.figs, PointerPos(ev));
      if idx >= 0 {
        if IsTurnGesture(ev) {
          RotateAtKeepsGeometry(a, s.figs, idx, PointerPos(ev));
        } else {
          BringToFrontKeepsSeparated(s.figs, idx);
          BringToFrontKeepsInRadius(a, s.figs, idx);
        }
      }
    case Move(ev) =>
      MoveKeepsSeparated(s, a, ev);
    case Up =>
  }

  /** Any sequence of events keeps the board at rest. */
  lemma {:induction false} RunKeepsAtRest(a: Arena, s: State, es: seq<Event>)
    requires AtRest(a, s)
    ensures AtRest(a, Run(a, s, es))
    decreases |es|
  {
    if |es| > 0 {
      StepKeepsAtRest(a, s, es[0]);
      RunKeepsAtRest(a, Step(a, s, es[0]), es[1..]);
    }
  }

  /** In every state a session can reach, no two shapes are too close and
      every shape is within the rim. */
  lemma ReachableIsAtRest(a: Arena, cands: nat -> Candidate, es: seq<Event>)
    ensures AtRest(a, Run(a, Start(a, cands), es))
  {
    RunKeepsAtRest(a, Start(a, cands), es);
  }
}
