/** The pointer interaction of the fishbowl board (game.js): pointer
    position, pointer-down (turn or start a drag), pointer-move (move the
    dragged shape when the new spot is allowed) and pointer-up. Each handler
    is a pure transition of the interaction state. */
module Interaction {
  import opened Wrappers
  import opened Geometry
  import opened Shapes

  /** A mouse or touch event: the mouse position, the touch points (none
      for a mouse event), the click count, and the canvas's bounding-box
      origin at the time of the event, all in page coordinates. */
  datatype PointerEvent = PointerEvent(client: Point, touches: seq<Point>, detail: int, origin: Point)

  /** The registry, the slot of the shape being dragged, and the offset from
      the pointer to that shape's centre, kept from the pointer-down. */
  datatype State = State(figs: seq<Shape>, dragging: Option<nat>, off: Point)

  /** A drag slot, when there is one, names a shape of the registry. */
  predicate DragInRange(s: State) {
    s.dragging.Some? ==> s.dragging.value < |s.figs|
  }

  /** The event's position in canvas coordinates: the first touch point when
      there is one, the mouse position otherwise, less the canvas origin. */
  function PointerPos(ev: PointerEvent): (p: Point)
    ensures Add(p, ev.origin) == (if |ev.touches| > 0 then ev.touches[0] else ev.client)
  {
    var page := if |ev.touches| > 0 then ev.touches[0] else ev.client;
    Sub(page, ev.origin)
  }

  /** A double click, or a tap with exactly two fingers, turns a shape. */
  predicate IsTurnGesture(ev: PointerEvent): (b: bool)
    ensures ev.detail == 2 ==> b
    ensures |ev.touches| == 0 ==> (b <==> ev.detail == 2)
    ensures ev.detail != 2 ==> (b <==> |ev.touches| == 2)
  {
    ev.detail == 2 || |ev.touches| == 2
  }

  /** Starts dragging: records `idx` as the drag slot, keeps the offset from
      the pointer `pos` to shape `idx`, and brings that shape to the front,
      keeping the others in their order. */
  function Grab(s: State, idx: nat, pos: Point): (r: State)
    requires idx < |s.figs|
    ensures r.dragging == Some(idx)
    ensures Add(r.off, pos) == s.figs[idx].pos
    ensures |r.figs| == |s.figs|
    ensures r.figs[|r.figs| - 1] == s.figs[idx]
    ensures forall k :: 0 <= k < idx ==> r.figs[k] == s.figs[k]
    ensures forall k :: idx <= k < |s.figs| - 1 ==> r.figs[k] == s.figs[k + 1]
    ensures multiset(r.figs) == multiset(s.figs)
  {
    State(BringToFront(s.figs, idx), Some(idx), Sub(s.figs[idx].pos, pos))
  }

  /** Pointer-down. A miss changes nothing. A turn gesture on a shape turns
      it a quarter turn and leaves the drag alone (TurnGestureTurnsOnly).
      Otherwise the drag starts on the shape the hit test found. The slot is
      recorded before the shape moves to the front, so it names the grabbed
      shape only when that was already on top (see
      GrabbedShapeFollowsOnlyFromTop). */
  function PointerDown(s: State, ev: PointerEvent): (r: State)
    ensures ShapeAt(s.figs, PointerPos(ev)) == -1 ==> r == s
    ensures var idx := ShapeAt(s.figs, PointerPos(ev));
      idx >= 0 && !IsTurnGesture(ev) ==> r == Grab(s, idx, PointerPos(ev))
    ensures |r.figs| == |s.figs|
    ensures DragInRange(s) ==> DragInRange(r)
  {
    var pos := PointerPos(ev);
    var idx := ShapeAt(s.figs, pos);
    if idx == -1 then s
    else if IsTurnGesture(ev) then s.(figs := RotateAt(s.figs, idx))
    else Grab(s, idx, pos)
  }

  /** A turn gesture on a shape turns that shape a quarter turn, moves no
      shape, keeps the registry's order and leaves the drag as it was. */
  lemma TurnGestureTurnsOnly(s: State, ev: PointerEvent)
    requires ShapeAt(s.figs, PointerPos(ev)) >= 0 && IsTurnGesture(ev)
    ensures var idx, r := ShapeAt(s.figs, PointerPos(ev)), PointerDown(s, ev);
      && r.dragging == s.dragging && r.off == s.off
      && |r.figs| == |s.figs|
      && r.figs[idx].rot == s.figs[idx].rot + 1
      && r.figs[idx].kind == s.figs[idx].kind && r.figs[idx].color == s.figs[idx].color
      && r.figs[idx].onBoard == s.figs[idx].onBoard
      && (forall k :: 0 <= k < |s.figs| ==> r.figs[k].pos == s.figs[k].pos)
      && (forall k :: 0 <= k < |s.figs| && k != idx ==> r.figs[k] == s.figs[k])
  {
  }

  /** Where the dragged shape would go: the pointer plus the kept offset. */
  function Target(s: State, ev: PointerEvent): Point {
    Add(PointerPos(ev), s.off)
  }

  /** The collision scan of a move, from index `i` upwards: some shape other
      than the one in slot `d` is too close to `c`. */
  function CollidesFrom(figs: seq<Shape>, d: nat, c: Point, i: nat): (b: bool)
    requires i <= |figs|
    ensures b <==> exists j :: i <= j < |figs| && j != d && TooClose(figs[j].pos, c)
    decreases |figs| - i
  {
    if i == |figs| then false
    else if i != d && TooClose(figs[i].pos, c) then true
    else CollidesFrom(figs, d, c, i + 1)
  }

  /** A move of the shape in slot `d` to `c` is allowed: `c` is in the arena
      and no other shape is too close to it. */
  predicate Admissible(a: Arena, figs: seq<Shape>, d: nat, c: Point) {
    InArena(a, c) && !CollidesFrom(figs, d, c, 0)
  }

  /** Pointer-move. Without a drag nothing changes. Otherwise the candidate
      position is either rejected, leaving the state as it was, or committed
      to the shape in the drag slot, changing nothing else. */
  function PointerMove(s: State, a: Arena, ev: PointerEvent): (r: State)
    requires DragInRange(s)
    ensures s.dragging.None? ==> r == s
    ensures s.dragging.Some? ==>
      var d, c := s.dragging.value, Target(s, ev);
      !InArena(a, c) || (exists j :: 0 <= j < |s.figs| && j != d && TooClose(s.figs[j].pos, c)) ==>
        r == s
    ensures s.dragging.Some? ==>
      var d, c := s.dragging.value, Target(s, ev);
      InArena(a, c) && (forall j :: 0 <= j < |s.figs| && j != d ==> !TooClose(s.figs[j].pos, c)) ==>
        && r.dragging == s.dragging && r.off == s.off
        && |r.figs| == |s.figs|
        && r.figs[d] == s.figs[d].(pos := c)
        && (forall k :: 0 <= k < |s.figs| && k != d ==> r.figs[k] == s.figs[k])
    ensures |r.figs| == |s.figs| && DragInRange(r)
  {
    if s.dragging.None? then s
    else
      var d := s.dragging.value;
      var c := Target(s, ev);
      if !InArena(a, c) then s
      else if CollidesFrom(s.figs, d, c, 0) then s
      else s.(figs := s.figs[d := s.figs[d].(pos := c)])
  }

  /** Pointer-up (and the pointer leaving the canvas): ends any drag. */
  function PointerUp(s: State): (r: State)
    ensures r.figs == s.figs && r.off == s.off
    ensures r.dragging.None?
  {
    s.(dragging := None)
  }

  /** After pointer-up a move changes nothing, and a second pointer-up
      changes nothing either. */
  lemma MoveAfterUpIsIgnored(s: State, a: Arena, ev: PointerEvent)
    ensures PointerMove(PointerUp(s), a, ev) == PointerUp(s)
    ensures PointerUp(PointerUp(s)) == PointerUp(s)
  {
  }

  /** A committed move keeps the registry separated and leaves the moved
      shape inside the arena, outside the opening. */
  lemma MoveKeepsSeparated(s: State, a: Arena, ev: PointerEvent)
    requires DragInRange(s) && Separated(s.figs)
    ensures Separated(PointerMove(s, a, ev).figs)
    ensures AllInRadius(a, s.figs) ==> AllInRadius(a, PointerMove(s, a, ev).figs)
    ensures s.dragging.Some? && PointerMove(s, a, ev) != s ==>
      InArena(a, PointerMove(s, a, ev).figs[s.dragging.value].pos)
  {
    var r := PointerMove(s, a, ev);
    if s.dragging.Some? && r != s {
      var d, c := s.dragging.value, Target(s, ev);
      assert Admissible(a, s.figs, d, c);
      forall i, j | 0 <= i < |r.figs| && 0 <= j < |r.figs| && i != j
        ensures !TooClose(r.figs[i].pos, r.figs[j].pos)
      {
        if i == d {
          SqDistSymmetric(c, s.figs[j].pos);
          assert !TooClose(s.figs[j].pos, c);
        } else if j == d {
          assert !TooClose(s.figs[i].pos, c);
        } else {
          assert r.figs[i] == s.figs[i] && r.figs[j] == s.figs[j];
        }
      }
    }
  }

  /** The drag slot is recorded before the grabbed shape is brought to the
      front, so a later committed move writes whichever shape now sits in
      that slot. After a drag starts and the pointer really moves to an
      allowed spot, the grabbed shape ends at the candidate exactly when it
      was on top already; otherwise it stays put and its upper neighbour,
      which slid into the recorded slot, is moved instead. */
  lemma GrabbedShapeFollowsOnlyFromTop(s: State, a: Arena, down: PointerEvent, move: PointerEvent)
    requires ShapeAt(s.figs, PointerPos(down)) >= 0 && !IsTurnGesture(down)
    requires PointerPos(move) != PointerPos(down)
    requires var s1 := PointerDown(s, down);
      Admissible(a, s1.figs, ShapeAt(s.figs, PointerPos(down)), Target(s1, move))
    ensures var idx := ShapeAt(s.figs, PointerPos(down));
      var s1 := PointerDown(s, down);
      var s2 := PointerMove(s1, a, move);
      && (s2.figs[|s2.figs| - 1].pos == Target(s1, move) <==> idx == |s.figs| - 1)
      && (idx < |s.figs| - 1 ==>
            s2.figs[|s2.figs| - 1] == s.figs[idx] && s2.figs[idx] == s.figs[idx + 1].(pos := Target(s1, move)))
  {
    var idx := ShapeAt(s.figs, PointerPos(down));
    var s1 := PointerDown(s, down);
    var c := Target(s1, move);
    var grabbed := s.figs[idx].pos;
    assert c == Add(PointerPos(move), Sub(grabbed, PointerPos(down)));
    assert c != grabbed;
  }
}
