/** The shape registry of the fishbowl board (game.js): shape records, the
    hit test, and the two registry edits a pointer-down makes, bringing a
    shape to the front and turning it a quarter turn. The registry's order
    is the z-order: the last shape is drawn on top. */
module Shapes {
  import opened Geometry

  /** Shape kinds; they only select what is drawn. */
  datatype Kind = Circle | Square | Octagon | Star | Ell

  /** A display colour, an opaque token such as "#FFB300". */
  type Color = string

  /** A shape record. `rot` counts quarter turns; a shape that was never
      rotated reads as 0, as it does when drawn. `onBoard` is the placement
      flag. */
  datatype Shape = Shape(kind: Kind, color: Color, pos: Point, rot: nat, onBoard: bool)

  /** The pointer is within the pick radius of the shape's centre. */
  predicate Covers(f: Shape, p: Point) {
    SqDist(f.pos, p) < PickRadius * PickRadius
  }

  /** Two centres closer than the least allowed separation. */
  predicate TooClose(p: Point, q: Point) {
    SqDist(p, q) < MinSeparation * MinSeparation
  }

  /** No two shapes of the registry are too close. */
  predicate Separated(figs: seq<Shape>) {
    forall i, j :: 0 <= i < |figs| && 0 <= j < |figs| && i != j ==> !TooClose(figs[i].pos, figs[j].pos)
  }

  /** Every shape of the registry passes the rim test. */
  predicate AllInRadius(a: Arena, figs: seq<Shape>) {
    forall k :: 0 <= k < |figs| ==> InRadius(a, figs[k].pos)
  }

  /** Hit test: scans from the top of the z-order (the last shape) down and
      answers the first shape covering the point, or -1 when none does. The
      answer is therefore the greatest covering index, so of two overlapping
      shapes the later one wins. */
  function ShapeAt(figs: seq<Shape>, p: Point): (r: int)
    ensures -1 <= r < |figs|
    ensures r >= 0 ==> Covers(figs[r], p)
    ensures forall j :: r < j < |figs| ==> !Covers(figs[j], p)
    decreases |figs|
  {
    if |figs| == 0 then -1
    else if Covers(figs[|figs| - 1], p) then |figs| - 1
    else ShapeAt(figs[..|figs| - 1], p)
  }

  /** The hit test looks at positions only: two registries that agree on
      every position answer alike, whatever the kinds, colours and turns. */
  lemma ShapeAtSeesOnlyPositions(figs: seq<Shape>, others: seq<Shape>, p: Point)
    requires |figs| == |others|
    requires forall k :: 0 <= k < |figs| ==> figs[k].pos == others[k].pos
    ensures ShapeAt(figs, p) == ShapeAt(others, p)
  {
  }

  /** Removes shape `i` and appends it, putting it on top of the z-order. */
  function BringToFront(figs: seq<Shape>, i: nat): (r: seq<Shape>)
    requires i < |figs|
    ensures |r| == |figs|
    ensures r[|r| - 1] == figs[i]
    ensures forall k :: 0 <= k < i ==> r[k] == figs[k]
    ensures forall k :: i <= k < |r| - 1 ==> r[k] == figs[k + 1]
    ensures multiset(r) == multiset(figs)
  {
    assert figs == figs[..i] + [figs[i]] + figs[i + 1..];
    figs[..i] + figs[i + 1..] + [figs[i]]
  }

  /** Reordering keeps the registry separated. */
  lemma BringToFrontKeepsSeparated(figs: seq<Shape>, i: nat)
    requires i < |figs| && Separated(figs)
    ensures Separated(BringToFront(figs, i))
  {
  }

  /** Reordering keeps every shape within the rim. */
  lemma BringToFrontKeepsInRadius(a: Arena, figs: seq<Shape>, i: nat)
    requires i < |figs| && AllInRadius(a, figs)
    ensures AllInRadius(a, BringToFront(figs, i))
  {
  }

  /** Turns shape `i` by a quarter turn; nothing else changes. */
  function RotateAt(figs: seq<Shape>, i: nat): (r: seq<Shape>)
    requires i < |figs|
    ensures |r| == |figs|
    ensures r[i].rot == figs[i].rot + 1
    ensures r[i].kind == figs[i].kind && r[i].color == figs[i].color
    ensures r[i].onBoard == figs[i].onBoard
    ensures forall k :: 0 <= k < |r| ==> r[k].pos == figs[k].pos
    ensures forall k :: 0 <= k < |r| && k != i ==> r[k] == figs[k]
  {
    figs[i := figs[i].(rot := figs[i].rot + 1)]
  }

  /** Turning is cosmetic: it changes neither the hit test, nor the
      separation, nor the rim test of any shape. */
  lemma RotateAtKeepsGeometry(a: Arena, figs: seq<Shape>, i: nat, p: Point)
    requires i < |figs|
    ensures ShapeAt(RotateAt(figs, i), p) == ShapeAt(figs, p)
    ensures Separated(RotateAt(figs, i)) <==> Separated(figs)
    ensures AllInRadius(a, RotateAt(figs, i)) <==> AllInRadius(a, figs)
  {
  }
}
