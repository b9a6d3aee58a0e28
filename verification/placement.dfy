/** The placement initializer of the fishbowl board (game.js): rejection
    sampling that scatters up to 20 shapes inside the rim, keeping them
    apart, and gives up after 1000 consecutive rejected candidates.

    The game draws each candidate from `Math.random`; here the candidates
    come from a stream supplied by the caller, one per loop iteration. */
module Placement {
  import opened Geometry
  import opened Shapes

  /** Number of shapes the initializer aims for (`total`). */
  const MaxShapes: nat := 20

  /** Consecutive rejections after which the initializer gives up. */
  const MaxFailures: nat := 1000

  /** One random draw: a kind, a colour and a position. */
  datatype Candidate = Candidate(kind: Kind, color: Color, pos: Point)

  /** Outcome of the placement loop: the shapes placed, the final count of
      consecutive rejections, and how many candidates were drawn in all. */
  datatype Outcome = Outcome(shapes: seq<Shape>, failures: nat, drawn: nat)

  /** Some placed shape is too close to `p` (the `figuras.some(..)` test). */
  predicate Overlaps(placed: seq<Shape>, p: Point) {
    exists k :: 0 <= k < |placed| && TooClose(placed[k].pos, p)
  }

  /** The registry turns the draw away: it fails the rim test or overlaps a
      placed shape. The angle window is not consulted. */
  predicate Rejected(a: Arena, placed: seq<Shape>, c: Candidate) {
    !InRadius(a, c.pos) || Overlaps(placed, c.pos)
  }

  /** The shape an accepted draw becomes: on the board and never turned. */
  function ShapeOf(c: Candidate): Shape {
    Shape(c.kind, c.color, c.pos, 0, true)
  }

  /** Shape `f` was made from a draw at `from` or later that has at least
      1000 further draws after it, so it comes from none of the final 1000
      draws before `upto`. */
  predicate DrawnBefore(cands: nat -> Candidate, f: Shape, from: nat, upto: int) {
    exists n: nat :: from <= n && n + MaxFailures < upto && f == ShapeOf(cands(n))
  }

  /** Every shape is flagged as on the board and has never been turned. */
  predicate AllFresh(figs: seq<Shape>) {
    forall k :: 0 <= k < |figs| ==> figs[k].onBoard && figs[k].rot == 0
  }

  /** A draw that overlaps a registry overlaps every extension of it. */
  lemma OverlapsGrows(placed: seq<Shape>, more: seq<Shape>, p: Point)
    requires placed <= more && Overlaps(placed, p)
    ensures Overlaps(more, p)
  {
  }

  /** The placement loop from a state with `placed` shapes and `failures`
      consecutive rejections, drawing next from `cands(next)`. A rejected
      draw bumps the counter; an accepted one is appended and resets the
      counter. The loop ends at 20 shapes or 1000 consecutive rejections; the
      lexicographic measure (shapes still missing, rejections still allowed)
      decreases on every iteration. Every appended shape is one of the draws
      made. When the loop stops short of 20 shapes, it has made at least the
      rejections still allowed, no shape comes from the last 1000 draws (the
      counter restarts on every acceptance), and each of those draws (since
      `next`) is turned away by the final registry. */
  function Place(a: Arena, cands: nat -> Candidate, next: nat, placed: seq<Shape>, failures: nat): (r: Outcome)
    requires |placed| <= MaxShapes && failures <= MaxFailures
    requires Separated(placed) && AllInRadius(a, placed) && AllFresh(placed)
    ensures placed <= r.shapes
    ensures |r.shapes| <= MaxShapes
    ensures Separated(r.shapes) && AllInRadius(a, r.shapes) && AllFresh(r.shapes)
    ensures |r.shapes| == MaxShapes || r.failures == MaxFailures
    ensures next <= r.drawn <= next + (MaxShapes - |placed|) * MaxFailures + (MaxFailures - failures)
    ensures forall k :: |placed| <= k < |r.shapes| ==>
      exists n :: next <= n < r.drawn && r.shapes[k] == ShapeOf(cands(n))
    ensures |r.shapes| < MaxShapes ==> next + (MaxFailures - failures) <= r.drawn
    ensures |r.shapes| < MaxShapes ==>
      forall n :: next <= n && r.drawn - MaxFailures <= n < r.drawn ==> Rejected(a, r.shapes, cands(n))
    ensures |r.shapes| < MaxShapes ==>
      forall k :: |placed| <= k < |r.shapes| ==> DrawnBefore(cands, r.shapes[k], next, r.drawn)
    decreases MaxShapes - |placed|, MaxFailures - failures
  {
    if |placed| == MaxShapes || failures == MaxFailures then
      Outcome(placed, failures, next)
    else
      var c := cands(next);
      if Rejected(a, placed, c) then
        var r := Place(a, cands, next + 1, placed, failures + 1);
        (if Overlaps(placed, c.pos) then OverlapsGrows(placed, r.shapes, c.pos); r else r)
      else
        var f := ShapeOf(c);
        AppendKeepsSeparated(placed, f);
        var r := Place(a, cands, next + 1, placed + [f], 0);
        assert r.shapes[|placed|] == (placed + [f])[|placed|] == ShapeOf(cands(next));
        assert |r.shapes| < MaxShapes ==> DrawnBefore(cands, r.shapes[|placed|], next, r.drawn);
        r
  }

  /** A shape far from every placed one can be appended. */
  lemma AppendKeepsSeparated(placed: seq<Shape>, f: Shape)
    requires Separated(placed) && !Overlaps(placed, f.pos)
    ensures Separated(placed + [f])
  {
  }

  /** The initializer: the placement loop from an empty registry. Every
      shape is one of the draws. With fewer than 20 shapes, at least 1000
      draws were made, none of the last 1000 became a shape, and each of
      them is turned away by the result: 1000 consecutive rejections. */
  function Initialize(a: Arena, cands: nat -> Candidate): (r: Outcome)
    ensures |r.shapes| <= MaxShapes
    ensures Separated(r.shapes) && AllInRadius(a, r.shapes) && AllFresh(r.shapes)
    ensures |r.shapes| == MaxShapes || r.failures == MaxFailures
    ensures r.drawn <= (MaxShapes + 1) * MaxFailures
    ensures forall k :: 0 <= k < |r.shapes| ==>
      exists n :: 0 <= n < r.drawn && r.shapes[k] == ShapeOf(cands(n))
    ensures |r.shapes| < MaxShapes ==>
      && MaxFailures <= r.drawn
      && (forall n :: r.drawn - MaxFailures <= n < r.drawn ==> Rejected(a, r.shapes, cands(n)))
      && (forall k :: 0 <= k < |r.shapes| ==> DrawnBefore(cands, r.shapes[k], 0, r.drawn))
  {
    Place(a, cands, 0, [], 0)
  }

  /** The initializer checks the rim but not the angle window, so a shape
      may start inside the opening: a first draw straight to the right of
      the centre, inside the rim, lies in the opening and is always placed. */
  lemma OpeningCandidateIsPlaced(a: Arena, cands: nat -> Candidate, rho: real)
    requires 0.0 < rho <= Room(a) && 0.0 < a.openingSlope
    requires cands(0).pos == Point(a.centre.x + rho, a.centre.y)
    ensures |Initialize(a, cands).shapes| >= 1
    ensures Initialize(a, cands).shapes[0] == ShapeOf(cands(0))
    ensures InOpening(a, Initialize(a, cands).shapes[0].pos)
  {
    var c := cands(0);
    SquaresOrdered(rho, Room(a));
    assert InRadius(a, c.pos);
    assert [] + [ShapeOf(c)] == [ShapeOf(c)];
  }
}
