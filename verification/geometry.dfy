/** Plane geometry of the fishbowl board (game.js): points in canvas pixels,
    squared distances, the arena derived from the canvas size, and the two
    arena tests, "close enough to the rim" and "inside the opening wedge".

    The game compares Euclidean distances with `Math.hypot`; the model
    compares squared distances instead, and the bridge lemmas below show the
    two comparisons agree for every non-negative distance. */
module Geometry {

  /** A point or a vector in canvas coordinates (y grows downwards). */
  datatype Point = Point(x: real, y: real)

  function Add(p: Point, v: Point): Point {
    Point(p.x + v.x, p.y + v.y)
  }

  function Sub(p: Point, q: Point): Point {
    Point(p.x - q.x, p.y - q.y)
  }

  /** Square of the Euclidean distance between two points. */
  function SqDist(p: Point, q: Point): (r: real)
    ensures r >= 0.0
  {
    (p.x - q.x) * (p.x - q.x) + (p.y - q.y) * (p.y - q.y)
  }

  lemma SqDistSymmetric(p: Point, q: Point)
    ensures SqDist(p, q) == SqDist(q, p)
  {
  }

  /** Collision radius of every shape, whatever its kind (`radioFigura`). */
  const ShapeRadius: real := 28.0

  /** Pick radius of the hit test. */
  const PickRadius: real := 32.0

  /** Least allowed distance between the centres of two shapes. */
  const MinSeparation: real := 1.7 * ShapeRadius

  /** `Math.hypot(..) < c` is the squared comparison: for every non-negative
      `d` whose square is `sq`, `d < c` holds exactly when `sq < c * c`. */
  lemma HypotBelowIffSquareBelow(d: real, sq: real, c: real)
    requires 0.0 <= d && d * d == sq && 0.0 <= c
    ensures d < c <==> sq < c * c
  {
    SquaresOrdered(d, c);
  }

  /** On non-negative reals squaring is strictly monotone both ways. */
  lemma SquaresOrdered(u: real, v: real)
    requires 0.0 <= u && 0.0 <= v
    ensures u < v <==> u * u < v * v
    ensures u <= v <==> u * u <= v * v
  {
    var diff, sum := v - u, v + u;
    assert v * v - u * u == diff * sum;
    if u < v {
      ProductPositive(diff, sum);
    } else if u > v {
      ProductPositive(-diff, sum);
      assert u * u - v * v == (-diff) * sum;
    } else {
      assert diff == 0.0;
    }
  }

  lemma ProductPositive(s: real, t: real)
    requires 0.0 < s && 0.0 < t
    ensures s * t > 0.0
  {
  }

  /** The fishbowl. `openingSlope` is the tangent of the half-opening angle
      0.17π (about 0.5914); the model has no trigonometry, so it is carried
      as a value rather than computed. */
  datatype Arena = Arena(centre: Point, radius: real, openingSlope: real)

  /** The arena of a canvas of the given size: centred on the canvas, with a
      radius of 95% of half the canvas width. */
  function ArenaOf(width: real, height: real, openingSlope: real): (a: Arena)
    ensures a.centre.x == width - a.centre.x && a.centre.y == height - a.centre.y
    ensures a.radius == 0.95 * a.centre.x
    ensures a.openingSlope == openingSlope
    ensures width > 0.0 ==> 0.0 < a.radius < a.centre.x < width
  {
    Arena(Point(width / 2.0, height / 2.0), width / 2.0 * 0.95, openingSlope)
  }

  /** Room left for a shape's centre: its distance from the arena centre may
      be at most the radius less the collision radius. */
  function Room(a: Arena): real {
    a.radius - ShapeRadius
  }

  /** The rim test: `dist + 28 <= R`, stated on squares. */
  predicate InRadius(a: Arena, p: Point) {
    0.0 <= Room(a) && SqDist(p, a.centre) <= Room(a) * Room(a)
  }

  /** The rim test on squares agrees with the distance form used by the
      game: for every non-negative `d` whose square is the squared distance
      from the centre, `d + 28 <= R` holds exactly when `InRadius` does. */
  lemma HypotWithinRimIffInRadius(a: Arena, p: Point, d: real)
    requires 0.0 <= d && d * d == SqDist(p, a.centre)
    ensures d + ShapeRadius <= a.radius <==> InRadius(a, p)
  {
    var m := Room(a);
    if 0.0 <= m {
      SquaresOrdered(d, m);
    }
  }

  /** A coordinate whose square is bounded by `m * m` lies within `m`. */
  lemma SquareBound(t: real, m: real)
    requires 0.0 <= m && t * t <= m * m
    ensures -m <= t <= m
  {
    if t > m {
      SquaresOrdered(m, t);
    } else if t < -m {
      assert (-t) * (-t) == t * t;
      SquaresOrdered(m, -t);
    }
  }

  /** The opening of the fishbowl: the points whose normalised `atan2`
      angle about the centre falls outside [0.17π, 1.83π]. The window is
      symmetric about the positive x axis, so these are the centre itself
      (`atan2(0, 0)` is 0) and the wedge `dx > 0`, `|dy| < tan(0.17π)·dx`;
      on screen the opening faces the right-hand side of the canvas. */
  predicate InOpening(a: Arena, p: Point): (b: bool)
    ensures p == a.centre ==> b
    ensures b ==> p.x >= a.centre.x
    ensures 0.0 < a.openingSlope && p.y == a.centre.y && p.x > a.centre.x ==> b
  {
    var dx := p.x - a.centre.x;
    var dy := p.y - a.centre.y;
    (dx == 0.0 && dy == 0.0) || (dx > 0.0 && -a.openingSlope * dx < dy < a.openingSlope * dx)
  }

  /** The window [0.17π, 1.83π] is symmetric about the horizontal through
      the centre (1.83π = 2π − 0.17π), and so is the opening. */
  lemma OpeningIsMirrorSymmetric(a: Arena, p: Point)
    ensures InOpening(a, p) <==> InOpening(a, Point(p.x, a.centre.y - (p.y - a.centre.y)))
  {
    var q := Point(p.x, a.centre.y - (p.y - a.centre.y));
    var dx, dy := p.x - a.centre.x, p.y - a.centre.y;
    var m := a.openingSlope * dx;
    assert q.x - a.centre.x == dx && q.y - a.centre.y == -dy;
    assert InOpening(a, p) <==> (dx == 0.0 && dy == 0.0) || (dx > 0.0 && -m < dy < m);
    assert InOpening(a, q) <==> (dx == 0.0 && -dy == 0.0) || (dx > 0.0 && -m < -dy < m);
  }

  /** Where a dragged shape may go: outside the opening and within the rim. */
  predicate InArena(a: Arena, p: Point) {
    !InOpening(a, p) && InRadius(a, p)
  }

  /** On a canvas at least as tall as it is wide, every centre that passes
      the rim test lies strictly inside the canvas. */
  lemma RimInsideCanvas(width: real, height: real, openingSlope: real, p: Point)
    requires 0.0 < width <= height
    requires InRadius(ArenaOf(width, height, openingSlope), p)
    ensures 0.0 < p.x < width && 0.0 < p.y < height
  {
    var a := ArenaOf(width, height, openingSlope);
    var m := Room(a);
    var dx := p.x - a.centre.x;
    var dy := p.y - a.centre.y;
    assert dx * dx <= m * m by { assert dy * dy >= 0.0; }
    assert dy * dy <= m * m by { assert dx * dx >= 0.0; }
    SquareBound(dx, m);
    SquareBound(dy, m);
  }
}
