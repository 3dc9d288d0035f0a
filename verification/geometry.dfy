/** Plane geometry of the playfield: points, squared distances and the
    distance thresholds the engine compares them against. No square roots
    are taken anywhere; every test is on squared distances. */
module Geometry {

  datatype Point = Point(x: real, y: real)

  /** BUBBLE_RADIUS, in whole canvas pixels, and as a coordinate. */
  const RadiusPx: int := 16
  const Radius: real := RadiusPx as real

  /** Pixels a fired bubble travels per tick (BUBBLE_SPEED). */
  const BubbleSpeed: real := 8.0

  /** Two bubbles are neighbours in the colour and ceiling graphs when their
      centres are at most 2.3 radii apart (NEIGHBOR_DIST_SQ). */
  const NeighborDistance: real := Radius * 2.3
  const NeighborDistSq: real := NeighborDistance * NeighborDistance

  /** A snap slot must keep its centre at least 2r - 2 from every other bubble. */
  const MinSnapDistance: real := Radius * 2.0 - 2.0
  const MinSnapDistSq: real := MinSnapDistance * MinSnapDistance

  /** Bubbles whose centre is at most 1.5 radii below the ceiling anchor the board. */
  const CeilingAnchorY: real := Radius * 1.5

  /** Squared centre distance at which a bubble of radius `radius` counts as
      striking a settled one: 0.9 of the squared touching distance. */
  function CollisionDistSq(radius: real): (d: real)
    ensures d == 0.9 * ((2.0 * radius) * (2.0 * radius))
    ensures d <= (2.0 * radius) * (2.0 * radius)
  {
    (radius * 2.0) * (radius * 2.0) * 0.9
  }

  /** Squared Euclidean distance (distanceSq): never negative, zero from a point to itself. */
  function DistanceSq(a: Point, b: Point): (d: real)
    ensures 0.0 <= d
    ensures a == b ==> d == 0.0
  {
    var dx := a.x - b.x;
    var dy := a.y - b.y;
    SquareNonNegative(dx);
    SquareNonNegative(dy);
    dx * dx + dy * dy
  }

  lemma SquareNonNegative(z: real)
    ensures z * z >= 0.0
  {
    if z < 0.0 {
      assert z * z > 0.0;
    }
  }

  /** Two bubbles of the standard radius centred at `a` and `b` touch. */
  function Touching(a: Point, b: Point): (touch: bool)
    ensures touch ==> a != b
  {
    DistanceSq(a, b) == (2.0 * Radius) * (2.0 * Radius)
  }

  /** The squared distance from `a` to `a` moved by (dx, dy). */
  lemma DistanceSqOfOffset(a: Point, dx: real, dy: real)
    ensures DistanceSq(Point(a.x + dx, a.y + dy), a) == dx * dx + dy * dy
  {
    var p := Point(a.x + dx, a.y + dy);
    assert p.x - a.x == dx && p.y - a.y == dy;
  }

  lemma DistanceSqSymmetric(a: Point, b: Point)
    ensures DistanceSq(a, b) == DistanceSq(b, a)
  {
    var dx, dy := a.x - b.x, a.y - b.y;
    assert (b.x - a.x) * (b.x - a.x) == dx * dx;
    assert (b.y - a.y) * (b.y - a.y) == dy * dy;
  }

  /** Scaling a unit vector by `k` scales its squared length to k * k. */
  lemma ScaledUnitSquare(c: real, s: real, k: real)
    requires c * c + s * s == 1.0
    ensures (c * k) * (c * k) + (s * k) * (s * k) == k * k
  {
    calc {
      (c * k) * (c * k) + (s * k) * (s * k);
      (c * c) * (k * k) + (s * s) * (k * k);
      (c * c + s * s) * (k * k);
    }
  }

  /** Dividing a vector by its length gives a unit vector (the
      normalisation step of aiming, with the square root supplied). */
  lemma NormalizedIsUnit(dx: real, dy: real, len: real)
    requires len > 0.0 && len * len == dx * dx + dy * dy
    ensures (dx / len) * (dx / len) + (dy / len) * (dy / len) == 1.0
  {
    var u, w := dx / len, dy / len;
    assert u * len == dx && w * len == dy;
    calc {
      (u * u + w * w) * (len * len);
      (u * len) * (u * len) + (w * len) * (w * len);
      dx * dx + dy * dy;
      len * len;
    }
  }
}
