/** Motion of the fired bubble: the per-tick step of `update` (advance by
    the velocity, bounce off the side walls), the first-collision scan, and
    the bounce path that computeTrajectory previews, given here as a
    function of the aim. */
module Flight {
  import opened Geometry
  import opened Board

  /** The bubble in the cannon (currentBubble). */
  datatype Shot = Shot(pos: Point, radius: real, color: Color, vel: Point, moving: bool)

  /** Pixels the preview advances per step (TRAJECTORY_STEP). */
  const TrajectoryStep: real := 8.0

  /** Cap on preview steps (MAX_TRAJECTORY_STEPS). */
  const MaxTrajectorySteps: nat := 1200

  function SpeedSq(v: Point): real {
    v.x * v.x + v.y * v.y
  }

  /** One tick of flight: move by the velocity, then, if the bubble
      reaches the left wall (x - radius <= 0) or else the right wall
      (x + radius >= width), clamp it against that wall and reverse the
      horizontal velocity. */
  function Advance(s: Shot, width: real): (t: Shot)
    ensures t.radius == s.radius && t.color == s.color && t.moving == s.moving
    ensures t.pos.y == s.pos.y + s.vel.y && t.vel.y == s.vel.y
    ensures t.vel.x == s.vel.x || t.vel.x == -s.vel.x
    ensures SpeedSq(t.vel) == SpeedSq(s.vel)
    ensures 2.0 * s.radius <= width ==> s.radius <= t.pos.x <= width - s.radius
    ensures s.radius < s.pos.x + s.vel.x < width - s.radius ==> t.pos == Point(s.pos.x + s.vel.x, s.pos.y + s.vel.y) && t.vel == s.vel
    ensures t.vel.x != s.vel.x ==> t.pos.x == s.radius || t.pos.x == width - s.radius
    ensures s.pos.x + s.vel.x - s.radius <= 0.0 ==> t.pos.x == s.radius && t.vel.x == -s.vel.x
    ensures s.pos.x + s.vel.x - s.radius > 0.0 && s.pos.x + s.vel.x + s.radius >= width ==>
      t.pos.x == width - s.radius && t.vel.x == -s.vel.x
  {
    var x, y := s.pos.x + s.vel.x, s.pos.y + s.vel.y;
    if x - s.radius <= 0.0 then
      NegationSquare(s.vel.x);
      s.(pos := Point(s.radius, y), vel := Point(-s.vel.x, s.vel.y))
    else if x + s.radius >= width then
      NegationSquare(s.vel.x);
      s.(pos := Point(width - s.radius, y), vel := Point(-s.vel.x, s.vel.y))
    else
      s.(pos := Point(x, y))
  }

  lemma NegationSquare(z: real)
    ensures (-z) * (-z) == z * z
  {
  }

  /** The shot has reached the ceiling (y - radius <= 0). */
  function AtCeiling(s: Shot): (hit: bool)
    ensures hit <==> s.pos.y <= s.radius
  {
    s.pos.y - s.radius <= 0.0
  }

  /** Index of the first bubble within squared distance `threshold` of `p`,
      or |board| if there is none. */
  method FirstHit(board: seq<Bubble>, p: Point, threshold: real) returns (k: nat)
    ensures k <= |board|
    ensures forall j :: 0 <= j < k ==> DistanceSq(p, board[j].pos) > threshold
    ensures k < |board| ==> DistanceSq(p, board[k].pos) <= threshold
    ensures k == |board| <==> forall b :: b in board ==> DistanceSq(p, b.pos) > threshold
  {
    k := 0;
    while k < |board|
      invariant k <= |board|
      invariant forall j :: 0 <= j < k ==> DistanceSq(p, board[j].pos) > threshold
    {
      if DistanceSq(p, board[k].pos) <= threshold {
        return;
      }
      k := k + 1;
    }
  }

  /** The preview's collision test: some bubble lies within 0.9 of the
      squared touching distance of a bubble centred at `p`. */
  function HitsAny(board: seq<Bubble>, p: Point): (hits: bool)
    ensures hits ==> board != []
    ensures hits <==> exists j :: 0 <= j < |board| && DistanceSq(p, board[j].pos) <= 0.9 * (2.0 * Radius) * (2.0 * Radius)
  {
    exists b :: b in board && DistanceSq(p, b.pos) <= CollisionDistSq(Radius)
  }

  /** One preview step: advance by 8 px along `dir`, then clamp against a
      wall reached (x <= r, or else x >= width - r) and mirror the
      horizontal direction. */
  function TraceStep(pos: Point, dir: Point, width: real): (r: (Point, Point))
    ensures r.1.y == dir.y && (r.1.x == dir.x || r.1.x == -dir.x)
    ensures r.0.y == pos.y + dir.y * TrajectoryStep
    ensures 2.0 * Radius <= width ==> Radius <= r.0.x <= width - Radius
    ensures pos.x + dir.x * TrajectoryStep <= Radius ==> r.0.x == Radius && r.1.x == -dir.x
    ensures Radius < pos.x + dir.x * TrajectoryStep && pos.x + dir.x * TrajectoryStep >= width - Radius ==>
      r.0.x == width - Radius && r.1.x == -dir.x
    ensures Radius < pos.x + dir.x * TrajectoryStep < width - Radius ==>
      r.0.x == pos.x + dir.x * TrajectoryStep && r.1 == dir
  {
    var x, y := pos.x + dir.x * TrajectoryStep, pos.y + dir.y * TrajectoryStep;
    if x <= Radius then (Point(Radius, y), Point(-dir.x, dir.y))
    else if x >= width - Radius then (Point(width - Radius, y), Point(-dir.x, dir.y))
    else (Point(x, y), dir)
  }

  /** A preview step is the flight tick of a bubble of radius r whose
      velocity is 8 px along `dir`: same new position, same wall, and the
      new direction is the new velocity scaled back by 8. */
  lemma TraceStepIsAdvance(pos: Point, dir: Point, width: real, c: Color, moving: bool)
    ensures var t := Advance(Shot(pos, Radius, c, Point(dir.x * TrajectoryStep, dir.y * TrajectoryStep), moving), width);
      var (p, d) := TraceStep(pos, dir, width);
      t.pos == p && t.vel == Point(d.x * TrajectoryStep, d.y * TrajectoryStep)
  {
  }

  /** The points computeTrajectory appends after the start point, with `n`
      steps left: it stops at the ceiling (clamping y to r), after the
      first point that hits a bubble, or when the steps run out. */
  function Trace(board: seq<Bubble>, width: real, pos: Point, dir: Point, n: nat): (path: seq<Point>)
    ensures |path| <= n
    ensures n > 0 ==> |path| > 0
    decreases n
  {
    if n == 0 then []
    else
      var (p, d) := TraceStep(pos, dir, width);
      if p.y <= Radius then [Point(p.x, Radius)]
      else if HitsAny(board, p) then [p]
      else [p] + Trace(board, width, p, d, n - 1)
  }

  /** The preview stays between the walls, passes only through free
      space below the ceiling, and stops early only at the ceiling or at
      the first point that strikes a bubble. */
  lemma {:induction false} TraceShape(board: seq<Bubble>, width: real, pos: Point, dir: Point, n: nat)
    ensures var path := Trace(board, width, pos, dir, n);
      && (2.0 * Radius <= width ==> forall i :: 0 <= i < |path| ==> Radius <= path[i].x <= width - Radius)
      && (forall i :: 0 <= i < |path| - 1 ==> path[i].y > Radius && !HitsAny(board, path[i]))
      && (0 < |path| < n ==> path[|path| - 1].y == Radius || HitsAny(board, path[|path| - 1]))
    decreases n
  {
    if n > 0 {
      var (p, d) := TraceStep(pos, dir, width);
      if p.y > Radius && !HitsAny(board, p) {
        var rest := Trace(board, width, p, d, n - 1);
        TraceShape(board, width, p, d, n - 1);
        assert Trace(board, width, pos, dir, n) == [p] + rest;
        assert forall i :: 1 <= i < |rest| + 1 ==> ([p] + rest)[i] == rest[i - 1];
      }
    }
  }

  /** One step of the preview, as Trace takes it. */
  lemma TraceUnfold(board: seq<Bubble>, width: real, pos: Point, dir: Point, n: nat)
    requires n > 0
    ensures Trace(board, width, pos, dir, n) ==
      var (p, d) := TraceStep(pos, dir, width);
      if p.y <= Radius then [Point(p.x, Radius)]
      else if HitsAny(board, p) then [p]
      else [p] + Trace(board, width, p, d, n - 1)
  {
  }
}
