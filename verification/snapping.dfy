/** findSnapPosition: where a bubble that struck a settled one comes to
    rest. Six slots on the hexagon of radius 2r around the struck bubble are
    tried in order; a slot must lie inside the playfield, not above the
    ceiling limit, and clear of every other bubble; the surviving slot
    closest to the moving bubble wins, the earliest one on a tie. */
module Snapping {
  import opened Wrappers
  import opened Geometry
  import opened Board

  /** `s` is the sine of 60 degrees: positive, with square 3/4. */
  function IsSin60(s: real): (sine: bool)
    ensures sine ==> 0.8 < s < 0.9
  {
    Sin60Bounds(s);
    s > 0.0 && s * s == 0.75
  }

  lemma Sin60Bounds(s: real)
    ensures s > 0.0 && s * s == 0.75 ==> 0.8 < s < 0.9
  {
    if s > 0.0 && s * s == 0.75 {
      assert s >= 0.9 ==> s * s >= 0.81;
      assert s <= 0.8 ==> s * s <= 0.64;
    }
  }

  /** cos(i * 60 degrees), exact for i in 0..5. */
  function HexCos(i: nat): real {
    if i == 0 then 1.0
    else if i == 1 || i == 5 then 0.5
    else if i == 2 || i == 4 then -0.5
    else -1.0
  }

  /** sin(i * 60 degrees) for i in 0..5, given sin 60 degrees. */
  function HexSin(i: nat, sin60: real): real {
    if i == 0 || i == 3 then 0.0
    else if i == 1 || i == 2 then sin60
    else -sin60
  }

  /** The six candidate slots around `anchor`, at angles 0, 60, ..., 300
      degrees and distance 2r. The sine of 60 degrees is a parameter, since
      the model takes no trigonometry. */
  function HexCandidates(anchor: Point, sin60: real): (c: seq<Point>)
    ensures |c| == 6
    ensures c[0] == Point(anchor.x + 2.0 * Radius, anchor.y)
    ensures forall i :: 0 <= i < 3 ==>
      c[i + 3].x - anchor.x == anchor.x - c[i].x && c[i + 3].y - anchor.y == anchor.y - c[i].y
    // the slots go round in order of angle, which decides ties between equally near slots
    ensures c[3].x < c[2].x < anchor.x < c[1].x < c[0].x && c[3].x < c[4].x < anchor.x < c[5].x < c[0].x
    ensures c[0].y == anchor.y == c[3].y
    ensures sin60 > 0.0 ==> c[1].y > anchor.y && c[2].y > anchor.y && c[4].y < anchor.y && c[5].y < anchor.y
  {
    seq(6, i requires 0 <= i => Point(anchor.x + HexCos(i) * (2.0 * Radius), anchor.y + HexSin(i, sin60) * (2.0 * Radius)))
  }

  /** With the true sine of 60 degrees every candidate touches the anchor. */
  lemma HexCandidatesOnCircle(anchor: Point, sin60: real, i: nat)
    requires IsSin60(sin60) && i < 6
    ensures DistanceSq(HexCandidates(anchor, sin60)[i], anchor) == (2.0 * Radius) * (2.0 * Radius)
  {
    var c, s := HexCos(i), HexSin(i, sin60);
    assert HexCandidates(anchor, sin60)[i] == Point(anchor.x + c * (2.0 * Radius), anchor.y + s * (2.0 * Radius));
    HexUnit(i, sin60);
    UnitOffsetOnCircle(anchor, c, s, 2.0 * Radius);
  }

  /** Moving by a unit vector scaled by k lands at squared distance k * k. */
  lemma UnitOffsetOnCircle(a: Point, c: real, s: real, k: real)
    requires c * c + s * s == 1.0
    ensures DistanceSq(Point(a.x + c * k, a.y + s * k), a) == k * k
  {
    DistanceSqOfOffset(a, c * k, s * k);
    ScaledUnitSquare(c, s, k);
  }

  /** cos^2 + sin^2 = 1 at every multiple of 60 degrees. */
  lemma HexUnit(i: nat, sin60: real)
    requires IsSin60(sin60) && i < 6
    ensures HexCos(i) * HexCos(i) + HexSin(i, sin60) * HexSin(i, sin60) == 1.0
  {
    if i == 0 || i == 3 {
      assert HexSin(i, sin60) == 0.0;
    } else if i == 1 || i == 2 {
      assert HexSin(i, sin60) == sin60;
    } else {
      assert HexSin(i, sin60) == -sin60;
      assert (-sin60) * (-sin60) == sin60 * sin60;
    }
  }

  /** Inside the side walls and not above the ceiling limit: a bubble of
      radius r centred at `p` lies wholly between the walls and below the top. */
  function InPlayfield(width: real, p: Point): (inside: bool)
    ensures inside ==> 0.0 <= p.x - Radius && p.x + Radius <= width && 0.0 <= p.y - Radius
    ensures inside ==> 2.0 * Radius <= width
  {
    Radius <= p.x <= width - Radius && Radius <= p.y
  }

  /** No bubble other than the anchor is closer than 2r - 2 to `p`. */
  function ClearOf(board: seq<Bubble>, anchor: Bubble, p: Point): (clear: bool)
    ensures board == [] || board == [anchor] ==> clear
  {
    forall b :: b in board && b != anchor ==> DistanceSq(p, b.pos) >= MinSnapDistSq
  }

  /** The overlap test, entry by entry: `p` is clear exactly when every
      board entry other than the anchor keeps at least 2r - 2 away; one
      entry closer than that blocks it. */
  lemma ClearOfEntries(board: seq<Bubble>, anchor: Bubble, p: Point)
    ensures ClearOf(board, anchor, p) <==>
      forall j :: 0 <= j < |board| && board[j] != anchor ==> DistanceSq(p, board[j].pos) >= MinSnapDistSq
    ensures forall j :: 0 <= j < |board| && board[j] != anchor && DistanceSq(p, board[j].pos) < MinSnapDistSq ==>
      !ClearOf(board, anchor, p)
  {
  }

  predicate ValidSlot(board: seq<Bubble>, anchor: Bubble, width: real, p: Point) {
    InPlayfield(width, p) && ClearOf(board, anchor, p)
  }

  /** Candidate `i` is valid, no valid candidate is strictly closer to the
      moving bubble, and no earlier valid candidate is as close. */
  ghost predicate NearestValid(board: seq<Bubble>, anchor: Bubble, moving: Point, width: real, c: seq<Point>, i: nat) {
    && i < |c|
    && ValidSlot(board, anchor, width, c[i])
    && (forall j :: 0 <= j < |c| && ValidSlot(board, anchor, width, c[j]) ==> DistanceSq(c[i], moving) <= DistanceSq(c[j], moving))
    && (forall j :: 0 <= j < i && ValidSlot(board, anchor, width, c[j]) ==> DistanceSq(c[i], moving) < DistanceSq(c[j], moving))
  }

  /** The overlap scan: does a bubble other than the anchor sit closer than
      2r - 2 to `p`? */
  method Overlaps(board: seq<Bubble>, anchor: Bubble, p: Point) returns (overlap: bool)
    ensures overlap <==> !ClearOf(board, anchor, p)
  {
    overlap := false;
    var i := 0;
    while i < |board|
      invariant 0 <= i <= |board|
      invariant forall m :: 0 <= m < i && board[m] != anchor ==> DistanceSq(p, board[m].pos) >= MinSnapDistSq
    {
      var b := board[i];
      if b != anchor {
        var minDist := Radius * 2.0 - 2.0;
        if DistanceSq(p, b.pos) < minDist * minDist {
          overlap := true;
          return;
        }
      }
      i := i + 1;
    }
  }

  /** findSnapPosition over the given candidate list. */
  method FindSnapPosition(board: seq<Bubble>, anchor: Bubble, moving: Point, width: real, candidates: seq<Point>)
    returns (slot: Option<Point>)
    ensures slot.None? <==> forall i :: 0 <= i < |candidates| ==> !ValidSlot(board, anchor, width, candidates[i])
    ensures slot.Some? ==> exists i: nat :: NearestValid(board, anchor, moving, width, candidates, i) && candidates[i] == slot.value
  {
    var best: Option<Point> := None;
    var bestDist := 0.0;
    ghost var bestIdx := 0;
    for i := 0 to |candidates|
      invariant best.None? <==> forall j :: 0 <= j < i ==> !ValidSlot(board, anchor, width, candidates[j])
      invariant best.Some? ==> bestIdx < i && best.value == candidates[bestIdx]
      invariant best.Some? ==> ValidSlot(board, anchor, width, candidates[bestIdx]) && bestDist == DistanceSq(candidates[bestIdx], moving)
      invariant best.Some? ==> forall j :: 0 <= j < i && ValidSlot(board, anchor, width, candidates[j]) ==> bestDist <= DistanceSq(candidates[j], moving)
      invariant best.Some? ==> forall j :: 0 <= j < bestIdx && ValidSlot(board, anchor, width, candidates[j]) ==> bestDist < DistanceSq(candidates[j], moving)
    {
      var pos := candidates[i];
      if Radius <= pos.x <= width - Radius && Radius <= pos.y {
        var overlap := Overlaps(board, anchor, pos);
        if !overlap {
          var dist := DistanceSq(pos, moving);
          if best.None? || dist < bestDist {
            best, bestDist, bestIdx := Some(pos), dist, i;
          }
        }
      }
    }
    slot := best;
    if slot.Some? {
      assert NearestValid(board, anchor, moving, width, candidates, bestIdx);
    }
  }

  /** The snap choice is determined: at most one candidate is the nearest valid one. */
  lemma NearestValidUnique(board: seq<Bubble>, anchor: Bubble, moving: Point, width: real, c: seq<Point>, i: nat, j: nat)
    requires NearestValid(board, anchor, moving, width, c, i)
    requires NearestValid(board, anchor, moving, width, c, j)
    ensures i == j
  {
  }
}
