/** The game engine's mutable state and the operations that change it:
    the state machine, aiming and firing, the per-tick update, the turn
    pipeline that places a fired bubble, resolves matches and decides win
    or loss, level setup, and the trajectory preview. */
module Engine {
  import opened Wrappers
  import opened Geometry
  import opened Board
  import opened Matching
  import opened Snapping
  import opened Flight
  import opened Layout

  datatype GameState = Menu | Playing | Paused | GameOver

  /** What one call of `update` did; an attach at the ceiling has no anchor. */
  datatype Tick = Idle | Flying | Attached(placed: Bubble, anchor: Option<Bubble>)

  function Max(a: int, b: int): (m: int)
    ensures m >= a && m >= b && (m == a || m == b)
  {
    if a >= b then a else b
  }

  /** checkLose: scan the board in order for a bubble whose bottom edge
      reaches within 5 px of the shooter line. */
  function ReachesShooterLine(board: seq<Bubble>, shooterY: real): (lost: bool)
    ensures lost ==> board != []
  {
    if board == [] then false
    else if board[0].pos.y + board[0].radius >= shooterY - 5.0 then true
    else ReachesShooterLine(board[1..], shooterY)
  }

  /** The scan finds a bubble exactly when one reaches the line. */
  lemma {:induction false} ReachesShooterLineIff(board: seq<Bubble>, shooterY: real)
    ensures ReachesShooterLine(board, shooterY) <==> exists b :: b in board && b.pos.y + b.radius >= shooterY - 5.0
    decreases |board|
  {
    if board != [] {
      ReachesShooterLineIff(board[1..], shooterY);
      assert forall b :: b in board <==> b == board[0] || b in board[1..];
    }
  }

  /** The board after handleMatches(placed): a colour group of three or
      more is removed, then floating bubbles fall. */
  ghost function AfterMatch(board: seq<Bubble>, placed: Bubble): seq<Bubble> {
    var g := ColorGroup(board, placed);
    if |g| >= 3 then Survivors(Without(board, g)) else board
  }

  /** Points handleMatches(placed) scores: 10 per popped bubble, 5 per
      fallen one. */
  ghost function MatchPoints(board: seq<Bubble>, placed: Bubble): nat {
    var g := ColorGroup(board, placed);
    if |g| >= 3 then
      var rest := Without(board, g);
      10 * |g| + 5 * (|rest| - |Survivors(rest)|)
    else 0
  }

  /** A popped group takes exactly its own members off the board. */
  lemma MatchRemovesGroup(board: seq<Bubble>, placed: Bubble)
    requires DistinctIds(board) && placed in board
    ensures |Without(board, ColorGroup(board, placed))| == |board| - |ColorGroup(board, placed)|
    ensures forall b :: b in Without(board, ColorGroup(board, placed)) <==> b in board && b !in ColorGroup(board, placed)
  {
    DistinctIdsNoDuplicates(board);
    ColorGroupOnBoard(board, placed);
    RemoveSetSize(board, ColorGroup(board, placed));
  }

  /** The bubbles occupy exactly the slots of a level's starting grid,
      4 + level rows, in row order. */
  ghost predicate IsFreshGrid(bs: seq<Bubble>, level: nat, width: nat) {
    Positions(bs) == Grid(4 + level, width)
  }

  /** Resolving a placement never adds bubbles, scores exactly when
      bubbles leave, and scores between 5 and 10 points per bubble that
      leaves (10 per popped one, 5 per fallen one). */
  lemma MatchAccounting(board: seq<Bubble>, placed: Bubble)
    requires DistinctIds(board) && placed in board
    ensures |AfterMatch(board, placed)| <= |board|
    ensures |AfterMatch(board, placed)| < |board| <==> MatchPoints(board, placed) > 0
    ensures 5 * (|board| - |AfterMatch(board, placed)|) <= MatchPoints(board, placed)
    ensures MatchPoints(board, placed) <= 10 * (|board| - |AfterMatch(board, placed)|)
  {
    var g := ColorGroup(board, placed);
    if |g| >= 3 {
      MatchRemovesGroup(board, placed);
      var rest := Without(board, g);
      assert |Survivors(rest)| <= |rest|;
    }
  }

  /** A popped group always contains the placed bubble, so the second
      sweep of a resolved board removes nothing. */
  lemma ResolvedBoardIsSettled(board: seq<Bubble>, placed: Bubble)
    requires |ColorGroup(board, placed)| >= 3
    ensures Survivors(AfterMatch(board, placed)) == AfterMatch(board, placed)
  {
    SweepIdempotent(Without(board, ColorGroup(board, placed)));
  }

  /** The no-slot fallback of attachCurrentBubble: 2r behind the anchor,
      against the flight direction (the velocity over BUBBLE_SPEED stands
      for the cosine and sine of the flight angle). At flight speed the
      point touches the anchor. */
  function FallbackPoint(anchor: Bubble, shot: Shot): (p: Point)
    ensures SpeedSq(shot.vel) == BubbleSpeed * BubbleSpeed && shot.radius == Radius ==> Touching(p, anchor.pos)
  {
    BehindOnCircle(anchor.pos, shot.vel, Radius * 2.0);
    Point(anchor.pos.x - (shot.vel.x / BubbleSpeed) * (shot.radius * 2.0),
          anchor.pos.y - (shot.vel.y / BubbleSpeed) * (shot.radius * 2.0))
  }

  /** Stepping back by k along a velocity of length BUBBLE_SPEED lands k away. */
  lemma BehindOnCircle(a: Point, v: Point, k: real)
    ensures SpeedSq(v) == BubbleSpeed * BubbleSpeed ==>
      DistanceSq(Point(a.x - (v.x / BubbleSpeed) * k, a.y - (v.y / BubbleSpeed) * k), a) == k * k
  {
    if SpeedSq(v) == BubbleSpeed * BubbleSpeed {
      var c, s := v.x / BubbleSpeed, v.y / BubbleSpeed;
      NormalizedIsUnit(v.x, v.y, BubbleSpeed);
      NegationSquare(c);
      NegationSquare(s);
      assert a.x - c * k == a.x + (-c) * k && a.y - s * k == a.y + (-s) * k;
      UnitOffsetOnCircle(a, -c, -s, k);
    }
  }

  /** Where attachCurrentBubble puts a bubble fired as `shot` that struck
      `anchor` on `board`: the valid hexagon slot nearest to the shot, or,
      when no slot is valid, the fallback point. */
  ghost predicate SnappedTo(board: seq<Bubble>, anchor: Bubble, shot: Shot, width: real, sin60: real, p: Point) {
    var cands := HexCandidates(anchor.pos, sin60);
    || (exists i: nat :: NearestValid(board, anchor, shot.pos, width, cands, i) && p == cands[i])
    || ((forall i :: 0 <= i < 6 ==> !ValidSlot(board, anchor, width, cands[i])) && p == FallbackPoint(anchor, shot))
  }

  /** Where attachCurrentBubble puts a bubble fired as `shot`: at the
      ceiling (no anchor) its own position with y raised to at least r,
      against an anchor where SnappedTo says. */
  ghost predicate PlacedBy(board: seq<Bubble>, anchor: Option<Bubble>, shot: Shot, width: real, sin60: real, p: Point) {
    match anchor
    case None => p == Point(shot.pos.x, if shot.pos.y < Radius then Radius else shot.pos.y)
    case Some(a) => SnappedTo(board, a, shot, width, sin60, p)
  }

  /** With the true sine of 60 degrees, a bubble placed against an anchor
      by a shot of radius r at flight speed touches it: its centre is 2r
      from the anchor's, whether it took a hexagon slot or the fallback. */
  lemma SnappedTouches(board: seq<Bubble>, anchor: Bubble, shot: Shot, width: real, sin60: real, p: Point)
    requires SnappedTo(board, anchor, shot, width, sin60, p)
    requires IsSin60(sin60) && shot.radius == Radius && SpeedSq(shot.vel) == BubbleSpeed * BubbleSpeed
    ensures Touching(p, anchor.pos)
  {
    var cands := HexCandidates(anchor.pos, sin60);
    if exists i: nat :: NearestValid(board, anchor, shot.pos, width, cands, i) && p == cands[i] {
      var i: nat :| NearestValid(board, anchor, shot.pos, width, cands, i) && p == cands[i];
      HexCandidatesOnCircle(anchor.pos, sin60, i);
    }
  }

  /** `b` is the first bubble of the board, in board order, within the
      collision distance of a bubble centred at `p`. */
  ghost predicate FirstStruck(board: seq<Bubble>, p: Point, b: Bubble) {
    exists k :: 0 <= k < |board| && board[k] == b && DistanceSq(p, b.pos) <= CollisionDistSq(Radius)
      && forall j :: 0 <= j < k ==> DistanceSq(p, board[j].pos) > CollisionDistSq(Radius)
  }

  class Game {
    /** Canvas size in pixels (WIDTH, HEIGHT). */
    const width: nat
    const height: nat
    /** SHOOTER_Y: 60 px above the bottom edge. */
    const shooterY: real
    /** sin 60 degrees, for the hexagonal snap slots. */
    const sin60: real

    var state: GameState
    var bubbles: seq<Bubble>
    var current: Shot
    var nextColor: Color
    var aimDir: Point
    var isAiming: bool
    var shotCount: nat
    var score: nat
    var level: nat
    var highScore: int
    var previewPath: seq<Point>
    /** Next fresh bubble identity. */
    var nextId: nat
    /** Level advances scheduled after a cleared board that have not fired yet. */
    var pendingAdvances: nat

    /** Where the cannon holds a loaded bubble. */
    function ShooterPos(): Point
    {
      Point(width as real / 2.0, shooterY)
    }

    /** A freshly loaded, resting bubble of colour `c`. */
    function Loaded(c: Color): (s: Shot)
    {
      Shot(ShooterPos(), Radius, c, Point(0.0, 0.0), false)
    }

    /** The class invariant: settled bubbles have distinct identities below
        nextId, the standard radius and colours of the current level, and so
        do the loaded and the previewed bubble; the aim is a unit vector
        pointing upward; a bubble in flight moves at BUBBLE_SPEED; sin60 is
        the sine of 60 degrees. */
    ghost predicate Valid()
      reads this`level, this`bubbles, this`nextId, this`current, this`nextColor, this`aimDir
    {
      && level >= 1
      && IsSin60(sin60)
      && shooterY == height as real - 60.0
      && BoardOk()
      && ShotOk()
      && AimOk()
    }

    ghost predicate BoardOk()
      reads this`level, this`bubbles, this`nextId
    {
      WellFormedBoard(bubbles, nextId, ColorPool(level))
    }

    ghost predicate ShotOk()
      reads this`level, this`current, this`nextColor
    {
      && current.radius == Radius && current.color < ColorPool(level) && nextColor < ColorPool(level)
      && (current.moving ==> SpeedSq(current.vel) == BubbleSpeed * BubbleSpeed)
    }

    ghost predicate AimOk()
      reads this`aimDir
    {
      SpeedSq(aimDir) == 1.0 && aimDir.y < 0.0
    }

    /** Start-up: load the stored best score (None when it is missing or
        unreadable), set up level 1, and show the main menu. */
    constructor (width: nat, height: nat, sin60: real, stored: Option<int>)
      requires IsSin60(sin60)
      ensures Valid()
      ensures state == Menu && score == 0 && level == 1 && shotCount == 0
      ensures highScore == (if stored.Some? then stored.value else 0)
      ensures IsFreshGrid(bubbles, 1, width)
      ensures current == Loaded(current.color) && !isAiming
      ensures aimDir == Point(0.0, -1.0) && previewPath == [] && pendingAdvances == 0
    {
      this.width, this.height, this.sin60 := width, height, sin60;
      shooterY := height as real - 60.0;
      state := Menu;
      bubbles := [];
      current := Shot(Point(width as real / 2.0, height as real - 60.0), Radius, 0, Point(0.0, 0.0), false);
      nextColor := 0;
      aimDir := Point(0.0, -1.0);
      isAiming := false;
      shotCount, score, level := 0, 0, 1;
      highScore := if stored.Some? then stored.value else 0;
      previewPath := [];
      nextId := 0;
      pendingAdvances := 0;
      new;
      ResetLevel(true);
      state := Menu;
    }

    /** randColorForLevel: a palette index below min(5, 3 + level); which
        one is left open, standing for Math.random. */
    method DrawColor() returns (c: Color)
      ensures c < ColorPool(level)
    {
      c :| c < ColorPool(level);
    }

    /** maybeUpdateHighScore. */
    method MaybeUpdateHighScore()
      modifies this`highScore
      ensures highScore == Max(old(highScore), score)
      ensures highScore >= score
    {
      if score > highScore {
        highScore := score;
      }
    }

    /** spawnCurrentBubble: load the previewed colour into the cannon and
        draw the next one. */
    method SpawnCurrentBubble()
      modifies this`current, this`nextColor
      ensures current == Loaded(old(nextColor))
      ensures nextColor < ColorPool(level)
    {
      var color := nextColor;
      current := Loaded(color);
      nextColor := DrawColor();
    }

    /** createInitialGrid: 4 + level staggered rows of fresh bubbles. */
    method CreateInitialGrid()
      modifies this`bubbles, this`nextId
      ensures IsFreshGrid(bubbles, level, width)
      ensures FreshRun(bubbles, old(nextId), ColorPool(level)) && nextId == old(nextId) + |bubbles|
      ensures BoardOk()
    {
      ghost var first := nextId;
      bubbles := [];
      var rows := 4 + level;
      for row := 0 to rows
        invariant Positions(bubbles) == Grid(row, width)
        invariant FreshRun(bubbles, first, ColorPool(level)) && nextId == first + |bubbles|
      {
        GridNextRow(Positions(bubbles), row, width);
        FillRow(row, first);
      }
      assert IsFreshGrid(bubbles, level, width);
      FreshRunIsValid(bubbles, first, ColorPool(level));
    }

    /** The inner loop of createInitialGrid: one row of fresh bubbles, 2r
        apart, from the row's first slot while x <= width - r. */
    method FillRow(row: nat, ghost first: nat)
      requires FreshRun(bubbles, first, ColorPool(level)) && nextId == first + |bubbles|
      modifies this`bubbles, this`nextId
      ensures Positions(bubbles) == Positions(old(bubbles)) + RowFrom(row, RowStart(row), width)
      ensures FreshRun(bubbles, first, ColorPool(level)) && nextId == first + |bubbles|
    {
      ghost var goal := Positions(bubbles) + RowFrom(row, RowStart(row), width);
      var offset := if row % 2 == 1 then RadiusPx else 0;
      var x := RadiusPx + offset;
      while x as real <= width as real - Radius
        invariant Positions(bubbles) + RowFrom(row, x, width) == goal
        invariant FreshRun(bubbles, first, ColorPool(level)) && nextId == first + |bubbles|
        decreases width - x
      {
        var color := DrawColor();
        var b := Bubble(nextId, Point(x as real, RowY(row)), Radius, color);
        RowFromUnfold(Positions(bubbles), row, x, width, goal);
        PositionsAppend(bubbles, b);
        FreshRunAppend(bubbles, first, ColorPool(level), b);
        bubbles := bubbles + [b];
        nextId := nextId + 1;
        x := x + 2 * RadiusPx;
      }
      RowFromDone(Positions(bubbles), row, x, width, goal);
    }

    /** resetLevel: optionally back to score 0 and level 1; then a new
        grid, a new preview colour and a loaded cannon. */
    method ResetLevel(resetScoreAndLevel: bool)
      requires Valid()
      modifies this`score, this`level, this`shotCount, this`bubbles, this`nextId, this`nextColor, this`current
      ensures Valid()
      ensures resetScoreAndLevel ==> score == 0 && level == 1
      ensures !resetScoreAndLevel ==> score == old(score) && level == old(level)
      ensures shotCount == 0
      ensures IsFreshGrid(bubbles, level, width)
      ensures current == Loaded(current.color)
    {
      if resetScoreAndLevel {
        score := 0;
        level := 1;
      }
      shotCount := 0;
      CreateInitialGrid();
      ghost var grid := bubbles;
      nextColor := DrawColor();
      SpawnCurrentBubble();
      assert bubbles == grid;
    }

    /** nextLevel: one level up, with a new grid and a loaded cannon; the
        score stays. */
    method NextLevel()
      requires Valid()
      modifies this`level, this`shotCount, this`bubbles, this`nextId, this`nextColor, this`current
      ensures Valid()
      ensures level == old(level) + 1 && shotCount == 0
      ensures IsFreshGrid(bubbles, level, width)
      ensures current == Loaded(current.color)
    {
      level := level + 1;
      shotCount := 0;
      CreateInitialGrid();
      ghost var grid := bubbles;
      nextColor := DrawColor();
      SpawnCurrentBubble();
      assert bubbles == grid;
    }

    /** startNewGame. */
    method StartNewGame()
      requires Valid()
      modifies this`state, this`score, this`level, this`shotCount, this`bubbles, this`nextId, this`nextColor, this`current
      ensures Valid()
      ensures state == Playing && score == 0 && level == 1 && shotCount == 0
      ensures IsFreshGrid(bubbles, 1, width)
      ensures current == Loaded(current.color)
    {
      state := Playing;
      ResetLevel(true);
    }

    /** continueGame: back to play with the state in memory. */
    method ContinueGame()
      modifies this`state
      ensures state == Playing
    {
      state := Playing;
    }

    /** pauseGame: only from Playing. */
    method PauseGame()
      modifies this`state
      ensures state == (if old(state) == Playing then Paused else old(state))
    {
      if state != Playing {
        return;
      }
      state := Paused;
    }

    /** resumeGame: only from Paused. */
    method ResumeGame()
      modifies this`state
      ensures state == (if old(state) == Paused then Playing else old(state))
    {
      if state != Paused {
        return;
      }
      state := Playing;
    }

    /** goToMainMenu. */
    method GoToMainMenu()
      modifies this`state
      ensures state == Menu
    {
      state := Menu;
    }

    /** updateAimDirection: aim from the cannon toward the pointer, never
        less than 40 px upward, normalised by `len`, its length. */
    method UpdateAimDirection(pointer: Point, len: real)
      requires len > 0.0 && len * len == SpeedSq(AimOffset(pointer))
      modifies this`aimDir
      ensures aimDir == Point(AimOffset(pointer).x / len, AimOffset(pointer).y / len)
      ensures SpeedSq(aimDir) == 1.0 && aimDir.y < 0.0
    {
      var off := AimOffset(pointer);
      aimDir := Point(off.x / len, off.y / len);
      NormalizedIsUnit(off.x, off.y, len);
    }

    /** Offset from the cannon to the pointer with dy clamped to at most -40. */
    function AimOffset(pointer: Point): (off: Point)
      ensures off.x == pointer.x - width as real / 2.0
      ensures off.y <= -40.0
      ensures pointer.y - shooterY <= -40.0 ==> off.y == pointer.y - shooterY
      ensures pointer.y - shooterY > -40.0 ==> off.y == -40.0
    {
      var dy := pointer.y - shooterY;
      Point(pointer.x - width as real / 2.0, if dy > -40.0 then -40.0 else dy)
    }

    /** startAim: only while Playing with a resting bubble in the cannon. */
    method StartAim(pointer: Point, len: real)
      requires Valid()
      requires len > 0.0 && len * len == SpeedSq(AimOffset(pointer))
      modifies this`isAiming, this`aimDir
      ensures Valid()
      ensures old(state) == Playing && !old(current.moving) ==>
        isAiming && aimDir == Point(AimOffset(pointer).x / len, AimOffset(pointer).y / len)
      ensures !(old(state) == Playing && !old(current.moving)) ==>
        isAiming == old(isAiming) && aimDir == old(aimDir)
    {
      if state != Playing {
        return;
      }
      if current.moving {
        return;
      }
      isAiming := true;
      UpdateAimDirection(pointer, len);
    }

    /** moveAim: only while aiming and Playing. */
    method MoveAim(pointer: Point, len: real)
      requires Valid()
      requires len > 0.0 && len * len == SpeedSq(AimOffset(pointer))
      modifies this`aimDir
      ensures Valid()
      ensures isAiming && state == Playing ==> aimDir == Point(AimOffset(pointer).x / len, AimOffset(pointer).y / len)
      ensures !(isAiming && state == Playing) ==> aimDir == old(aimDir)
    {
      if !isAiming {
        return;
      }
      if state != Playing {
        return;
      }
      UpdateAimDirection(pointer, len);
    }

    /** shoot: only while aiming, Playing and with a resting bubble; the
        bubble leaves along the aim at BUBBLE_SPEED. */
    method Shoot()
      requires Valid()
      modifies this`isAiming, this`current, this`shotCount
      ensures Valid()
      ensures old(isAiming) && state == Playing && !old(current.moving) ==>
        && current == old(current).(vel := Point(aimDir.x * BubbleSpeed, aimDir.y * BubbleSpeed), moving := true)
        && !isAiming && shotCount == old(shotCount) + 1
      ensures !(old(isAiming) && state == Playing && !old(current.moving)) ==>
        current == old(current) && isAiming == old(isAiming) && shotCount == old(shotCount)
    {
      if !isAiming {
        return;
      }
      if state != Playing {
        return;
      }
      if current.moving {
        return;
      }
      isAiming := false;
      current := current.(vel := Point(aimDir.x * BubbleSpeed, aimDir.y * BubbleSpeed), moving := true);
      ScaledUnitSquare(aimDir.x, aimDir.y, BubbleSpeed);
      shotCount := shotCount + 1;
    }

    /** The mouseleave and touchcancel handlers: aiming stops. */
    method CancelAim()
      modifies this`isAiming
      ensures !isAiming
    {
      isAiming := false;
    }

    /** removeFloatingBubbles: keep the bubbles connected to the ceiling,
        in board order, and score 5 per fallen bubble. */
    method RemoveFloatingBubbles()
      requires BoardOk()
      modifies this`bubbles, this`score, this`highScore
      ensures BoardOk()
      ensures bubbles == Survivors(old(bubbles))
      ensures score == old(score) + 5 * (|old(bubbles)| - |bubbles|)
      ensures highScore == if |bubbles| < |old(bubbles)| then Max(old(highScore), score) else old(highScore)
    {
      var topConnected := TopConnected(bubbles);
      var before := |bubbles|;
      var survivors := Retain(bubbles, topConnected);
      RetainKeepsWellFormed(bubbles, topConnected, nextId, ColorPool(level));
      var fallenCount := before - |survivors|;
      if fallenCount > 0 {
        score := score + fallenCount * 5;
        MaybeUpdateHighScore();
      }
      bubbles := survivors;
    }

    /** handleMatches: a same-colour group of three or more around the
        placed bubble is removed and scores 10 each; only then are the
        floating bubbles swept. */
    method HandleMatches(placed: Bubble)
      requires BoardOk()
      modifies this`bubbles, this`score, this`highScore
      ensures BoardOk()
      ensures bubbles == AfterMatch(old(bubbles), placed)
      ensures score == old(score) + MatchPoints(old(bubbles), placed)
      ensures |ColorGroup(old(bubbles), placed)| >= 3 ==> highScore == Max(old(highScore), score)
      ensures |ColorGroup(old(bubbles), placed)| < 3 ==> bubbles == old(bubbles) && score == old(score) && highScore == old(highScore)
    {
      var matchGroup := FloodFillColor(bubbles, placed);
      ElemsCard(matchGroup);
      if |matchGroup| >= 3 {
        PopGroup(Elems(matchGroup), |matchGroup|);
      }
    }

    /** The popping branch of handleMatches: the group leaves the board,
        scores 10 per bubble, and the floating bubbles are swept. */
    method PopGroup(toRemove: set<Bubble>, removedCount: nat)
      requires BoardOk()
      modifies this`bubbles, this`score, this`highScore
      ensures BoardOk()
      ensures bubbles == Survivors(Without(old(bubbles), toRemove))
      ensures score == old(score) + 10 * removedCount + 5 * (|Without(old(bubbles), toRemove)| - |bubbles|)
      ensures highScore == Max(old(highScore), score)
    {
      WithoutKeepsWellFormed(bubbles, toRemove, nextId, ColorPool(level));
      bubbles := Without(bubbles, toRemove);
      score := score + removedCount * 10;
      MaybeUpdateHighScore();
      RemoveFloatingBubbles();
    }

    /** Where the fired bubble comes to rest. Against a bubble: the best
        snap slot, else 2r behind the anchor along the flight direction
        (cos and sin of the flight angle are the velocity over its
        length, BUBBLE_SPEED). At the ceiling: its own position with y
        raised to at least r. */
    method PlacementPoint(anchor: Option<Bubble>) returns (p: Point)
      ensures PlacedBy(bubbles, anchor, current, width as real, sin60, p)
    {
      var placedX, placedY := current.pos.x, current.pos.y;
      if anchor.Some? {
        var cands := HexCandidates(anchor.value.pos, sin60);
        var snapPos := FindSnapPosition(bubbles, anchor.value, current.pos, width as real, cands);
        if snapPos.Some? {
          placedX, placedY := snapPos.value.x, snapPos.value.y;
        } else {
          var behind := FallbackPoint(anchor.value, current);
          placedX, placedY := behind.x, behind.y;
        }
      } else {
        if placedY < Radius {
          placedY := Radius;
        }
      }
      p := Point(placedX, placedY);
    }

    /** attachCurrentBubble: place the bubble, resolve matches, then
        settle the turn. */
    method AttachCurrentBubble(anchor: Option<Bubble>) returns (placed: Bubble)
      requires Valid()
      modifies this`current, this`bubbles, this`nextId, this`score, this`highScore, this`state,
               this`nextColor, this`pendingAdvances
      ensures Valid()
      ensures placed.id == old(nextId) && placed.color == old(current.color) && placed.radius == Radius
      ensures PlacedBy(old(bubbles), anchor, old(current), width as real, sin60, placed.pos)
      ensures anchor.Some? && old(current.moving) ==> Touching(placed.pos, anchor.value.pos)
      ensures bubbles == AfterMatch(old(bubbles) + [placed], placed)
      ensures nextId == old(nextId) + 1
      ensures score == old(score) + MatchPoints(old(bubbles) + [placed], placed)
      ensures highScore ==
        if |ColorGroup(old(bubbles) + [placed], placed)| >= 3 || bubbles == [] then Max(old(highScore), score)
        else old(highScore)
      ensures bubbles == [] ==>
        && pendingAdvances == old(pendingAdvances) + 1 && state == old(state)
        && current == old(current).(moving := false) && nextColor == old(nextColor)
      ensures bubbles != [] && ReachesShooterLine(bubbles, shooterY) ==>
        && state == GameOver && pendingAdvances == old(pendingAdvances)
        && current == old(current).(moving := false) && nextColor == old(nextColor)
      ensures bubbles != [] && !ReachesShooterLine(bubbles, shooterY) ==>
        state == old(state) && pendingAdvances == old(pendingAdvances) && current == Loaded(old(nextColor))
    {
      placed := PlaceCurrentBubble(anchor);
      ResolveTurn(placed);
    }

    /** The rest of attachCurrentBubble once the bubble is on the board:
        resolve matches around it, then settle the turn. */
    method ResolveTurn(placed: Bubble)
      requires Valid() && !current.moving
      modifies this`current, this`bubbles, this`score, this`highScore, this`state, this`nextColor, this`pendingAdvances
      ensures Valid()
      ensures bubbles == AfterMatch(old(bubbles), placed)
      ensures score == old(score) + MatchPoints(old(bubbles), placed)
      ensures highScore ==
        if |ColorGroup(old(bubbles), placed)| >= 3 || bubbles == [] then Max(old(highScore), score) else old(highScore)
      ensures bubbles == [] ==>
        && pendingAdvances == old(pendingAdvances) + 1 && state == old(state)
        && current == old(current) && nextColor == old(nextColor)
      ensures bubbles != [] && ReachesShooterLine(bubbles, shooterY) ==>
        && state == GameOver && pendingAdvances == old(pendingAdvances)
        && current == old(current) && nextColor == old(nextColor)
      ensures bubbles != [] && !ReachesShooterLine(bubbles, shooterY) ==>
        state == old(state) && pendingAdvances == old(pendingAdvances) && current == Loaded(old(nextColor))
    {
      HandleMatches(placed);
      SettleTurn();
    }

    /** The placement half of attachCurrentBubble: the fired bubble stops
        and joins the board under a fresh identity. */
    method PlaceCurrentBubble(anchor: Option<Bubble>) returns (placed: Bubble)
      requires Valid()
      modifies this`current, this`bubbles, this`nextId
      ensures Valid() && !current.moving
      ensures current == old(current).(moving := false)
      ensures placed.id == old(nextId) && placed.color == old(current.color) && placed.radius == Radius
      ensures PlacedBy(old(bubbles), anchor, old(current), width as real, sin60, placed.pos)
      ensures anchor.Some? && old(current.moving) ==> Touching(placed.pos, anchor.value.pos)
      ensures bubbles == old(bubbles) + [placed] && nextId == old(nextId) + 1
    {
      var pos := PlacementPoint(anchor);
      if anchor.Some? && current.moving {
        SnappedTouches(bubbles, anchor.value, current, width as real, sin60, pos);
      }
      current := current.(moving := false);
      placed := Bubble(nextId, pos, current.radius, current.color);
      nextId := nextId + 1;
      AppendFreshKeepsIds(bubbles, nextId - 1, ColorPool(level), placed);
      bubbles := bubbles + [placed];
    }

    /** The end of attachCurrentBubble, once matches are resolved: exactly
        one of a cleared board (a level advance is scheduled), a board that
        reaches the shooter line (game over), or a new bubble loaded. */
    method SettleTurn()
      requires Valid() && !current.moving
      modifies this`current, this`highScore, this`state, this`nextColor, this`pendingAdvances
      ensures Valid()
      ensures bubbles == [] ==>
        && pendingAdvances == old(pendingAdvances) + 1 && state == old(state) && current == old(current)
        && nextColor == old(nextColor) && highScore == Max(old(highScore), score)
      ensures bubbles != [] && ReachesShooterLine(bubbles, shooterY) ==>
        && state == GameOver && pendingAdvances == old(pendingAdvances) && current == old(current)
        && nextColor == old(nextColor) && highScore == old(highScore)
      ensures bubbles != [] && !ReachesShooterLine(bubbles, shooterY) ==>
        && state == old(state) && pendingAdvances == old(pendingAdvances) && current == Loaded(old(nextColor))
        && highScore == old(highScore)
    {
      if |bubbles| == 0 {
        MaybeUpdateHighScore();
        pendingAdvances := pendingAdvances + 1;
        return;
      }

      if ReachesShooterLine(bubbles, shooterY) {
        state := GameOver;
        return;
      }

      SpawnCurrentBubble();
    }

    /** update: one tick of flight, only while Playing and in flight. A
        ceiling hit attaches with no anchor before any bubble is tested;
        otherwise the first bubble within the collision distance is the
        anchor; at most one attach happens per tick. */
    method Update() returns (tick: Tick)
      requires Valid()
      modifies this`current, this`bubbles, this`nextId, this`score, this`highScore, this`state,
               this`nextColor, this`pendingAdvances
      ensures Valid()
      ensures old(state) != Playing || !old(current.moving) ==>
        && tick == Idle && current == old(current) && bubbles == old(bubbles) && score == old(score) && state == old(state)
        && highScore == old(highScore) && nextId == old(nextId) && nextColor == old(nextColor)
        && pendingAdvances == old(pendingAdvances)
      ensures old(state) == Playing && old(current.moving) ==> tick != Idle
      ensures tick == Flying ==>
        && old(state) == Playing && old(current.moving)
        && current == Advance(old(current), width as real) && !AtCeiling(current)
        && (forall b :: b in bubbles ==> DistanceSq(current.pos, b.pos) > CollisionDistSq(current.radius))
        && bubbles == old(bubbles) && score == old(score) && state == old(state)
        && highScore == old(highScore) && nextId == old(nextId) && nextColor == old(nextColor)
        && pendingAdvances == old(pendingAdvances)
      ensures tick.Attached? ==>
        && old(state) == Playing && old(current.moving)
        && tick.placed.color == old(current.color)
        && bubbles == AfterMatch(old(bubbles) + [tick.placed], tick.placed)
      ensures tick.Attached? ==> (tick.anchor.None? <==> AtCeiling(Advance(old(current), width as real)))
      ensures tick.Attached? && tick.anchor.None? ==>
        tick.placed.pos == Point(Advance(old(current), width as real).pos.x, Radius)
      ensures tick.Attached? && tick.anchor.Some? ==>
        var moved := Advance(old(current), width as real);
        && FirstStruck(old(bubbles), moved.pos, tick.anchor.value)
        && SnappedTo(old(bubbles), tick.anchor.value, moved, width as real, sin60, tick.placed.pos)
        && Touching(tick.placed.pos, tick.anchor.value.pos)
      ensures tick.Attached? ==>
        && tick.placed.id == old(nextId) && nextId == old(nextId) + 1
        && score == old(score) + MatchPoints(old(bubbles) + [tick.placed], tick.placed)
        && highScore ==
          if |ColorGroup(old(bubbles) + [tick.placed], tick.placed)| >= 3 || bubbles == [] then Max(old(highScore), score)
          else old(highScore)
      ensures tick.Attached? && bubbles == [] ==>
        && pendingAdvances == old(pendingAdvances) + 1 && state == Playing
        && current == Landed(old(current), width as real) && nextColor == old(nextColor)
      ensures tick.Attached? && bubbles != [] && ReachesShooterLine(bubbles, shooterY) ==>
        && state == GameOver && pendingAdvances == old(pendingAdvances)
        && current == Landed(old(current), width as real) && nextColor == old(nextColor)
      ensures tick.Attached? && bubbles != [] && !ReachesShooterLine(bubbles, shooterY) ==>
        && state == Playing && pendingAdvances == old(pendingAdvances) && current == Loaded(old(nextColor))
    {
      if state != Playing || !current.moving {
        return Idle;
      }
      tick := FlightTick();
    }

    /** The in-flight half of update: the shot moves one tick, then a
        ceiling hit attaches with no anchor before any bubble is tested;
        otherwise the first bubble within the collision distance is the
        anchor; at most one attach happens per tick. */
    method FlightTick() returns (tick: Tick)
      requires Valid() && state == Playing && current.moving
      modifies this`current, this`bubbles, this`nextId, this`score, this`highScore, this`state,
               this`nextColor, this`pendingAdvances
      ensures Valid()
      ensures tick != Idle
      ensures tick == Flying ==>
        && current == Advance(old(current), width as real) && !AtCeiling(current)
        && (forall b :: b in bubbles ==> DistanceSq(current.pos, b.pos) > CollisionDistSq(current.radius))
        && bubbles == old(bubbles) && score == old(score) && state == old(state)
        && highScore == old(highScore) && nextId == old(nextId) && nextColor == old(nextColor)
        && pendingAdvances == old(pendingAdvances)
      ensures tick.Attached? ==>
        && tick.placed.color == old(current.color)
        && bubbles == AfterMatch(old(bubbles) + [tick.placed], tick.placed)
      ensures tick.Attached? ==> (tick.anchor.None? <==> AtCeiling(Advance(old(current), width as real)))
      ensures tick.Attached? && tick.anchor.None? ==>
        tick.placed.pos == Point(Advance(old(current), width as real).pos.x, Radius)
      ensures tick.Attached? && tick.anchor.Some? ==>
        var moved := Advance(old(current), width as real);
        && FirstStruck(old(bubbles), moved.pos, tick.anchor.value)
        && SnappedTo(old(bubbles), tick.anchor.value, moved, width as real, sin60, tick.placed.pos)
        && Touching(tick.placed.pos, tick.anchor.value.pos)
      ensures tick.Attached? ==>
        && tick.placed.id == old(nextId) && nextId == old(nextId) + 1
        && score == old(score) + MatchPoints(old(bubbles) + [tick.placed], tick.placed)
        && highScore ==
          if |ColorGroup(old(bubbles) + [tick.placed], tick.placed)| >= 3 || bubbles == [] then Max(old(highScore), score)
          else old(highScore)
      ensures tick.Attached? && bubbles == [] ==>
        && pendingAdvances == old(pendingAdvances) + 1 && state == Playing
        && current == Landed(old(current), width as real) && nextColor == old(nextColor)
      ensures tick.Attached? && bubbles != [] && ReachesShooterLine(bubbles, shooterY) ==>
        && state == GameOver && pendingAdvances == old(pendingAdvances)
        && current == Landed(old(current), width as real) && nextColor == old(nextColor)
      ensures tick.Attached? && bubbles != [] && !ReachesShooterLine(bubbles, shooterY) ==>
        && state == Playing && pendingAdvances == old(pendingAdvances) && current == Loaded(old(nextColor))
    {
      current := Advance(current, width as real);
      ghost var moved, board := current, bubbles;

      if AtCeiling(current) {
        current := current.(pos := Point(current.pos.x, current.radius));
        var placed := AttachCurrentBubble(None);
        assert placed.pos == Point(moved.pos.x, Radius);
        return Attached(placed, None);
      }

      var k := FirstHit(bubbles, current.pos, CollisionDistSq(current.radius));
      if k < |bubbles| {
        var struck := bubbles[k];
        assert FirstStruck(board, moved.pos, struck);
        var placed := AttachCurrentBubble(Some(struck));
        assert SnappedTo(board, struck, moved, width as real, sin60, placed.pos) && Touching(placed.pos, struck.pos);
        return Attached(placed, Some(struck));
      }
      return Flying;
    }

    /** computeTrajectory: the preview path from the loaded bubble along
        the aim, empty unless Playing with a resting bubble. Only
        previewPath changes. */
    method ComputeTrajectory()
      modifies this`previewPath
      ensures current.moving || state != Playing ==> previewPath == []
      ensures !current.moving && state == Playing ==>
        previewPath == [current.pos] + Trace(bubbles, width as real, current.pos, aimDir, MaxTrajectorySteps)
      ensures |previewPath| <= MaxTrajectorySteps + 1
    {
      previewPath := [];
      if current.moving {
        return;
      }
      if state != Playing {
        return;
      }

      var pos := current.pos;
      var dir := aimDir;
      var path := [pos];
      ghost var goal := [current.pos] + Trace(bubbles, width as real, current.pos, aimDir, MaxTrajectorySteps);

      var i := 0;
      while i < MaxTrajectorySteps
        invariant 0 <= i <= MaxTrajectorySteps
        invariant path + Trace(bubbles, width as real, pos, dir, MaxTrajectorySteps - i) == goal
      {
        ghost var pp := path;
        TraceUnfold(bubbles, width as real, pos, dir, MaxTrajectorySteps - i);
        var next := TraceStep(pos, dir, width as real);
        pos, dir := next.0, next.1;

        if pos.y <= Radius {
          pos := Point(pos.x, Radius);
          path := path + [pos];
          break;
        }

        var k := FirstHit(bubbles, pos, CollisionDistSq(Radius));
        var hit := k < |bubbles|;
        path := path + [pos];
        if hit {
          break;
        }
        assert !HitsAny(bubbles, pos);
        ConcatAssoc(pp, [pos], Trace(bubbles, width as real, pos, dir, MaxTrajectorySteps - i - 1));
        i := i + 1;
      }
      TraceBound(bubbles, width as real, current.pos, aimDir, MaxTrajectorySteps);
      previewPath := path;
    }

    /** The deferred nextLevel of a cleared board: it fires later, and
        advances only if the game is still being played. */
    method FireScheduledAdvance()
      requires Valid() && pendingAdvances > 0
      modifies this`pendingAdvances, this`level, this`shotCount, this`bubbles, this`nextId, this`nextColor, this`current
      ensures Valid()
      ensures pendingAdvances == old(pendingAdvances) - 1
      ensures old(state) == Playing ==>
        && level == old(level) + 1 && IsFreshGrid(bubbles, level, width)
        && shotCount == 0 && current == Loaded(current.color)
      ensures old(state) != Playing ==>
        && level == old(level) && bubbles == old(bubbles) && current == old(current) && shotCount == old(shotCount)
        && nextColor == old(nextColor) && nextId == old(nextId)
    {
      pendingAdvances := pendingAdvances - 1;
      if state == Playing {
        NextLevel();
      }
    }
  }

  /** The fired shot as it comes to rest in the cannon after its last
      tick: moved once, lifted to the ceiling row when it reached the
      ceiling, and stopped. It never rests above its own radius. */
  function Landed(s: Shot, width: real): (t: Shot)
    ensures !t.moving && t.color == s.color && t.radius == s.radius && t.vel == Advance(s, width).vel
    ensures t.pos.y >= t.radius
  {
    var moved := Advance(s, width);
    if AtCeiling(moved) then moved.(pos := Point(moved.pos.x, moved.radius), moving := false)
    else moved.(moving := false)
  }

  /** A loaded bubble rests at the middle of the shooter line with the
      given colour and the standard radius, at zero velocity. */
  lemma LoadedRests(g: Game, c: Color)
    ensures var s := g.Loaded(c);
      s.color == c && s.radius == Radius && !s.moving && SpeedSq(s.vel) == 0.0
      && s.pos == Point(g.width as real / 2.0, g.shooterY)
  {
  }

  lemma ConcatAssoc<T>(a: seq<T>, b: seq<T>, c: seq<T>)
    ensures a + (b + c) == (a + b) + c
  {
  }

  /** Bubbles numbered first, first + 1, ... with the standard radius
      and colours from the first `pool` palette entries. */
  ghost predicate FreshRun(s: seq<Bubble>, first: nat, pool: nat) {
    forall i :: 0 <= i < |s| ==> s[i].id == first + i && s[i].radius == Radius && s[i].color < pool
  }

  lemma FreshRunAppend(s: seq<Bubble>, first: nat, pool: nat, b: Bubble)
    requires FreshRun(s, first, pool)
    requires b.id == first + |s| && b.radius == Radius && b.color < pool
    ensures FreshRun(s + [b], first, pool)
  {
  }

  lemma PositionsAppend(s: seq<Bubble>, b: Bubble)
    ensures Positions(s + [b]) == Positions(s) + [b.pos]
  {
  }

  /** Settled bubbles have distinct identities below `bound`, the
      standard radius and colours from the first `pool` palette entries. */
  ghost predicate WellFormedBoard(s: seq<Bubble>, bound: nat, pool: nat) {
    && DistinctIds(s)
    && (forall b :: b in s ==> b.id < bound && b.radius == Radius && b.color < pool)
  }

  lemma FreshRunIsValid(s: seq<Bubble>, first: nat, pool: nat)
    requires FreshRun(s, first, pool)
    ensures WellFormedBoard(s, first + |s|, pool)
  {
  }

  lemma AppendFreshKeepsIds(s: seq<Bubble>, bound: nat, pool: nat, b: Bubble)
    requires WellFormedBoard(s, bound, pool)
    requires b.id == bound && b.radius == Radius && b.color < pool
    ensures WellFormedBoard(s + [b], bound + 1, pool)
  {
    assert forall i :: 0 <= i < |s| ==> (s + [b])[i] == s[i];
  }

  lemma RetainKeepsWellFormed(s: seq<Bubble>, keep: set<Bubble>, bound: nat, pool: nat)
    requires WellFormedBoard(s, bound, pool)
    ensures WellFormedBoard(Retain(s, keep), bound, pool)
  {
  }

  lemma WithoutKeepsWellFormed(s: seq<Bubble>, gone: set<Bubble>, bound: nat, pool: nat)
    requires WellFormedBoard(s, bound, pool)
    ensures WellFormedBoard(Without(s, gone), bound, pool)
  {
  }

  lemma TraceBound(board: seq<Bubble>, width: real, pos: Point, dir: Point, n: nat)
    ensures |[pos] + Trace(board, width, pos, dir, n)| <= n + 1
  {
  }
}
