# Bubble shooter engine — a verified Dafny model

This project models the simulation core of a browser bubble-shooter
(`game.js`). It covers:
- the settled board and its two breadth-first searches: the same-colour flood fill and the ceiling sweep that drops floating clusters;
- match resolution and its scoring;
- the snap resolver that places a fired bubble in a hexagonal slot next to the bubble it struck;
- the per-tick flight step with wall reflection, ceiling contact and collision;
- the bounded trajectory preview;
- the staggered starting grid;
- the game-state machine with its input guards, and the turn pipeline (place, match, win, lose, respawn).

Modules, leaves first:

| module | file | content |
|---|---|---|
| `Wrappers` | wrappers.dfy | `Option` |
| `Geometry` | geometry.dfy | points, squared distances, the radius, speed and distance thresholds |
| `Board` | board.dfy | bubbles with identities, order-preserving filters, and reachability over neighbour chains as the specification of both searches |
| `Matching` | matching.dfy | `floodFillColor` and the ceiling search of `removeFloatingBubbles` as loops over a queue and a visited set, proved equal to the reachability sets |
| `Snapping` | snapping.dfy | the six hexagonal candidates and `findSnapPosition` |
| `Flight` | flight.dfy | the fired bubble's step, the collision scan, and the preview path as a function |
| `Layout` | layout.dfy | the rows of `createInitialGrid` |
| `Engine` | game.dfy | class `Game`, holding the module-level mutable state of `game.js` as fields, and the operations that change it |

Modelling decisions:
- **Identity.** JavaScript removes bubbles by object identity (`Set` membership). Each bubble therefore carries an `id`. The class invariant keeps ids distinct, so value equality of bubbles is object identity.
- **Numbers.** Coordinates are `real`, and every distance test is on squared distances.
- **Trigonometry and square roots** are inputs:
  - the sine of 60 degrees is the constructor parameter `sin60`, required to be positive with square 3/4;
  - the length of the aim offset is a parameter `len`, required to be its square root;
  - the direction used by the no-slot fallback is the velocity over its length. Its length is `BUBBLE_SPEED` while a bubble is in flight, which the class invariant keeps.
- **Random colour draws** are an unconstrained choice below `min(5, 3 + level)`.
- **The delayed level advance** (`setTimeout`) is a counter of scheduled advances. `FireScheduledAdvance` fires one of them later.

Three behaviours of `game.js` that the model keeps as written:
- The delayed advance checks only that the state is Playing when it fires. It is not tied to the round that scheduled it. A new game started within the delay is therefore advanced to level 2.
- Snap candidates are compared against the shot's position after the tick's move, not before it.
- The trajectory preview uses the same collision threshold as the flight step.

## Model

| member | source | states |
|---|---|---|
| Geometry.DistanceSq | game.js:383-387 | squared distance is never negative and is zero from a point to itself |
| Geometry.DistanceSqSymmetric | game.js:383-387 | distanceSq(a, b) == distanceSq(b, a), so the neighbour relation is symmetric |
| Geometry.CollisionDistSq | game.js:685-687 | the collision threshold is 0.9 of the squared touching distance, hence never beyond touching |
| Geometry.NormalizedIsUnit | game.js:308-310 | dividing the aim offset by its length gives a unit vector |
| Geometry.ScaledUnitSquare | game.js:350-351 | a unit direction scaled by BUBBLE_SPEED has squared speed 64 |
| Board.ColorPool | game.js:178-181 | the number of palette entries drawn from is between 3 and 5, equal to 5 or to 3 + level, and never above 3 + level |
| Board.Without | game.js:520-522 | the filter keeps exactly the bubbles not in the removed set, in their original order, never grows, and keeps ids distinct |
| Board.Retain | game.js:499 | the filter keeps exactly the bubbles in the kept set, in their original order, never grows, and keeps ids distinct |
| Board.Near | game.js:460 | two bubbles are neighbours exactly when their squared centre distance is at most NEIGHBOR_DIST_SQ; the relation is symmetric and reflexive |
| Board.IsSeed | game.js:480 | a ceiling seed is exactly a bubble with y <= 1.5r, so every bubble in the top row is one |
| Board.SameColor | game.js:459 | holds exactly the board bubbles of the given colour |
| Board.DiscoveredIsReachable | game.js:454-465 | every bubble a breadth-first search discovers is reachable from its sources through neighbour chains |
| Board.ClosedContainsReachable | game.js:454-465 | a set holding the sources and closed under neighbours holds everything reachable |
| Board.AnchoredSetClosed | game.js:479-496 | the anchored bubbles include every ceiling seed, lie on the board, and every neighbour of an anchored bubble is anchored |
| Board.WalkVerticesAnchored | game.js:487-496 | every bubble on a neighbour chain from a seed is anchored |
| Board.RetainAll | game.js:499 | filtering by a set that holds every bubble changes nothing |
| Board.SweepIdempotent | game.js:474-510 | a second floating-cluster sweep right after the first removes nothing |
| Board.ElemsCard | game.js:520-521 | the Set of a duplicate-free group has as many members as the group |
| Board.WithoutCard | game.js:520-522 | on a duplicate-free board the filter drops exactly the board bubbles in the removed set |
| Board.RemoveGroupSize | game.js:519-522 | removing a duplicate-free group of board bubbles shrinks the board by exactly the group's length |
| Board.RemoveSetSize | game.js:520-522 | removing a set of board bubbles shrinks the board by exactly its size |
| Board.ColorGroupOnBoard | game.js:446-468 | the colour group of a board bubble lies on the board |
| Board.DistinctIdsNoDuplicates | game.js:520-522 | distinct ids mean no bubble occurs twice |
| Matching.ScanNeighbors | game.js:457-464 | one scan of the board enqueues, without repeats and as a subsequence of the board (board order), exactly the unvisited admitted neighbours of the dequeued bubble, and marks them visited |
| Matching.FloodFillColor | game.js:446-468 | the result starts with `start`, has no duplicates, every later member is a board bubble of start's colour next to an earlier member, it is closed under same-coloured neighbours, and its members are exactly start's colour group |
| Matching.FloodStep | game.js:454-464 | one dequeue and scan keeps the flood fill's loop invariant |
| Matching.FloodOrderIsGroup | game.js:446-468 | a closed, duplicate-free discovery order from `start` holds exactly its colour group |
| Matching.TopConnected | game.js:475-496 | the bubbles the ceiling search marks are exactly those reachable from a bubble with y <= 1.5r |
| Matching.SweepStep | game.js:488-495 | one dequeue and scan keeps the ceiling search's loop invariant |
| Matching.SweepOrderIsAnchored | game.js:475-496 | a closed discovery order from the seeds holds exactly the anchored bubbles |
| Snapping.HexCandidates | game.js:401-406 | six candidates; the first is 2r to the right of the anchor, candidate i + 3 is candidate i mirrored through the anchor, and the slots go round in order of angle (x order, and with a positive sine slots 1 and 2 on one side of the anchor and 4 and 5 on the other), which fixes the tie-break |
| Snapping.HexCandidatesOnCircle | game.js:401-406 | with the true sine of 60 degrees every candidate is exactly 2r from the anchor |
| Snapping.IsSin60 | game.js:401-404 | the sine of 60 degrees, positive with square 3/4, lies between 0.8 and 0.9 |
| Snapping.InPlayfield | game.js:412-413 | a candidate that passes the wall and ceiling tests holds a whole bubble between the walls and below the top, which needs a canvas at least 2r wide |
| Snapping.ClearOf | game.js:416-425 | an empty board, or one holding only the struck bubble, leaves every candidate clear |
| Snapping.ClearOfEntries | game.js:416-425 | a candidate is clear exactly when every board entry other than the struck bubble is at least 2r - 2 away; one closer entry blocks it |
| Snapping.Overlaps | game.js:416-425 | true exactly when a bubble other than the anchor is closer than 2r - 2 to the candidate |
| Snapping.FindSnapPosition | game.js:396-436 | no slot exactly when no candidate is inside the walls, not above the ceiling limit and clear of other bubbles; otherwise a valid candidate that no valid candidate beats, and that no earlier valid candidate ties |
| Snapping.NearestValidUnique | game.js:428-433 | the strict comparison makes the chosen slot unique |
| Flight.Advance | game.js:665-675 | the step keeps radius, colour and speed, moves y by dy and keeps dy; reaching the left wall (x - r <= 0) clamps x to r and negates dx; otherwise reaching the right wall (x + r >= WIDTH) clamps x to WIDTH - r and negates dx; with no wall reached it is a plain move |
| Flight.AtCeiling | game.js:678 | the shot is at the ceiling exactly when y <= its radius |
| Flight.FirstHit | game.js:686-691 | the index of the first board bubble within the collision distance, or the board length when none is |
| Flight.HitsAny | game.js:645-652 | the preview's strike test holds exactly when some board entry lies within 0.9 of the squared touching distance, so never on an empty board |
| Flight.TraceStep | game.js:625-635 | one preview step moves 8 px along the direction and keeps dy; x <= r clamps to r and negates dx; otherwise x >= WIDTH - r clamps to WIDTH - r and negates dx; otherwise a plain move with the direction kept |
| Flight.TraceStepIsAdvance | game.js:625-635 | a preview step is exactly the flight tick of a bubble whose velocity is 8 px along the aim: same point, same wall, same reflection |
| Flight.Trace | game.js:624-656 | the preview adds at most one point per remaining step, and at least one when a step remains |
| Flight.TraceShape | game.js:612-657 | preview points lie between the walls; all but the last are below the ceiling and strike no bubble; a path cut short ends at the ceiling or on a strike |
| Layout.RowY | game.js:206 | every row lies at least r below the top |
| Layout.RowStart | game.js:203-205 | rows start at x = r, or at x = 2r exactly on odd rows |
| Layout.RowFrom | game.js:205-213 | a non-empty row starts at its first x on the row's line |
| Layout.Grid | game.js:197-215 | zero rows give no bubbles |
| Layout.RowFromInBounds | game.js:205-206 | every slot of a row is on the row's line, between the start and width - r, and slots are 2r apart |
| Layout.GridInBounds | game.js:197-215 | every starting slot is inside the walls, no higher than r and no lower than the last row |
| Layout.GridStartsAtCeiling | game.js:202-206 | on a canvas at least 2r wide the first slot is (r, r), near enough to the ceiling to anchor the board |
| Engine.Max | game.js:169-175 | the larger of two scores |
| Engine.ReachesShooterLine | game.js:533-540 | the check finds nothing on an empty board |
| Engine.ReachesShooterLineIff | game.js:533-540 | checkLose is true exactly when some bubble has y + radius >= SHOOTER_Y - 5 |
| Engine.MatchRemovesGroup | game.js:517-523 | a popped group takes exactly its own members off the board |
| Engine.MatchAccounting | game.js:517-531 | resolving a placement never adds bubbles, scores exactly when bubbles leave, and scores 5 to 10 points per bubble that leaves |
| Engine.ResolvedBoardIsSettled | game.js:517-531 | after a pop and sweep, a further sweep removes nothing |
| Engine.FallbackPoint | game.js:560-563 | the no-slot fallback for a shot at flight speed lies exactly 2r from the struck bubble |
| Engine.SnappedTouches | game.js:551-566 | with the true sine of 60 degrees, a bubble placed against a struck bubble at flight speed touches it, whether it took a hexagon slot or the fallback |
| Engine.Game.constructor | game.js:898-901 | start-up loads the stored best score (0 when none), sets up level 1 with a fresh grid and a loaded cannon, and shows the menu; the invariant holds |
| Engine.LoadedRests | game.js:220-228 | a loaded bubble rests at (WIDTH/2, SHOOTER_Y) with the given colour, the standard radius and zero velocity |
| Engine.Landed | game.js:664-680 | the shot at rest after its last tick: stopped, same colour and radius, the velocity of the final move, and never above its own radius (ceiling hits are lowered to y = r) |
| Engine.Game.DrawColor | game.js:178-181 | the drawn colour index is below min(5, 3 + level) |
| Engine.Game.MaybeUpdateHighScore | game.js:169-175 | the best score becomes the larger of itself and the score |
| Engine.Game.SpawnCurrentBubble | game.js:218-230 | the cannon holds a resting bubble of the previewed colour at (WIDTH/2, SHOOTER_Y), and a new in-range preview colour is drawn |
| Engine.Game.CreateInitialGrid | game.js:197-215 | the board is exactly the 4 + level staggered rows, with fresh, consecutive ids and in-range colours |
| Engine.Game.FillRow | game.js:203-213 | one row of fresh bubbles is appended, 2r apart from the row start while x <= width - r |
| Engine.Game.ResetLevel | game.js:233-243 | optionally back to score 0 and level 1; shots to 0, a fresh grid for the level, a loaded cannon; the invariant holds |
| Engine.Game.NextLevel | game.js:246-253 | one level up, shots to 0, a fresh grid for the new level, a loaded cannon, score kept |
| Engine.Game.StartNewGame | game.js:837-842 | Playing at level 1 with score 0, shots at 0, a fresh level-1 grid and a resting bubble loaded in the cannon |
| Engine.Game.ContinueGame | game.js:844-849 | the state becomes Playing and nothing else changes |
| Engine.Game.PauseGame | game.js:851-855 | only Playing becomes Paused; any other state is unchanged |
| Engine.Game.ResumeGame | game.js:857-861 | only Paused becomes Playing; any other state is unchanged |
| Engine.Game.GoToMainMenu | game.js:863-867 | any state goes to Menu |
| Engine.Game.AimOffset | game.js:298-306 | dx is relative to the cannon; dy is the pointer's offset when that is at most -40, and exactly -40 otherwise |
| Engine.Game.UpdateAimDirection | game.js:297-315 | the aim becomes the normalised offset: a unit vector pointing upward |
| Engine.Game.StartAim | game.js:317-326 | aiming starts and the aim follows the pointer only while Playing with a resting bubble; otherwise nothing changes |
| Engine.Game.MoveAim | game.js:328-335 | the aim follows the pointer only while aiming and Playing; otherwise it is unchanged |
| Engine.Game.Shoot | game.js:342-356 | only while aiming, Playing and resting: the bubble moves along the aim at BUBBLE_SPEED, aiming stops, shots rise by exactly 1; otherwise nothing changes |
| Engine.Game.CancelAim | game.js:362-368 | leaving the canvas or cancelling a touch stops aiming and changes nothing else |
| Engine.Game.RemoveFloatingBubbles | game.js:474-510 | the board becomes exactly its anchored bubbles in their original order; the score rises by 5 per fallen bubble; the best score is updated only when something fell |
| Engine.Game.HandleMatches | game.js:517-531 | a group of fewer than 3 changes nothing; otherwise the group is removed, then floaters fall, with 10 per popped and 5 per fallen bubble |
| Engine.Game.PopGroup | game.js:519-529 | the removed set leaves the board, 10 per bubble is scored before the floater sweep, and the best score is updated |
| Engine.Game.PlacementPoint | game.js:551-566 | at the ceiling: the bubble's own x with y raised to at least r; against a bubble: the nearest valid snap slot, or the fallback 2r behind the anchor when no slot is valid |
| Engine.Game.PlaceCurrentBubble | game.js:551-576 | the bubble stops and exactly one bubble with the next id, the shot's colour and the placement point is appended; a bubble in flight that struck another ends up touching it |
| Engine.Game.AttachCurrentBubble | game.js:548-600 | placed with the next id (nextId advances by one) and the shot's colour at the placement point, touching the struck bubble; board, score and best score are those of resolving the placement; then exactly one of win (advance scheduled, stopped shot left in the cannon, preview colour kept), loss (GameOver, the same) or respawn (the previewed colour loaded) |
| Engine.Game.ResolveTurn | game.js:577-599 | board, score and best score become those of resolving matches around the placed bubble; then exactly one of win or loss (shot and preview colour unchanged, so no respawn) or respawn |
| Engine.Game.SettleTurn | game.js:580-599 | an empty board schedules an advance and updates the best score; otherwise a board reaching the shooter line ends the game; in both the shot and the preview colour stay as they were; otherwise the next bubble is loaded |
| Engine.Game.Update | game.js:661-693 | no-op exactly unless Playing and in flight, with every field it may change (best score, ids, preview colour, scheduled advances) left as it was; otherwise the outcome of FlightTick |
| Engine.Game.FlightTick | game.js:664-692 | exactly one of still flying (moved, below the ceiling, striking nothing, nothing else changed), ceiling attach at y = r before any bubble is tested, or attach against the first bubble in board order within the collision distance, placed by the snap rule and touching it; an attach carries the turn's id, score, best score and its win, loss or respawn outcome, the shot left as Landed in the first two |
| Engine.Game.ComputeTrajectory | game.js:612-657 | only the preview changes; it is empty unless Playing with a resting bubble, otherwise it is the start point followed by the bounded bounce path, at most 1201 points |
| Engine.Game.FireScheduledAdvance | game.js:584-588 | a scheduled advance fires once; if the game is still Playing it moves to the next level with a fresh grid, shots at 0 and a resting bubble loaded; otherwise level, board, shot, shot count, preview colour and ids are unchanged |

## Left out

- Rendering, audio, HUD text, overlays and the DOM (game.js:4-24, 82-147, 183-189, 257-265, 695-827) have no effect on the simulated state.
- `getCanvasPos` (game.js:272-290) and the raw pointer events are not modelled. The aim operations take the pointer position in canvas space.
- `aimPoint` is not modelled: it is assigned (game.js:58, 314) and never read.
- The keyboard pause toggle (game.js:371-379) and the restart and pause buttons (game.js:869-894) are not modelled as separate members. Each is a composition of modelled operations (`PauseGame`, `ResumeGame`, `StartNewGame`, `ResetLevel(false)`, `ContinueGame`).
- `requestAnimationFrame` is not modelled; `Update` is one tick.
- `localStorage` (game.js:151-166) becomes the constructor's `stored` parameter. A missing or unparsable value is `None`, and saving is not modelled.
- Floating point is not modelled: coordinates are exact reals, so rounding in the source's comparisons is not captured.
- Trigonometry and square roots are inputs, not computed:
  - `Math.cos`/`Math.sin` (game.js:402-404) through `sin60`;
  - `Math.sqrt` (game.js:308) through `len`.
  The source's `|| 1` fallback for a zero length is never taken, because dy <= -40, so it is left out.
- Engine.FallbackPoint: the `atan2` fallback (game.js:560-563) is modelled as velocity / BUBBLE_SPEED. This equals the cosine and sine of the flight angle whenever the bubble is in flight, the only time the source attaches. It differs for a resting bubble with zero velocity, which never attaches.
- `Math.random` colour draws are a nondeterministic choice below the colour-pool bound, and colours are palette indices rather than CSS strings. The `nextBubbleColor || randColorForLevel()` fallback in `spawnCurrentBubble` is dead: the preview colour is always set and is a non-empty string. Only the preview colour is loaded.
- `currentBubble` is never null once start-up has run, so the `!currentBubble` guards are not modelled.
- The 900 ms timer is a count of scheduled advances. When they fire relative to other events is left to the caller of `FireScheduledAdvance`.
- Engine.Game.MaybeUpdateHighScore: `highScore >= score` is not a class invariant, because a stored best score is read unchecked and may be anything. It is stated after each update only.
- Flight.Trace: its own contract states only the length bound; its shape is the separate lemma `TraceShape`.
- Layout.Grid: its own contract covers only the empty case; slot bounds are `GridInBounds`.
