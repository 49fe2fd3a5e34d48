# Pong Wars simulation step, in Dafny

A model of the simulation core of Pong Wars (`src/wasmJsMain/kotlin/pong_wars.kt`):
two balls bounce over a grid of day and night cells, each repainting the
cells it touches to its own colour, and a score counts the cells of each
colour.

The model follows the source's own shape:

- `Physics` (`Physics.dfy`): the constants `SQUARE_SIZE`, `MIN_SPEED`,
  `MAX_SPEED`; Kotlin's truncating `toInt()`; the wall check of
  `checkBoundaryCollision`; the jitter and speed clamp of `addRandomness`.
- `Territory` (`Territory.dfy`): the two colours; the grid as a value
  (`seq<seq<Color>>`, column-major like `squares[i][j]`); the initial split;
  the eight probes; the collision resolver `checkSquareCollision` as a
  function over the probes in loop order; the day and night counts of
  `updateScoreElement`.
- `Frame` (`Frame.dfy`): one ball's turn inside `draw` (collision, wall
  check, jitter, move, jitter) and a whole frame over every ball in list
  order.
- `Game` (`Game.dfy`): the `Ball` and `PongWars` classes. The grid is an
  `array2<Color>` painted in place. The balls are objects whose `x`, `y`,
  `dx`, `dy` fields the resolvers update. Every method is proved against the
  functions above: `Cells()` reads the array as a grid value and `Motions()`
  reads the balls as motion values.

Inputs the source takes from its environment are parameters here:

- the canvas width and height are constructor parameters, in place of DOM lookups;
- each `Random.nextInt(0, 100)` draw is an integer argument in `[0, 100)`;
- the score is returned as two numbers, not written into the page.

Three points of the code shape the model:

- The axis a probe flips is chosen by `abs(cos(angle)) > abs(sin(angle))`,
  with both values computed in floating point. On the diagonals the two
  magnitudes differ by one to three units in the last place, so the axis
  depends on how `cos` and `sin` round. Correctly rounded double values give `dx` at pi/4 and
  5pi/4 and `dy` at 3pi/4 and 7pi/4. The model takes the probe table as a
  constructor parameter. `IsRing` fixes the eight offsets and the axis of
  the four axis-aligned probes, and leaves the diagonals open. `DoubleRing`
  is the table with the double-precision choices. `ExactRing` is the table
  with the comparison on exact values, where every diagonal flips `dy`.
  Every property proved about `IsRing` holds for both.
- A probe point becomes a cell index through `toInt()`, which truncates
  toward zero (`Trunc`). A probe up to one cell left of or above the canvas
  therefore still lands in column or row 0.
- `draw` computes the score first, before any ball moves, and `Draw`
  returns that score.

## Model

| member | source | states |
|---|---|---|
| Physics.Trunc | src/wasmJsMain/kotlin/pong_wars.kt:77-78 | `toInt()` rounds toward zero: the result is the largest integer not above a non-negative argument and the smallest not below a negative one, and it is never larger in magnitude than the argument |
| Physics.NegativeProbeLandsInCellZero | src/wasmJsMain/kotlin/pong_wars.kt:75-80 | a probe coordinate in (-SQUARE_SIZE, 0) maps to cell 0, where floor would give -1 |
| Physics.Reflect | src/wasmJsMain/kotlin/pong_wars.kt:114-119 | the wall check on one axis either keeps or negates the velocity component, so its magnitude never changes |
| Physics.Leaves | src/wasmJsMain/kotlin/pong_wars.kt:114-118 | the step leaves the band exactly when the next position is not within [12.5, extent - 12.5] |
| Physics.ReflectChangesIffLeaving | src/wasmJsMain/kotlin/pong_wars.kt:114-119 | a non-zero component is negated if and only if position plus velocity leaves [SQUARE_SIZE/2, extent - SQUARE_SIZE/2] |
| Physics.ReflectKeepsNextPositionInside | src/wasmJsMain/kotlin/pong_wars.kt:113-121 | a ball inside the band, on a canvas at least two steps wider than the margins, takes its next step inside the band after the wall check |
| Physics.Bounce | src/wasmJsMain/kotlin/pong_wars.kt:113-121 | checkBoundaryCollision leaves the position alone and keeps both speed magnitudes |
| Physics.Noise | src/wasmJsMain/kotlin/pong_wars.kt:124-125 | the random term lies in [-0.005, 0.005) |
| Physics.SpeedLimit | src/wasmJsMain/kotlin/pong_wars.kt:127-136 | the clamp lands in [MIN_SPEED, MAX_SPEED] in magnitude; a positive value stays positive and zero or negative ends negative; an in-band value is unchanged; too fast ends at MAX_SPEED and too slow at MIN_SPEED |
| Physics.Jitter | src/wasmJsMain/kotlin/pong_wars.kt:123-136 | after jitter and clamp a component is in the speed band, and it is positive exactly when the jittered value was |
| Physics.JitterInBandIsSmall | src/wasmJsMain/kotlin/pong_wars.kt:123-136 | on an in-band component, addRandomness keeps the direction and moves the value by at most 0.005 |
| Physics.JitterVelocity | src/wasmJsMain/kotlin/pong_wars.kt:123-137 | addRandomness leaves the position alone and puts both components in the speed band |
| Physics.Advance | src/wasmJsMain/kotlin/pong_wars.kt:153-154 | the move keeps the velocity and displaces the ball by exactly one velocity step on each axis |
| Territory.InitialGrid | src/wasmJsMain/kotlin/pong_wars.kt:31-46 | the starting grid has numSquaresX columns of numSquaresY cells, and cell (i, j) is night exactly when i >= numSquaresX / 2 |
| Territory.InitialScore | src/wasmJsMain/kotlin/pong_wars.kt:38-46 | the opening score is (nx / 2) * ny day cells and (nx - nx / 2) * ny night cells |
| Territory.ExactRing | src/wasmJsMain/kotlin/pong_wars.kt:72-93 | the probe table with the strict comparison evaluated exactly satisfies the ring shape and flips dy at 90, 270 and all diagonal angles, dx at 0 and 180 degrees |
| Territory.DoubleRing | src/wasmJsMain/kotlin/pong_wars.kt:72-93 | the probe table with the double-precision comparison satisfies the ring shape and flips dy exactly at the angles 90, 135, 270 and 315 degrees |
| Territory.ProbeCells | src/wasmJsMain/kotlin/pong_wars.kt:72-80 | the probed cells hold every probe's cell and are at most as many as the probes |
| Territory.ProbeCell | src/wasmJsMain/kotlin/pong_wars.kt:74-77 | the cell a probe point falls in contains it when the point is on the canvas side of the origin, and is index 0 for a point less than one cell before it |
| Territory.OnlyProbeCells | src/wasmJsMain/kotlin/pong_wars.kt:74-77 | every member of the probe-cell set is the cell of some probe, the converse of ProbeCells' contract |
| Territory.Flip | src/wasmJsMain/kotlin/pong_wars.kt:83-87 | a bounce negates exactly the probe's axis component of the velocity and keeps the other component and the position |
| Territory.ProbeStep | src/wasmJsMain/kotlin/pong_wars.kt:75-89 | one probe pass keeps the grid's shape and repaints at most its own probe cell, to the ball's colour; a repaint negates the probe's axis component of the velocity (Flip), and without a repaint the ball is unchanged |
| Territory.Collide | src/wasmJsMain/kotlin/pong_wars.kt:71-95 | checkSquareCollision keeps the grid's shape, the ball's position and both speed magnitudes |
| Territory.CollidePaintsProbeCells | src/wasmJsMain/kotlin/pong_wars.kt:71-95 | after the collision check every in-grid probe cell holds the ball's colour and every other cell is as it was |
| Territory.CollideChangesOnlyProbeCells | src/wasmJsMain/kotlin/pong_wars.kt:80-82 | only probe cells that pass the bounds check change, each to the ball's colour, and at most one cell per probe (8 per call) |
| Territory.ClaimedProbesAreNoOp | src/wasmJsMain/kotlin/pong_wars.kt:81-89 | when every in-grid probe cell already holds the ball's colour, neither grid nor velocity changes |
| Territory.CollideIsIdempotent | src/wasmJsMain/kotlin/pong_wars.kt:71-95 | a second collision check at the same position, with any velocity, repaints nothing and flips nothing |
| Territory.RepeatedProbeIsNoOp | src/wasmJsMain/kotlin/pong_wars.kt:72-93 | robustness of the collision check: appending a probe that repeats an earlier one changes nothing (the loop itself never repeats a probe) |
| Territory.UnchangedGridMeansNoBounce | src/wasmJsMain/kotlin/pong_wars.kt:81-89 | a velocity component flips only together with a repaint: if the grid is unchanged the ball is unchanged |
| Territory.CollideFlipsByParity | src/wasmJsMain/kotlin/pong_wars.kt:71-95 | after the collision check each velocity component is negated exactly when an odd number of captures flipped its axis |
| Territory.CentreProbeCells | src/wasmJsMain/kotlin/pong_wars.kt:75-80 | the cells the eight probes of a ball at (50, 50) fall in, and the axis the axis-aligned probes flip |
| Territory.CrossingIntoNightFirstCapture | src/wasmJsMain/kotlin/pong_wars.kt:71-95 | in that scenario the right probe captures the night cell to its right and reverses dx; the two below-right probes then find that cell already claimed |
| Territory.CrossingIntoNightDayProbes | src/wasmJsMain/kotlin/pong_wars.kt:71-95 | probes four to six land in day cells and change neither grid nor velocity |
| Territory.CrossingIntoNightUpperProbes | src/wasmJsMain/kotlin/pong_wars.kt:71-95 | probe seven then captures the night cell above and flips dy, and probe eight finds that cell claimed |
| Territory.CrossingIntoNight | src/wasmJsMain/kotlin/pong_wars.kt:71-95 | on a 4 x 4 day/night grid a day ball at the centre captures exactly the two night cells under its right and upper probes and bounces on both axes, whatever the diagonal probes flip |
| Territory.RowPartition | src/wasmJsMain/kotlin/pong_wars.kt:101-107 | each cell of a column counts as exactly one of day and night |
| Territory.CountRow | src/wasmJsMain/kotlin/pong_wars.kt:101-106 | a column's count for a colour is at most its length |
| Territory.CountRowZeroIffAbsent | src/wasmJsMain/kotlin/pong_wars.kt:101-106 | a column counts zero for a colour exactly when none of its cells holds it |
| Territory.Count | src/wasmJsMain/kotlin/pong_wars.kt:100-107 | the grid's count for a colour is at least the count of each of its columns |
| Territory.CountZeroIffAbsent | src/wasmJsMain/kotlin/pong_wars.kt:100-107 | a colour scores zero exactly when no cell of the grid holds it |
| Territory.ScoreConservation | src/wasmJsMain/kotlin/pong_wars.kt:97-108 | dayScore + nightScore == numSquaresX * numSquaresY |
| Frame.Turn | src/wasmJsMain/kotlin/pong_wars.kt:149-156 | one ball's turn keeps the grid's shape, leaves both speeds in the band, and moves the ball by an in-band step on each axis |
| Frame.FrameUpTo | src/wasmJsMain/kotlin/pong_wars.kt:146-157 | after the first n turns those balls are in the speed band, later balls are untouched and the grid keeps its shape |
| Frame.Step | src/wasmJsMain/kotlin/pong_wars.kt:146-157 | after a whole frame every ball is in the speed band, the ball count is kept and the grid keeps its shape |
| Frame.TurnKeepsUnprobedCell | src/wasmJsMain/kotlin/pong_wars.kt:149-156 | a ball's turn leaves every cell outside its probe cells alone |
| Frame.FrameKeepsUnprobedCells | src/wasmJsMain/kotlin/pong_wars.kt:146-157 | a frame leaves every cell that no ball probes, at the position it starts the frame in, unchanged |
| Frame.LastTurnHoldsItsCells | src/wasmJsMain/kotlin/pong_wars.kt:146-157 | after a frame every in-grid probe cell of the last ball holds that ball's colour |
| Game.Ball.constructor | src/wasmJsMain/kotlin/pong_wars.kt:20 | a ball starts with the given position, velocity and colour |
| Game.PongWars.constructor | src/wasmJsMain/kotlin/pong_wars.kt:28-46 | the grid is (width / SQUARE_SIZE) x (height / SQUARE_SIZE) with the left half day and the rest night, and the day and night balls start at the quarter points with velocities (12.5, -12.5) and (-12.5, 12.5) |
| Game.PongWars.PaintNightHalf | src/wasmJsMain/kotlin/pong_wars.kt:38-46 | on an all-day array, exactly the columns from numSquaresX / 2 onward become night |
| Game.PongWars.CheckProbe | src/wasmJsMain/kotlin/pong_wars.kt:75-89 | one probe iteration updates the array and the ball exactly as the probe step on their values |
| Game.PongWars.CheckSquareCollision | src/wasmJsMain/kotlin/pong_wars.kt:71-95 | the in-place loop over the probes leaves the array and ball equal to Collide of their old values |
| Game.PongWars.UpdateScore | src/wasmJsMain/kotlin/pong_wars.kt:97-108 | the counting loop returns the number of day cells and of night cells, which add up to numSquaresX * numSquaresY |
| Game.PongWars.CheckBoundaryCollision | src/wasmJsMain/kotlin/pong_wars.kt:113-121 | the ball's new state is Bounce of its old state against the canvas size |
| Game.PongWars.AddRandomness | src/wasmJsMain/kotlin/pong_wars.kt:123-137 | the ball's new state is JitterVelocity of its old state for the two drawn integers |
| Game.PongWars.PlayTurn | src/wasmJsMain/kotlin/pong_wars.kt:149-156 | collision, wall check, jitter, move and jitter on one ball give the array and ball of Turn |
| Game.PongWars.PlayTurnOf | src/wasmJsMain/kotlin/pong_wars.kt:146-157 | a turn of ball k changes the grid and ball k only |
| Game.PongWars.MoveBalls | src/wasmJsMain/kotlin/pong_wars.kt:146-157 | the ball loop leaves grid and balls equal to Step of their old values |
| Game.PongWars.AdvanceFrame | src/wasmJsMain/kotlin/pong_wars.kt:146-157 | ball k's turn takes the array and balls from the frame after k turns to the frame after k + 1 |
| Game.PongWars.Draw | src/wasmJsMain/kotlin/pong_wars.kt:140-158 | the returned score is that of the grid before any ball moves; afterwards grid and balls equal Step of their old values, so every ball is in the speed band |

## Left out

- Rendering: `drawBall`, `drawSquares`, `clearRect`, fill styles, and writing the score text into the page (pong_wars.kt:24-26, 48-68, 110, 141). These are canvas and DOM output.
- The frame driver in `main.kt` and `animation.kt`. It only schedules `draw` through `requestAnimationFrame`. `main.kt` also calls a two-argument constructor that `pong_wars.kt` does not declare. Neither file is part of this model.
- Floating-point rounding: positions, velocities and offsets are exact reals. The diagonal probe offset is the literal 8.838834764831844 (12.5 times cos 45 degrees). The axis-aligned offsets are exactly 0, although `cos(pi/2)` and `sin(pi)` are about 1e-16 in doubles. A probe exactly on a cell edge could fall on the other side in floating point.
- The `angle` accumulator of checkSquareCollision: the model loops over the eight-entry probe table. In double precision, eight additions of `PI / 4f` sum to exactly `PI * 2`, so the source loop also makes exactly eight passes. Only the accumulated angle's rounding inside `cos` and `sin` is not modelled; it belongs to the floating-point item above.
- Randomness: each `Random.nextInt(0, 100)` is an integer parameter in [0, 100); which value is drawn is not modelled.
- `toInt()` saturation for values outside the Int range and NaN inputs: probe coordinates are small finite numbers here.
- `ballColor`: it only matters for drawing. Colours are an enum, standing in for the identity comparison of interned colour strings.
- Physics.ReflectKeepsNextPositionInside: containment is proved for the wall check alone. The full frame jitters the velocity between the wall check and the move, so a ball can overshoot the margin by up to 0.005 pixels.
