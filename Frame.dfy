/**
  One frame of Pong Wars (the ball loop of `draw`) as a function on values:
  every ball in list order runs the collision check, the wall check,
  jitter, the move and jitter again, each ball seeing the grid the earlier
  balls left.
 */
module Frame {
  import opened Physics
  import opened Territory

  /** The four integers drawn by `Random.nextInt(0, 100)` during one ball's
      turn: two for the jitter before the move, two for the one after. */
  datatype Draws = Draws(preX: int, preY: int, postX: int, postY: int)

  predicate ValidDraws(n: Draws) {
    0 <= n.preX < 100 && 0 <= n.preY < 100 && 0 <= n.postX < 100 && 0 <= n.postY < 100
  }

  /** One ball's turn: checkSquareCollision, checkBoundaryCollision,
      addRandomness, `x += dx; y += dy`, addRandomness. The ball leaves with
      both speeds in the band, having moved by an in-band step on each axis. */
  function Turn(g: Grid, m: Motion, c: Color, n: Draws, probes: seq<Probe>, width: real, height: real): (r: Contact)
    requires ValidDraws(n)
    ensures SameShape(g, r.grid)
    ensures InSpeedBand(r.ball)
    ensures MinSpeed <= Abs(r.ball.x - m.x) <= MaxSpeed && MinSpeed <= Abs(r.ball.y - m.y) <= MaxSpeed
  {
    var hit := Collide(g, m, c, probes);
    var moved := Advance(JitterVelocity(Bounce(hit.ball, width, height), n.preX, n.preY));
    Contact(hit.grid, JitterVelocity(moved, n.postX, n.postY))
  }

  /** The grid and every ball's motion. */
  datatype World = World(grid: Grid, balls: seq<Motion>)

  predicate FrameInputs(w: World, colors: seq<Color>, draws: seq<Draws>) {
    |colors| == |w.balls| && |draws| == |w.balls| &&
    forall k :: 0 <= k < |draws| ==> ValidDraws(draws[k])
  }

  /** The frame after the first `n` balls have had their turn. Earlier balls
      leave in the speed band, later balls are untouched, the grid keeps its shape. */
  function FrameUpTo(w: World, colors: seq<Color>, draws: seq<Draws>, probes: seq<Probe>,
                     width: real, height: real, n: nat): (r: World)
    requires FrameInputs(w, colors, draws) && n <= |w.balls|
    ensures |r.balls| == |w.balls|
    ensures SameShape(w.grid, r.grid)
    ensures forall k :: n <= k < |w.balls| ==> r.balls[k] == w.balls[k]
    ensures forall k :: 0 <= k < n ==> InSpeedBand(r.balls[k])
  {
    if n == 0 then w
    else
      var before := FrameUpTo(w, colors, draws, probes, width, height, n - 1);
      var t := Turn(before.grid, before.balls[n - 1], colors[n - 1], draws[n - 1], probes, width, height);
      World(t.grid, before.balls[n - 1 := t.ball])
  }

  /** The frame up to ball n + 1 is ball n's turn on the frame up to ball n. */
  lemma TurnAdvancesFrame(w: World, colors: seq<Color>, draws: seq<Draws>, probes: seq<Probe>,
                          width: real, height: real, n: nat)
    requires FrameInputs(w, colors, draws) && n < |w.balls|
    ensures var before := FrameUpTo(w, colors, draws, probes, width, height, n);
            var t := Turn(before.grid, before.balls[n], colors[n], draws[n], probes, width, height);
            FrameUpTo(w, colors, draws, probes, width, height, n + 1) == World(t.grid, before.balls[n := t.ball])
  {
  }

  /** The body of `balls.forEach` in `draw`, for every ball: after a frame
      every ball is in the speed band and the grid has kept its shape. */
  function Step(w: World, colors: seq<Color>, draws: seq<Draws>, probes: seq<Probe>,
                width: real, height: real): (r: World)
    requires FrameInputs(w, colors, draws)
    ensures |r.balls| == |w.balls| && SameShape(w.grid, r.grid)
    ensures forall k :: 0 <= k < |r.balls| ==> InSpeedBand(r.balls[k])
  {
    FrameUpTo(w, colors, draws, probes, width, height, |w.balls|)
  }

  /** A turn leaves every cell outside the ball's probe cells alone. */
  lemma TurnKeepsUnprobedCell(g: Grid, m: Motion, c: Color, n: Draws, probes: seq<Probe>,
                              width: real, height: real, cell: (int, int))
    requires ValidDraws(n) && InGrid(g, cell) && cell !in ProbeCells(m.x, m.y, probes)
    ensures Turn(g, m, c, n, probes, width, height).grid[cell.0][cell.1] == g[cell.0][cell.1]
  {
    CollidePaintsProbeCells(g, m, c, probes);
  }

  /** Every cell outside the probe cells of all balls (taken at their
      positions when the frame starts) is the same after the frame. */
  lemma {:induction false} FrameKeepsUnprobedCells(w: World, colors: seq<Color>, draws: seq<Draws>,
                                                   probes: seq<Probe>, width: real, height: real,
                                                   n: nat, cell: (int, int))
    requires FrameInputs(w, colors, draws) && n <= |w.balls|
    requires InGrid(w.grid, cell)
    requires forall k :: 0 <= k < n ==> cell !in ProbeCells(w.balls[k].x, w.balls[k].y, probes)
    ensures FrameUpTo(w, colors, draws, probes, width, height, n).grid[cell.0][cell.1] == w.grid[cell.0][cell.1]
  {
    if n > 0 {
      var before := FrameUpTo(w, colors, draws, probes, width, height, n - 1);
      FrameKeepsUnprobedCells(w, colors, draws, probes, width, height, n - 1, cell);
      var m := before.balls[n - 1];
      assert m == w.balls[n - 1];
      var t := Turn(before.grid, m, colors[n - 1], draws[n - 1], probes, width, height);
      TurnKeepsUnprobedCell(before.grid, m, colors[n - 1], draws[n - 1], probes, width, height, cell);
      TurnAdvancesFrame(w, colors, draws, probes, width, height, n - 1);
      var after := FrameUpTo(w, colors, draws, probes, width, height, n);
      assert after.grid == t.grid;
      assert t.grid[cell.0][cell.1] == before.grid[cell.0][cell.1] == w.grid[cell.0][cell.1];
    }
  }

  /** After a frame, every in-grid probe cell of the last ball to move holds
      that ball's colour: nothing after its turn repaints the grid. */
  lemma LastTurnHoldsItsCells(w: World, colors: seq<Color>, draws: seq<Draws>,
                              probes: seq<Probe>, width: real, height: real, cell: (int, int))
    requires FrameInputs(w, colors, draws) && |w.balls| > 0
    requires var last := w.balls[|w.balls| - 1]; cell in ProbeCells(last.x, last.y, probes)
    requires InGrid(w.grid, cell)
    ensures Step(w, colors, draws, probes, width, height).grid[cell.0][cell.1] == colors[|w.balls| - 1]
  {
    var n := |w.balls|;
    var before := FrameUpTo(w, colors, draws, probes, width, height, n - 1);
    CollidePaintsProbeCells(before.grid, before.balls[n - 1], colors[n - 1], probes);
  }
}
