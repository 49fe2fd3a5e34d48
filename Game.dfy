/**
  The `Ball` and `PongWars` classes: the grid is an `array2<Color>` painted
  in place, balls are objects whose position and velocity fields the
  resolvers update. Every method is proved against the functions of
  Physics, Territory and Frame. The canvas size is a constructor parameter
  instead of a DOM lookup, the random draws are method parameters, and the
  score is returned instead of written to the page.
 */
module Game {
  import opened Physics
  import opened Territory
  import opened Frame

  class Ball {
    var x: real
    var y: real
    var dx: real
    var dy: real
    /** The colour this ball paints cells to. */
    const reverseColor: Color

    constructor (x: real, y: real, dx: real, dy: real, reverseColor: Color)
      ensures State() == Motion(x, y, dx, dy) && this.reverseColor == reverseColor
    {
      this.x, this.y, this.dx, this.dy := x, y, dx, dy;
      this.reverseColor := reverseColor;
    }

    function State(): Motion
      reads this
    {
      Motion(x, y, dx, dy)
    }
  }

  class PongWars {
    const width: nat
    const height: nat
    const numSquaresX: nat
    const numSquaresY: nat
    const squares: array2<Color>
    const balls: seq<Ball>
    /** The eight probes of checkSquareCollision (see Territory.IsRing). */
    const probes: seq<Probe>

    ghost predicate Valid() {
      numSquaresX == width / SquareSize && numSquaresY == height / SquareSize &&
      squares.Length0 == numSquaresX && squares.Length1 == numSquaresY &&
      IsRing(probes) &&
      forall a, b :: 0 <= a < |balls| && 0 <= b < |balls| && a != b ==> balls[a] != balls[b]
    }

    /** The grid as a value. */
    ghost function Cells(): (g: Grid)
      reads squares
      ensures Rect(g, squares.Length0, squares.Length1)
    {
      seq(squares.Length0, i requires 0 <= i < squares.Length0 reads squares =>
        seq(squares.Length1, j requires 0 <= j < squares.Length1 reads squares => squares[i, j]))
    }

    /** Every ball's position and velocity, in list order. */
    ghost function Motions(): (ms: seq<Motion>)
      reads balls
      ensures |ms| == |balls|
    {
      seq(|balls|, k requires 0 <= k < |balls| reads balls => balls[k].State())
    }

    function Colors(): (cs: seq<Color>)
      ensures |cs| == |balls|
    {
      seq(|balls|, k requires 0 <= k < |balls| => balls[k].reverseColor)
    }

    /** The `squares` initialiser and the `init` block, with the two balls:
        a day ball in the left quarter heading up-right and a night ball in
        the right quarter heading down-left. */
    constructor (width: nat, height: nat, probes: seq<Probe>)
      requires IsRing(probes)
      ensures Valid() && fresh(squares)
      ensures this.width == width && this.height == height && this.probes == probes
      ensures Cells() == InitialGrid(width / SquareSize, height / SquareSize)
      ensures Colors() == [Day, Night]
      ensures Motions() == [
        Motion(width as real / 4.0, height as real / 2.0, 12.5, -12.5),
        Motion(width as real / 4.0 * 3.0, height as real / 2.0, -12.5, 12.5)]
    {
      var nx := width / SquareSize;
      var ny := height / SquareSize;
      var grid := new Color[nx, ny]((i, j) => Day);
      PaintNightHalf(grid);
      var dayBall := new Ball(width as real / 4.0, height as real / 2.0, 12.5, -12.5, Day);
      var nightBall := new Ball(width as real / 4.0 * 3.0, height as real / 2.0, -12.5, 12.5, Night);
      this.width, this.height := width, height;
      numSquaresX, numSquaresY := nx, ny;
      squares := grid;
      balls := [dayBall, nightBall];
      this.probes := probes;
      new;
      assert Cells() == InitialGrid(nx, ny) by {
        forall i | 0 <= i < nx
          ensures Cells()[i] == InitialGrid(nx, ny)[i]
        {
        }
      }
    }

    /** The `init` block: every cell of the right half (column index at
        least half the column count) of an all-day grid is painted night. */
    static method PaintNightHalf(grid: array2<Color>)
      requires forall a, b :: 0 <= a < grid.Length0 && 0 <= b < grid.Length1 ==> grid[a, b] == Day
      modifies grid
      ensures forall a, b :: 0 <= a < grid.Length0 && 0 <= b < grid.Length1 ==>
        grid[a, b] == if a >= grid.Length0 / 2 then Night else Day
    {
      var nx, ny := grid.Length0, grid.Length1;
      for i := 0 to nx
        invariant forall a, b :: 0 <= a < nx && 0 <= b < ny ==>
          grid[a, b] == if a < i && a >= nx / 2 then Night else Day
      {
        for j := 0 to ny
          invariant forall a, b :: 0 <= a < nx && 0 <= b < ny ==>
            grid[a, b] == if (a < i || (a == i && b < j)) && a >= nx / 2 then Night else Day
        {
          if i >= nx / 2 {
            grid[i, j] := Night;
          }
        }
      }
    }

    /** checkSquareCollision: the probes in order, each seeing the grid and
        velocity the earlier ones left. */
    method CheckSquareCollision(ball: Ball)
      requires Valid()
      modifies squares, ball
      ensures Contact(Cells(), ball.State()) == Collide(old(Cells()), old(ball.State()), ball.reverseColor, probes)
    {
      var k := 0;
      while k < |probes|
        invariant 0 <= k <= |probes|
        invariant Contact(Cells(), ball.State()) == Collide(old(Cells()), old(ball.State()), ball.reverseColor, probes[..k])
      {
        CheckProbe(ball, probes[k]);
        assert probes[..k + 1][..k] == probes[..k];
        k := k + 1;
      }
      assert probes[..k] == probes;
    }

    /** One pass of the probe loop of checkSquareCollision: an in-grid probe
        cell that is not yet the ball's colour is repainted and the probe's
        axis of the velocity is negated. */
    method CheckProbe(ball: Ball, p: Probe)
      requires Valid()
      modifies squares, ball
      ensures Contact(Cells(), ball.State()) == ProbeStep(old(Contact(Cells(), ball.State())), ball.reverseColor, p)
    {
      ghost var before := Contact(Cells(), ball.State());
      var i := Trunc((ball.x + p.ox) / SquareSize as real);
      var j := Trunc((ball.y + p.oy) / SquareSize as real);
      if 0 <= i < numSquaresX && 0 <= j < numSquaresY {
        if squares[i, j] != ball.reverseColor {
          squares[i, j] := ball.reverseColor;
          if p.flip == Horizontal {
            ball.dx := -ball.dx;
          } else {
            ball.dy := -ball.dy;
          }
          assert Cells() == before.grid[i := before.grid[i][j := ball.reverseColor]] by {
            forall a | 0 <= a < numSquaresX
              ensures Cells()[a] == before.grid[i := before.grid[i][j := ball.reverseColor]][a]
            {
            }
          }
        }
      }
    }

    /** The counting loop of updateScoreElement: day cells and all the others. */
    method UpdateScore() returns (dayScore: nat, nightScore: nat)
      requires Valid()
      ensures dayScore == Count(Cells(), Day) && nightScore == Count(Cells(), Night)
      ensures dayScore + nightScore == numSquaresX * numSquaresY
    {
      dayScore, nightScore := 0, 0;
      ghost var g := Cells();
      for i := 0 to numSquaresX
        invariant dayScore == Count(g[..i], Day) && nightScore == Count(g[..i], Night)
      {
        for j := 0 to numSquaresY
          invariant dayScore == Count(g[..i], Day) + CountRow(g[i][..j], Day)
          invariant nightScore == Count(g[..i], Night) + CountRow(g[i][..j], Night)
        {
          assert g[i][..j + 1][..j] == g[i][..j] && g[i][..j + 1][j] == squares[i, j];
          if squares[i, j] == Day {
            dayScore := dayScore + 1;
          } else {
            nightScore := nightScore + 1;
          }
        }
        assert g[i][..numSquaresY] == g[i];
        assert g[..i + 1][..i] == g[..i];
      }
      assert g[..numSquaresX] == g;
      ScoreConservation(g, numSquaresX, numSquaresY);
    }

    /** checkBoundaryCollision: reflect each velocity component whose next
        step would leave the canvas minus the half-cell margin. */
    method CheckBoundaryCollision(ball: Ball)
      modifies ball
      ensures ball.State() == Bounce(old(ball.State()), width as real, height as real)
    {
      if ball.x + ball.dx > width as real - HalfSquare || ball.x + ball.dx < HalfSquare {
        ball.dx := -ball.dx;
      }
      if ball.y + ball.dy > height as real - HalfSquare || ball.y + ball.dy < HalfSquare {
        ball.dy := -ball.dy;
      }
    }

    /** addRandomness, with the two integers drawn by `Random.nextInt(0, 100)`. */
    method AddRandomness(ball: Ball, kx: int, ky: int)
      requires 0 <= kx < 100 && 0 <= ky < 100
      modifies ball
      ensures ball.State() == JitterVelocity(old(ball.State()), kx, ky)
    {
      ball.dx := ball.dx + (kx as real / 100.0) * 0.01 - 0.005;
      ball.dy := ball.dy + (ky as real / 100.0) * 0.01 - 0.005;

      ball.dx := Min(Max(ball.dx, -MaxSpeed), MaxSpeed);
      ball.dy := Min(Max(ball.dy, -MaxSpeed), MaxSpeed);

      if Abs(ball.dx) < MinSpeed {
        ball.dx := if ball.dx > 0.0 then MinSpeed else -MinSpeed;
      }
      if Abs(ball.dy) < MinSpeed {
        ball.dy := if ball.dy > 0.0 then MinSpeed else -MinSpeed;
      }
    }

    /** PlayTurn on ball number k, stated for the whole ball list: the turn
        changes the grid and that ball, and no other ball. */
    method PlayTurnOf(k: nat, n: Draws)
      requires Valid() && k < |balls| && ValidDraws(n)
      modifies squares, balls[k]
      ensures var t := Turn(old(Cells()), old(balls[k].State()), balls[k].reverseColor, n, probes,
                            width as real, height as real);
              Cells() == t.grid && Motions() == old(Motions())[k := t.ball]
    {
      var ball := balls[k];
      PlayTurn(ball, n);
      forall a | 0 <= a < |balls|
        ensures Motions()[a] == old(Motions())[k := ball.State()][a]
      {
        if a != k {
          assert balls[a] != ball;
        }
      }
    }

    /** The body of the `balls.forEach` lambda in draw, for one ball. */
    method PlayTurn(ball: Ball, n: Draws)
      requires Valid() && ValidDraws(n)
      modifies squares, ball
      ensures Contact(Cells(), ball.State()) ==
        Turn(old(Cells()), old(ball.State()), ball.reverseColor, n, probes, width as real, height as real)
    {
      CheckSquareCollision(ball);
      CheckBoundaryCollision(ball);
      AddRandomness(ball, n.preX, n.preY);
      ball.x := ball.x + ball.dx;
      ball.y := ball.y + ball.dy;
      AddRandomness(ball, n.postX, n.postY);
    }

    /** draw without the rendering: the score of the grid as the frame
        found it, then every ball's turn in list order. */
    method Draw(draws: seq<Draws>) returns (dayScore: nat, nightScore: nat)
      requires Valid()
      requires |draws| == |balls| && forall k :: 0 <= k < |draws| ==> ValidDraws(draws[k])
      modifies squares, balls
      ensures dayScore == Count(old(Cells()), Day) && nightScore == Count(old(Cells()), Night)
      ensures World(Cells(), Motions()) ==
        Step(World(old(Cells()), old(Motions())), Colors(), draws, probes, width as real, height as real)
    {
      dayScore, nightScore := UpdateScore();
      MoveBalls(draws);
    }

    /** The `balls.forEach` loop of draw: each ball's turn, in list order. */
    method MoveBalls(draws: seq<Draws>)
      requires Valid()
      requires |draws| == |balls| && forall k :: 0 <= k < |draws| ==> ValidDraws(draws[k])
      modifies squares, balls
      ensures World(Cells(), Motions()) ==
        Step(World(old(Cells()), old(Motions())), Colors(), draws, probes, width as real, height as real)
    {
      ghost var start := World(Cells(), Motions());
      assert FrameInputs(start, Colors(), draws);
      for k := 0 to |balls|
        invariant FrameInputs(start, Colors(), draws)
        invariant World(Cells(), Motions()) ==
          FrameUpTo(start, Colors(), draws, probes, width as real, height as real, k)
      {
        AdvanceFrame(start, draws, k);
      }
      assert |start.balls| == |balls|;
    }

    /** Ball k's turn, seen as one more step of the frame function. */
    method AdvanceFrame(ghost start: World, draws: seq<Draws>, k: nat)
      requires Valid() && k < |balls| && FrameInputs(start, Colors(), draws)
      requires World(Cells(), Motions()) ==
        FrameUpTo(start, Colors(), draws, probes, width as real, height as real, k)
      modifies squares, balls[k]
      ensures World(Cells(), Motions()) ==
        FrameUpTo(start, Colors(), draws, probes, width as real, height as real, k + 1)
    {
      assert Motions()[k] == balls[k].State();
      PlayTurnOf(k, draws[k]);
      TurnAdvancesFrame(start, Colors(), draws, probes, width as real, height as real, k);
    }
  }
}
