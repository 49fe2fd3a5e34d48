/**
  The territory grid of Pong Wars as a value: the two colours, the eight
  probes around a ball, the collision resolver of checkSquareCollision and
  the cell counts behind the score. The class in Game is proved against
  these functions.
 */
module Territory {
  import opened Physics

  /** DAY_COLOR and NIGHT_COLOR. The source compares interned string
      constants by identity, which behaves as equality on this enum. */
  datatype Color = Day | Night

  /** `squares[i][j]`: column i, row j. */
  type Grid = seq<seq<Color>>

  /** A grid of `nx` columns of `ny` cells each. */
  predicate Rect(g: Grid, nx: int, ny: int) {
    |g| == nx && forall i :: 0 <= i < |g| ==> |g[i]| == ny
  }

  /** `h` has as many columns as `g`, each with as many cells. */
  predicate SameShape(g: Grid, h: Grid) {
    |h| == |g| && forall i :: 0 <= i < |g| ==> |h[i]| == |g[i]|
  }

  /** The guard `i in 0..<numSquaresX && j in 0..<numSquaresY`. */
  predicate InGrid(g: Grid, cell: (int, int)) {
    0 <= cell.0 < |g| && 0 <= cell.1 < |g[cell.0]|
  }

  // ---------------------------------------------------------------------
  // Initial grid (the `squares` initialiser and the `init` block)

  /** Columns from numSquaresX / 2 on start as night, the rest as day. */
  function InitialGrid(nx: nat, ny: nat): (g: Grid)
    ensures Rect(g, nx, ny)
    ensures forall i, j :: 0 <= i < nx && 0 <= j < ny ==> (g[i][j] == Night <==> i >= nx / 2)
  {
    seq(nx, i => seq(ny, j => if i >= nx / 2 then Night else Day))
  }

  // ---------------------------------------------------------------------
  // Probes

  /** The velocity component a capture negates. */
  datatype Axis = Horizontal | Vertical

  /** One probe of checkSquareCollision: the offset
      `(cos(angle) * SQUARE_SIZE / 2, sin(angle) * SQUARE_SIZE / 2)` from the
      ball centre and the component it flips on a capture. */
  datatype Probe = Probe(ox: real, oy: real, flip: Axis)

  /** 12.5 * cos(pi / 4), the offset of the diagonal probes, to double precision. */
  const Diagonal: real := 8.838834764831844

  /** The offsets at angles 0, pi/4, ..., 7pi/4 in the order the loop visits them. */
  const RingOffsets: seq<(real, real)> := [
    (HalfSquare, 0.0), (Diagonal, Diagonal), (0.0, HalfSquare), (-Diagonal, Diagonal),
    (-HalfSquare, 0.0), (-Diagonal, -Diagonal), (0.0, -HalfSquare), (Diagonal, -Diagonal)
  ]

  /** `if (abs(cos(angle)) > abs(sin(angle))) dx else dy`: a probe that is
      clearly horizontal flips dx, one that is clearly vertical flips dy. On
      the diagonals, where the two magnitudes agree up to floating-point
      rounding, either axis is allowed. */
  predicate FollowsAxisRule(p: Probe) {
    (Abs(p.ox) > Abs(p.oy) ==> p.flip == Horizontal) &&
    (Abs(p.ox) < Abs(p.oy) ==> p.flip == Vertical)
  }

  /** The eight probes of checkSquareCollision, in loop order. */
  predicate IsRing(ps: seq<Probe>) {
    |ps| == |RingOffsets| &&
    forall k :: 0 <= k < |ps| ==> (ps[k].ox, ps[k].oy) == RingOffsets[k] && FollowsAxisRule(ps[k])
  }

  /** The ring with the comparison evaluated on the double-precision values
      of cos and sin: the diagonals at pi/4 and 5pi/4 flip dx, those at
      3pi/4 and 7pi/4 flip dy, so a probe flips dy exactly in the second
      half of each quarter turn. */
  function DoubleRing(): (ps: seq<Probe>)
    ensures IsRing(ps)
    ensures forall k :: 0 <= k < |ps| ==> (ps[k].flip == Vertical <==> k % 4 >= 2)
  {
    seq(|RingOffsets|, k requires 0 <= k < |RingOffsets| =>
      var (ox, oy) := RingOffsets[k];
      Probe(ox, oy, if k % 4 < 2 then Horizontal else Vertical))
  }

  /** The ring with the strict comparison evaluated on exact values: the
      diagonal probes then flip dy. */
  function ExactRing(): (ps: seq<Probe>)
    ensures IsRing(ps)
    ensures forall k :: 0 <= k < |ps| ==> (ps[k].flip == Vertical <==> k % 2 == 1 || k == 2 || k == 6)
  {
    seq(|RingOffsets|, k requires 0 <= k < |RingOffsets| =>
      var (ox, oy) := RingOffsets[k];
      Probe(ox, oy, if Abs(ox) > Abs(oy) then Horizontal else Vertical))
  }

  /** `((x + ox) / SQUARE_SIZE).toInt()` and the same for y. */
  function ProbeCell(x: real, y: real, p: Probe): (cell: (int, int))
    ensures 0.0 <= x + p.ox ==> cell.0 as real * 25.0 <= x + p.ox < (cell.0 as real + 1.0) * 25.0
    ensures 0.0 <= y + p.oy ==> cell.1 as real * 25.0 <= y + p.oy < (cell.1 as real + 1.0) * 25.0
    ensures -25.0 < x + p.ox < 0.0 ==> cell.0 == 0
    ensures -25.0 < y + p.oy < 0.0 ==> cell.1 == 0
  {
    (Trunc((x + p.ox) / SquareSize as real), Trunc((y + p.oy) / SquareSize as real))
  }

  /** The cells the probes `ps` of a ball at (x, y) fall in, inside the grid or not. */
  function ProbeCells(x: real, y: real, ps: seq<Probe>): (s: set<(int, int)>)
    ensures |s| <= |ps|
    ensures forall k :: 0 <= k < |ps| ==> ProbeCell(x, y, ps[k]) in s
  {
    if ps == [] then {}
    else ProbeCells(x, y, ps[..|ps| - 1]) + {ProbeCell(x, y, ps[|ps| - 1])}
  }

  /** ProbeCells holds nothing but probe cells: each of its members is the
      cell of some probe of `ps`. */
  lemma {:induction false} OnlyProbeCells(x: real, y: real, ps: seq<Probe>, cell: (int, int))
    requires cell in ProbeCells(x, y, ps)
    ensures exists k :: 0 <= k < |ps| && cell == ProbeCell(x, y, ps[k])
  {
    var front := ps[..|ps| - 1];
    if cell == ProbeCell(x, y, ps[|ps| - 1]) {
      assert 0 <= |ps| - 1 < |ps|;
    } else {
      OnlyProbeCells(x, y, front, cell);
      var k :| 0 <= k < |front| && cell == ProbeCell(x, y, front[k]);
      assert front[k] == ps[k];
    }
  }

  // ---------------------------------------------------------------------
  // checkSquareCollision

  /** The grid and the ball as they stand during a collision check. */
  datatype Contact = Contact(grid: Grid, ball: Motion)

  /** The bounce of a capture: the probe's axis component of the velocity is
      negated, the other component and the position are kept. */
  function Flip(m: Motion, axis: Axis): (r: Motion)
    ensures r.x == m.x && r.y == m.y
    ensures axis == Horizontal ==> r.dx == -m.dx && r.dy == m.dy
    ensures axis == Vertical ==> r.dy == -m.dy && r.dx == m.dx
  {
    match axis
    case Horizontal => m.(dx := -m.dx)
    case Vertical => m.(dy := -m.dy)
  }

  /** One iteration of the probe loop for a ball claiming colour `c`: a probe
      cell inside the grid that is not yet `c` is repainted and the probe's
      axis is flipped; anything else leaves grid and ball alone. */
  function ProbeStep(s: Contact, c: Color, p: Probe): (r: Contact)
    ensures SameShape(s.grid, r.grid)
    ensures forall i, j :: InGrid(s.grid, (i, j)) ==>
      r.grid[i][j] == if (i, j) == ProbeCell(s.ball.x, s.ball.y, p) then c else s.grid[i][j]
    ensures r.grid == s.grid ==> r.ball == s.ball
    ensures r.grid != s.grid ==> r.ball == Flip(s.ball, p.flip)
  {
    var cell := ProbeCell(s.ball.x, s.ball.y, p);
    if InGrid(s.grid, cell) && s.grid[cell.0][cell.1] != c then
      Contact(s.grid[cell.0 := s.grid[cell.0][cell.1 := c]], Flip(s.ball, p.flip))
    else
      s
  }

  /** checkSquareCollision: the probes `ps` in order, each seeing the grid
      and velocity the earlier ones left. Shape, position and speeds survive. */
  function Collide(g: Grid, m: Motion, c: Color, ps: seq<Probe>): (r: Contact)
    ensures SameShape(g, r.grid)
    ensures r.ball.x == m.x && r.ball.y == m.y
    ensures Abs(r.ball.dx) == Abs(m.dx) && Abs(r.ball.dy) == Abs(m.dy)
  {
    if ps == [] then Contact(g, m)
    else ProbeStep(Collide(g, m, c, ps[..|ps| - 1]), c, ps[|ps| - 1])
  }

  /** The grid after a collision check is the old grid with every in-grid
      probe cell painted `c` and every other cell as it was. */
  lemma {:induction false} CollidePaintsProbeCells(g: Grid, m: Motion, c: Color, ps: seq<Probe>)
    ensures forall i, j :: InGrid(g, (i, j)) ==>
      Collide(g, m, c, ps).grid[i][j] == if (i, j) in ProbeCells(m.x, m.y, ps) then c else g[i][j]
  {
    if ps != [] {
      var prefix := ps[..|ps| - 1];
      var s := Collide(g, m, c, prefix);
      var last := ProbeCell(m.x, m.y, ps[|ps| - 1]);
      var cells := ProbeCells(m.x, m.y, prefix);
      CollidePaintsProbeCells(g, m, c, prefix);
      assert ProbeCells(m.x, m.y, ps) == cells + {last};
      forall i, j | InGrid(g, (i, j))
        ensures Collide(g, m, c, ps).grid[i][j] == if (i, j) in cells + {last} then c else g[i][j]
      {
        assert s.grid[i][j] == if (i, j) in cells then c else g[i][j];
      }
    }
  }

  /** The cells on which two grids of the same shape differ. */
  function Changed(g: Grid, h: Grid): (d: set<(int, int)>)
    requires SameShape(g, h)
    ensures forall cell :: cell in d <==> InGrid(g, cell) && g[cell.0][cell.1] != h[cell.0][cell.1]
  {
    set i, j | 0 <= i < |g| && 0 <= j < |g[i]| && g[i][j] != h[i][j] :: (i, j)
  }

  lemma SubsetCardinality<T>(a: set<T>, b: set<T>)
    requires a <= b
    ensures |a| <= |b|
  {
    assert b == a + (b - a);
  }

  /** A collision check only writes probe cells, and so changes at most as
      many cells as there are probes. */
  lemma CollideChangesOnlyProbeCells(g: Grid, m: Motion, c: Color, ps: seq<Probe>)
    ensures Changed(g, Collide(g, m, c, ps).grid) <= ProbeCells(m.x, m.y, ps)
    ensures |Changed(g, Collide(g, m, c, ps).grid)| <= |ps|
    ensures forall cell :: cell in Changed(g, Collide(g, m, c, ps).grid) ==>
      Collide(g, m, c, ps).grid[cell.0][cell.1] == c
  {
    CollidePaintsProbeCells(g, m, c, ps);
    SubsetCardinality(Changed(g, Collide(g, m, c, ps).grid), ProbeCells(m.x, m.y, ps));
  }

  /** Probing cells that are all outside the grid or already `c` changes
      neither the grid nor the velocity. */
  lemma {:induction false} ClaimedProbesAreNoOp(g: Grid, m: Motion, c: Color, ps: seq<Probe>)
    requires forall cell :: cell in ProbeCells(m.x, m.y, ps) && InGrid(g, cell) ==> g[cell.0][cell.1] == c
    ensures Collide(g, m, c, ps) == Contact(g, m)
  {
    if ps != [] {
      var prefix := ps[..|ps| - 1];
      assert ProbeCells(m.x, m.y, ps) == ProbeCells(m.x, m.y, prefix) + {ProbeCell(m.x, m.y, ps[|ps| - 1])};
      ClaimedProbesAreNoOp(g, m, c, prefix);
    }
  }

  /** Running the collision check again at the same position, with any
      velocity, repaints nothing and flips nothing. */
  lemma CollideIsIdempotent(g: Grid, m: Motion, m': Motion, c: Color, ps: seq<Probe>)
    requires m'.x == m.x && m'.y == m.y
    ensures var h := Collide(g, m, c, ps).grid; Collide(h, m', c, ps) == Contact(h, m')
  {
    var h := Collide(g, m, c, ps).grid;
    CollidePaintsProbeCells(g, m, c, ps);
    forall cell | cell in ProbeCells(m'.x, m'.y, ps) && InGrid(h, cell)
      ensures h[cell.0][cell.1] == c
    {
      assert InGrid(g, cell);
    }
    ClaimedProbesAreNoOp(h, m', c, ps);
  }

  /** Robustness of the collision check: appending a probe that repeats one
      already visited changes nothing. The angle accumulator itself reaches
      2 pi after exactly eight additions of pi / 4, so the loop never repeats
      a probe. */
  lemma RepeatedProbeIsNoOp(g: Grid, m: Motion, c: Color, ps: seq<Probe>, k: nat)
    requires k < |ps|
    ensures Collide(g, m, c, ps + [ps[k]]) == Collide(g, m, c, ps)
  {
    var ps' := ps + [ps[k]];
    assert ps'[..|ps'| - 1] == ps;
    CollidePaintsProbeCells(g, m, c, ps);
    assert ProbeCell(m.x, m.y, ps[k]) in ProbeCells(m.x, m.y, ps);
  }

  /** Does probe `p`, seeing contact `s`, capture a cell and flip `axis`? */
  predicate FlipsAxis(s: Contact, c: Color, p: Probe, axis: Axis) {
    ProbeStep(s, c, p).grid != s.grid && p.flip == axis
  }

  /** Whether an odd number of the probes of `ps` capture a cell and flip
      `axis`, each seeing the grid the earlier probes left: the parity
      toggles on every such capture. */
  function OddCaptures(g: Grid, m: Motion, c: Color, ps: seq<Probe>, axis: Axis): bool {
    if ps == [] then false
    else
      OddCaptures(g, m, c, ps[..|ps| - 1], axis) !=
        FlipsAxis(Collide(g, m, c, ps[..|ps| - 1]), c, ps[|ps| - 1], axis)
  }

  /** Each velocity component ends the collision check negated exactly when
      an odd number of captures flipped its axis. */
  lemma {:induction false} CollideFlipsByParity(g: Grid, m: Motion, c: Color, ps: seq<Probe>)
    ensures Collide(g, m, c, ps).ball.dx == if OddCaptures(g, m, c, ps, Horizontal) then -m.dx else m.dx
    ensures Collide(g, m, c, ps).ball.dy == if OddCaptures(g, m, c, ps, Vertical) then -m.dy else m.dy
  {
    if ps != [] {
      CollideFlipsByParity(g, m, c, ps[..|ps| - 1]);
    }
  }

  /** If no cell ended up repainted, no velocity component was flipped. */
  lemma {:induction false} UnchangedGridMeansNoBounce(g: Grid, m: Motion, c: Color, ps: seq<Probe>)
    requires Collide(g, m, c, ps).grid == g
    ensures Collide(g, m, c, ps).ball == m
  {
    if ps != [] {
      var prefix := ps[..|ps| - 1];
      var s := Collide(g, m, c, prefix);
      var cell := ProbeCell(m.x, m.y, ps[|ps| - 1]);
      if InGrid(s.grid, cell) && s.grid[cell.0][cell.1] != c {
        CollidePaintsProbeCells(g, m, c, prefix);
        assert false;
      }
      assert Collide(g, m, c, ps) == s;
      UnchangedGridMeansNoBounce(g, m, c, prefix);
    }
  }

  // ---------------------------------------------------------------------
  // Score (the counting loop of updateScoreElement)

  /** The cells of `row` that hold `c`. */
  function CountRow(row: seq<Color>, c: Color): (n: nat)
    ensures n <= |row|
  {
    if row == [] then 0
    else CountRow(row[..|row| - 1], c) + (if row[|row| - 1] == c then 1 else 0)
  }

  /** The cells of `g` that hold `c`. */
  function Count(g: Grid, c: Color): (n: nat)
    ensures forall i :: 0 <= i < |g| ==> CountRow(g[i], c) <= n
  {
    if g == [] then 0
    else Count(g[..|g| - 1], c) + CountRow(g[|g| - 1], c)
  }

  /** A column counts zero for a colour exactly when no cell of it holds that colour. */
  lemma {:induction false} CountRowZeroIffAbsent(row: seq<Color>, c: Color)
    ensures CountRow(row, c) == 0 <==> forall j :: 0 <= j < |row| ==> row[j] != c
  {
    if row != [] {
      var front := row[..|row| - 1];
      CountRowZeroIffAbsent(front, c);
      assert forall j :: 0 <= j < |front| ==> front[j] == row[j];
    }
  }

  /** A colour scores zero exactly when no cell holds it. */
  lemma {:induction false} CountZeroIffAbsent(g: Grid, c: Color)
    ensures Count(g, c) == 0 <==> forall i, j :: 0 <= i < |g| && 0 <= j < |g[i]| ==> g[i][j] != c
  {
    if g != [] {
      var front := g[..|g| - 1];
      CountZeroIffAbsent(front, c);
      CountRowZeroIffAbsent(g[|g| - 1], c);
      assert forall i :: 0 <= i < |front| ==> front[i] == g[i];
    }
  }

  /** Every cell of a row is day or night. */
  lemma {:induction false} RowPartition(row: seq<Color>)
    ensures CountRow(row, Day) + CountRow(row, Night) == |row|
  {
    if row != [] {
      RowPartition(row[..|row| - 1]);
    }
  }

  /** Score conservation: day and night cells together are all nx * ny cells. */
  lemma {:induction false} ScoreConservation(g: Grid, nx: nat, ny: nat)
    requires Rect(g, nx, ny)
    ensures Count(g, Day) + Count(g, Night) == nx * ny
  {
    if g != [] {
      ScoreConservation(g[..|g| - 1], nx - 1, ny);
      RowPartition(g[|g| - 1]);
      OneMoreColumn(nx, ny);
    }
  }

  lemma OneMoreColumn(nx: int, ny: int)
    ensures (nx - 1) * ny + ny == nx * ny
  {
  }

  /** A row of cells all of colour `d` counts fully for `d` and not at all otherwise. */
  lemma {:induction false} UniformRowCount(row: seq<Color>, d: Color, c: Color)
    requires forall j :: 0 <= j < |row| ==> row[j] == d
    ensures CountRow(row, c) == if c == d then |row| else 0
  {
    if row != [] {
      UniformRowCount(row[..|row| - 1], d, c);
    }
  }

  /** The first n <= nx / 2 columns of the initial grid are all day. */
  lemma {:induction false} InitialDayColumns(nx: nat, ny: nat, n: nat)
    requires n <= nx / 2
    ensures Count(InitialGrid(nx, ny)[..n], Day) == n * ny
    ensures Count(InitialGrid(nx, ny)[..n], Night) == 0
  {
    var g := InitialGrid(nx, ny);
    if n > 0 {
      InitialDayColumns(nx, ny, n - 1);
      assert g[..n][..n - 1] == g[..n - 1] && g[..n][n - 1] == g[n - 1];
      assert Count(g[..n], Day) == Count(g[..n - 1], Day) + CountRow(g[n - 1], Day);
      assert Count(g[..n], Night) == Count(g[..n - 1], Night) + CountRow(g[n - 1], Night);
      UniformRowCount(g[n - 1], Day, Day);
      UniformRowCount(g[n - 1], Day, Night);
      OneMoreColumn(n, ny);
    }
  }

  /** Columns nx / 2 up to n of the initial grid are all night. */
  lemma {:induction false} InitialNightColumns(nx: nat, ny: nat, n: nat)
    requires nx / 2 <= n <= nx
    ensures Count(InitialGrid(nx, ny)[..n], Day) == (nx / 2) * ny
    ensures Count(InitialGrid(nx, ny)[..n], Night) == (n - nx / 2) * ny
  {
    var g := InitialGrid(nx, ny);
    if n == nx / 2 {
      InitialDayColumns(nx, ny, n);
    } else {
      InitialNightColumns(nx, ny, n - 1);
      assert g[..n][..n - 1] == g[..n - 1] && g[..n][n - 1] == g[n - 1];
      assert Count(g[..n], Day) == Count(g[..n - 1], Day) + CountRow(g[n - 1], Day);
      assert Count(g[..n], Night) == Count(g[..n - 1], Night) + CountRow(g[n - 1], Night);
      UniformRowCount(g[n - 1], Night, Day);
      UniformRowCount(g[n - 1], Night, Night);
      OneMoreColumn(n - nx / 2, ny);
    }
  }

  /** The opening score: nx / 2 day columns and the remaining night columns. */
  lemma InitialScore(nx: nat, ny: nat)
    ensures Count(InitialGrid(nx, ny), Day) == (nx / 2) * ny
    ensures Count(InitialGrid(nx, ny), Night) == (nx - nx / 2) * ny
  {
    InitialNightColumns(nx, ny, nx);
    assert InitialGrid(nx, ny)[..nx] == InitialGrid(nx, ny);
  }

  // ---------------------------------------------------------------------
  // A worked case

  /** Where the eight probes of a ball at (50, 50) land on 25-pixel cells. */
  lemma CentreProbeCells(ps: seq<Probe>)
    requires IsRing(ps)
    ensures ProbeCell(50.0, 50.0, ps[0]) == (2, 2) && ps[0].flip == Horizontal
    ensures ProbeCell(50.0, 50.0, ps[1]) == (2, 2) && ProbeCell(50.0, 50.0, ps[2]) == (2, 2)
    ensures ProbeCell(50.0, 50.0, ps[3]) == (1, 2) && ProbeCell(50.0, 50.0, ps[4]) == (1, 2)
    ensures ProbeCell(50.0, 50.0, ps[5]) == (1, 1)
    ensures ProbeCell(50.0, 50.0, ps[6]) == (2, 1) && ps[6].flip == Vertical
    ensures ProbeCell(50.0, 50.0, ps[7]) == (2, 1)
  {
    assert (ps[0].ox, ps[0].oy) == RingOffsets[0] && FollowsAxisRule(ps[0]);
    assert (ps[6].ox, ps[6].oy) == RingOffsets[6] && FollowsAxisRule(ps[6]);
    assert forall k :: 0 <= k < 8 ==> (ps[k].ox, ps[k].oy) == RingOffsets[k];
  }

  /** The first three probes of a day ball at (50, 50) on the 4 x 4 split
      grid: the right probe captures a night cell and flips dx, the two
      below-right probes then find it claimed. */
  lemma CrossingIntoNightFirstCapture(ps: seq<Probe>)
    requires IsRing(ps)
    ensures Collide(InitialGrid(4, 4), Motion(50.0, 50.0, 5.0, 5.0), Day, ps[..3])
         == Contact(InitialGrid(4, 4)[2 := [Night, Night, Day, Night]], Motion(50.0, 50.0, -5.0, 5.0))
  {
    CentreProbeCells(ps);
    var g := InitialGrid(4, 4);
    var m := Motion(50.0, 50.0, 5.0, 5.0);
    assert g[2] == [Night, Night, Night, Night];
    var s1 := Contact(g[2 := [Night, Night, Day, Night]], m.(dx := -5.0));
    assert Collide(g, m, Day, ps[..0]) == Contact(g, m);
    assert g[2][2 := Day] == [Night, Night, Day, Night];
    assert Collide(g, m, Day, ps[..1]) == s1 by { assert ps[..1][..0] == ps[..0]; }
    assert Collide(g, m, Day, ps[..2]) == s1 by { assert ps[..2][..1] == ps[..1]; }
    assert Collide(g, m, Day, ps[..3]) == s1 by { assert ps[..3][..2] == ps[..2]; }
  }

  /** Probes four to six of that ball land in day cells of the left half
      and change nothing. */
  lemma CrossingIntoNightDayProbes(ps: seq<Probe>)
    requires IsRing(ps)
    ensures Collide(InitialGrid(4, 4), Motion(50.0, 50.0, 5.0, 5.0), Day, ps[..6])
         == Contact(InitialGrid(4, 4)[2 := [Night, Night, Day, Night]], Motion(50.0, 50.0, -5.0, 5.0))
  {
    CentreProbeCells(ps);
    CrossingIntoNightFirstCapture(ps);
    var g := InitialGrid(4, 4);
    var m := Motion(50.0, 50.0, 5.0, 5.0);
    assert g[1] == [Day, Day, Day, Day];
    var s1 := Contact(g[2 := [Night, Night, Day, Night]], m.(dx := -5.0));
    assert Collide(g, m, Day, ps[..4]) == s1 by { assert ps[..4][..3] == ps[..3]; }
    assert Collide(g, m, Day, ps[..5]) == s1 by { assert ps[..5][..4] == ps[..4]; }
    assert Collide(g, m, Day, ps[..6]) == s1 by { assert ps[..6][..5] == ps[..5]; }
  }

  /** Probes seven and eight of that ball, after the first capture: the
      upper probe captures the night cell above and flips dy, and the
      upper-right diagonal finds that cell already claimed. */
  lemma CrossingIntoNightUpperProbes(ps: seq<Probe>)
    requires IsRing(ps)
    ensures var before := Contact(InitialGrid(4, 4)[2 := [Night, Night, Day, Night]], Motion(50.0, 50.0, -5.0, 5.0));
            var after := Contact(InitialGrid(4, 4)[2 := [Night, Day, Day, Night]], Motion(50.0, 50.0, -5.0, -5.0));
            ProbeStep(before, Day, ps[6]) == after && ProbeStep(after, Day, ps[7]) == after
  {
    CentreProbeCells(ps);
    var g := InitialGrid(4, 4);
    assert g[2] == [Night, Night, Night, Night];
    var s1 := Contact(g[2 := [Night, Night, Day, Night]], Motion(50.0, 50.0, -5.0, 5.0));
    var s2 := Contact(g[2 := [Night, Day, Day, Night]], Motion(50.0, 50.0, -5.0, -5.0));
    assert s1.grid[2][1 := Day] == [Night, Day, Day, Night];
    assert s1.grid[2 := s1.grid[2][1 := Day]] == s2.grid;
    assert ProbeStep(s1, Day, ps[6]) == s2;
  }

  /** On a 4 x 4 grid split into day and night columns, a day ball at the
      centre moving down-right captures the two night cells under its right
      and upper probes, bouncing on both axes; the diagonal probes, whatever
      axis they flip, find their cells already claimed. */
  lemma CrossingIntoNight(ps: seq<Probe>)
    requires IsRing(ps)
    ensures var r := Collide(InitialGrid(4, 4), Motion(50.0, 50.0, 5.0, 5.0), Day, ps);
            r.ball == Motion(50.0, 50.0, -5.0, -5.0) &&
            r.grid == InitialGrid(4, 4)[2 := [Night, Day, Day, Night]]
  {
    CrossingIntoNightDayProbes(ps);
    CrossingIntoNightUpperProbes(ps);
    var g := InitialGrid(4, 4);
    var m := Motion(50.0, 50.0, 5.0, 5.0);
    var s2 := Contact(g[2 := [Night, Day, Day, Night]], Motion(50.0, 50.0, -5.0, -5.0));
    assert Collide(g, m, Day, ps[..7]) == s2 by {
      assert ps[..7][..6] == ps[..6] && ps[..7][6] == ps[6];
    }
    assert Collide(g, m, Day, ps[..8]) == s2 by {
      assert ps[..8][..7] == ps[..7] && ps[..8][7] == ps[7];
    }
    assert ps[..8] == ps;
  }
}
