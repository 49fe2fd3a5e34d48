/**
  Ball physics of Pong Wars that does not touch the grid: the constants,
  Kotlin's truncating float-to-int conversion, the wall check of
  checkBoundaryCollision and the speed jitter and clamp of addRandomness.
  Float arithmetic is modelled with exact reals.
 */
module Physics {

  /** SQUARE_SIZE: side of one grid cell, in canvas pixels. */
  const SquareSize: int := 25

  /** SQUARE_SIZE / 2f: the ball radius, the probe distance and the wall margin. */
  const HalfSquare: real := 12.5

  const MinSpeed: real := 5.0
  const MaxSpeed: real := 10.0

  function Abs(r: real): real {
    if r < 0.0 then -r else r
  }

  /** Position and velocity of one ball (the mutable part of Ball). */
  datatype Motion = Motion(x: real, y: real, dx: real, dy: real)

  /** Kotlin's `toInt()` on a floating-point value: rounds toward zero,
      so it agrees with floor on non-negative values only. */
  function Trunc(r: real): (t: int)
    ensures 0.0 <= r ==> t as real <= r < t as real + 1.0
    ensures r < 0.0 ==> t as real - 1.0 < r <= t as real
    ensures Abs(t as real) <= Abs(r)
  {
    if r >= 0.0 then r.Floor else -((-r).Floor)
  }

  /** A probe point strictly left of (or above) the canvas by less than one
      cell still lands in column (row) 0, where floor would give -1. */
  lemma NegativeProbeLandsInCellZero(p: real)
    requires -(SquareSize as real) < p < 0.0
    ensures Trunc(p / SquareSize as real) == 0
    ensures (p / SquareSize as real).Floor == -1
  {
  }

  // ---------------------------------------------------------------------
  // checkBoundaryCollision

  /** Would advancing by `v` from `p` leave the band [HalfSquare, extent - HalfSquare]? */
  function Leaves(p: real, v: real, extent: real): (b: bool)
    ensures b <==> !(HalfSquare <= p + v <= extent - HalfSquare)
  {
    p + v > extent - HalfSquare || p + v < HalfSquare
  }

  /** The wall check of checkBoundaryCollision on one axis: the velocity
      component is negated when the next position would leave the band. */
  function Reflect(p: real, v: real, extent: real): (r: real)
    ensures Abs(r) == Abs(v)
    ensures r == v || r == -v
  {
    if Leaves(p, v, extent) then -v else v
  }

  /** A moving component changes exactly when the step would leave the band. */
  lemma ReflectChangesIffLeaving(p: real, v: real, extent: real)
    requires v != 0.0
    ensures Reflect(p, v, extent) != v <==> Leaves(p, v, extent)
  {
  }

  /** The reflection keeps the next position inside the band, provided the
      ball starts inside it and the band is at least two steps wide. */
  lemma ReflectKeepsNextPositionInside(p: real, v: real, extent: real)
    requires HalfSquare <= p <= extent - HalfSquare
    requires 2.0 * Abs(v) <= extent - 2.0 * HalfSquare
    ensures HalfSquare <= p + Reflect(p, v, extent) <= extent - HalfSquare
  {
  }

  /** checkBoundaryCollision: both axes, independently, against the canvas size. */
  function Bounce(m: Motion, width: real, height: real): (r: Motion)
    ensures r.x == m.x && r.y == m.y
    ensures Abs(r.dx) == Abs(m.dx) && Abs(r.dy) == Abs(m.dy)
  {
    m.(dx := Reflect(m.x, m.dx, width), dy := Reflect(m.y, m.dy, height))
  }

  // ---------------------------------------------------------------------
  // addRandomness

  /** The random term `(Random.nextInt(0, 100) / 100f) * 0.01f - 0.005f`,
      for the drawn integer `k`. */
  function Noise(k: int): (r: real)
    requires 0 <= k < 100
    ensures -0.005 <= r < 0.005
  {
    (k as real / 100.0) * 0.01 - 0.005
  }

  function Min(a: real, b: real): real { if a <= b then a else b }
  function Max(a: real, b: real): real { if a >= b then a else b }

  /** The clamp of addRandomness: into [-MaxSpeed, MaxSpeed], then a
      component slower than MinSpeed is pushed out to MinSpeed, keeping a
      positive sign and sending zero or negative to -MinSpeed. */
  function SpeedLimit(v: real): (r: real)
    ensures MinSpeed <= Abs(r) <= MaxSpeed
    ensures r > 0.0 <==> v > 0.0
    ensures MinSpeed <= Abs(v) <= MaxSpeed ==> r == v
    ensures Abs(v) > MaxSpeed ==> Abs(r) == MaxSpeed
    ensures Abs(v) < MinSpeed ==> Abs(r) == MinSpeed
  {
    var c := Min(Max(v, -MaxSpeed), MaxSpeed);
    if Abs(c) < MinSpeed then (if c > 0.0 then MinSpeed else -MinSpeed) else c
  }

  /** Both velocity components lie in [MinSpeed, MaxSpeed] in magnitude. */
  predicate InSpeedBand(m: Motion) {
    MinSpeed <= Abs(m.dx) <= MaxSpeed && MinSpeed <= Abs(m.dy) <= MaxSpeed
  }

  /** One component after addRandomness with drawn integer `k`. */
  function Jitter(v: real, k: int): (r: real)
    requires 0 <= k < 100
    ensures MinSpeed <= Abs(r) <= MaxSpeed
    ensures r > 0.0 <==> v + Noise(k) > 0.0
  {
    SpeedLimit(v + Noise(k))
  }

  /** Inside the speed band, jitter keeps the direction and moves the
      component by at most the size of the random term. */
  lemma JitterInBandIsSmall(v: real, k: int)
    requires 0 <= k < 100
    requires MinSpeed <= Abs(v) <= MaxSpeed
    ensures (Jitter(v, k) > 0.0) == (v > 0.0)
    ensures Abs(Jitter(v, k) - v) <= 0.005
  {
  }

  /** addRandomness applied to a ball: jitter both velocity components. */
  function JitterVelocity(m: Motion, kx: int, ky: int): (r: Motion)
    requires 0 <= kx < 100 && 0 <= ky < 100
    ensures r.x == m.x && r.y == m.y
    ensures InSpeedBand(r)
  {
    m.(dx := Jitter(m.dx, kx), dy := Jitter(m.dy, ky))
  }

  /** `ball.x += ball.dx; ball.y += ball.dy` */
  function Advance(m: Motion): (r: Motion)
    ensures r.dx == m.dx && r.dy == m.dy
    ensures r.x - m.x == m.dx && r.y - m.y == m.dy
  {
    m.(x := m.x + m.dx, y := m.y + m.dy)
  }
}
