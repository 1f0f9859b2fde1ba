// The bird: its state, the gravity integrator that moves it once per frame,
// and the two tests against the edges of the play field (ground and ceiling).
// Coordinates are reals standing in for the browser's numbers; the y axis
// points down, so a negative vertical velocity moves the bird up.
module Physics {

  /** Added to the vertical velocity on every playing frame. */
  const Gravity: real := 0.45
  /** The velocity a flap sets (a reset, not an increment). */
  const JumpForce: real := -7.5
  /** Height of the ground strip at the bottom of the canvas. */
  const GroundHeight: real := 80.0

  /** The bird's box: width and height, fixed for the whole session. */
  const BirdW: real := 38.0
  const BirdH: real := 28.0

  /** Frames for which a flap shows the raised-wing pose. */
  const FlapFrames: nat := 6

  /** The tilt (in degrees) is three times the velocity, clamped to [-30, 70]. */
  const RotationScale: real := 3.0
  const MinRotation: real := -30.0
  const MaxRotation: real := 70.0

  datatype Bird = Bird(x: real, y: real, vy: real, rotation: real, flapFrame: nat)

  /** Math.min(Math.max(vy * 3, -30), 70). */
  function Rotation(vy: real): (r: real)
    ensures MinRotation <= r <= MaxRotation
    ensures MinRotation <= vy * RotationScale <= MaxRotation ==> r == vy * RotationScale
    ensures vy * RotationScale < MinRotation ==> r == MinRotation
    ensures MaxRotation < vy * RotationScale ==> r == MaxRotation
  {
    var raised := if vy * RotationScale > MinRotation then vy * RotationScale else MinRotation;
    if raised < MaxRotation then raised else MaxRotation
  }

  /**
   * One frame of the integrator: gravity is added to the velocity first,
   * the new velocity moves the bird, the tilt follows the new velocity and
   * the flap pose counts down towards zero.
   */
  function Fall(b: Bird): Bird
  {
    var vy := b.vy + Gravity;
    b.(vy := vy,
       y := b.y + vy,
       rotation := Rotation(vy),
       flapFrame := if b.flapFrame > 0 then b.flapFrame - 1 else 0)
  }

  /** n frames of the integrator with no flap and no ceiling contact in between. */
  function FallN(b: Bird, n: nat): Bird
  {
    if n == 0 then b else Fall(FallN(b, n - 1))
  }

  /**
   * n frames of free fall: the velocity grows by exactly Gravity per frame,
   * x never moves, the flap pose counts down and never goes below zero, and
   * the tilt stays within its clamp.
   */
  lemma {:induction false} FallNVelocity(b: Bird, n: nat)
    ensures FallN(b, n).x == b.x
    ensures FallN(b, n).vy == b.vy + (n as real) * Gravity
    ensures FallN(b, n).flapFrame == if b.flapFrame >= n then b.flapFrame - n else 0
    ensures n > 0 ==> MinRotation <= FallN(b, n).rotation <= MaxRotation
  {
    if n > 0 {
      FallNVelocity(b, n - 1);
    }
  }

  /** n frames after a first one are n + 1 frames. */
  lemma {:induction false} FallNFirst(b: Bird, n: nat)
    ensures FallN(Fall(b), n) == FallN(b, n + 1)
  {
    if n > 0 {
      FallNFirst(b, n - 1);
    }
  }

  /**
   * The height after n frames of free fall follows the discrete
   * (semi-implicit Euler) sum: y + n * vy + Gravity * n * (n + 1) / 2.
   */
  lemma {:induction false} FallNHeight(b: Bird, n: nat)
    ensures FallN(b, n).y == FreeFallHeight(b.y, b.vy, n)
  {
    if n > 0 {
      FallNHeight(b, n - 1);
      FallNVelocity(b, n);
      assert FallN(b, n).y == FallN(b, n - 1).y + FallN(b, n).vy;
      FreeFallStep(b.y, b.vy, n);
    }
  }

  /** The closed form of the height after n frames of free fall. */
  function FreeFallHeight(y: real, vy: real, n: nat): real
  {
    y + (n as real) * vy + Gravity * (n as real) * (n as real + 1.0) / 2.0
  }

  /** Frame n of free fall adds the velocity of that frame, vy + n * Gravity. */
  lemma FreeFallStep(y: real, vy: real, n: nat)
    requires n > 0
    ensures FreeFallHeight(y, vy, n) == FreeFallHeight(y, vy, n - 1) + (vy + (n as real) * Gravity)
  {
    var m, k := (n - 1) as real, n as real;
    assert m * vy + vy == k * vy;
    assert m * (m + 1.0) + 2.0 * k == k * (k + 1.0);
  }

  /** The bird's lower edge is strictly below the top of the ground strip. */
  predicate HitsGround(b: Bird, height: real)
  {
    b.y + BirdH / 2.0 > height - GroundHeight
  }

  /**
   * Ceiling contact is a correction, not a failure: when the upper edge is
   * above the canvas the bird is put back with its upper edge at 0 and its
   * velocity zeroed. The tilt already computed this frame is kept.
   */
  function ClampCeiling(b: Bird): (c: Bird)
    ensures c.y - BirdH / 2.0 >= 0.0
    ensures c.x == b.x && c.rotation == b.rotation && c.flapFrame == b.flapFrame
    ensures b.y - BirdH / 2.0 < 0.0 ==> c.vy == 0.0 && c.y - BirdH / 2.0 == 0.0
    ensures b.y - BirdH / 2.0 >= 0.0 ==> c == b
  {
    if b.y - BirdH / 2.0 < 0.0 then b.(y := BirdH / 2.0, vy := 0.0) else b
  }
}
