// The session: the whole mutable state of the game as one value, and what
// each entry point (a frame, a flap, the restart button) does to it. These
// functions are the specification the Game class in FlappyGame is proved
// against; the lemmas state what the game promises about them.
module Session {
  import opened Physics
  import opened Pipes

  datatype GameState = Idle | Playing | Dead

  /** A fresh bird sits at a quarter of the width and 40% of the height. */
  const BirdStartX: real := 0.25
  const BirdStartY: real := 0.4

  /** The idle sway: the phase advances by SwayStep per frame, amplitude SwayAmplitude. */
  const SwayStep: real := 0.04
  const SwayAmplitude: real := 12.0

  /** The ground texture scrolls by half the pipe speed, wrapping at its tile period. */
  const ScrollStep: real := PipeSpeed * 0.5
  const ScrollPeriod: real := 24.0

  datatype World = World(
    width: real, height: real,
    bird: Bird,
    pipes: seq<Pipe>,
    score: nat, bestScore: nat,
    lastPipeTime: real,
    bgOffset: real,
    idleAngle: real,
    state: GameState)

  /**
   * init(): a new bird, no pipes, score and timers back to zero, and the
   * idle state. The best score and the sway phase survive.
   */
  function Init(width: real, height: real, bestScore: nat, idleAngle: real): World
  {
    World(width, height,
          Bird(width * BirdStartX, height * BirdStartY, 0.0, 0.0, 0),
          [], 0, bestScore, 0.0, 0.0, idleAngle, Idle)
  }

  /** The restart button calls init() whatever the state. */
  function Restart(w: World): World
  {
    Init(w.width, w.height, w.bestScore, w.idleAngle)
  }

  /**
   * jump(): the first flap starts the game (velocity reset and spawn clock
   * started, flap pose untouched); later flaps reset the velocity and show
   * the flap pose; a dead game ignores it.
   */
  function Jump(w: World, now: real): World
  {
    match w.state
    case Idle => w.(state := Playing, bird := w.bird.(vy := JumpForce), lastPipeTime := now)
    case Playing => w.(bird := w.bird.(vy := JumpForce, flapFrame := FlapFrames))
    case Dead => w
  }

  /** The input handlers return early when the game is dead, then call jump(). */
  function HandleInput(w: World, now: real): World
  {
    if w.state == Dead then w else Jump(w, now)
  }

  /** die(): the game is over and the best score takes the larger of the two. */
  function Die(w: World): (d: World)
    ensures d.state == Dead
    ensures d.bestScore >= w.bestScore && d.bestScore >= w.score
    ensures d.bestScore == w.bestScore || d.bestScore == w.score
    ensures d.(state := w.state, bestScore := w.bestScore) == w
  {
    w.(state := Dead, bestScore := if w.score > w.bestScore then w.score else w.bestScore)
  }

  /**
   * JavaScript's x % 24 (the remainder of division truncated towards zero,
   * so it takes the sign of x).
   */
  function JsRemainder(x: real): (r: real)
    ensures 0.0 <= x ==> 0.0 <= r < ScrollPeriod
    ensures x < 0.0 ==> -ScrollPeriod < r <= 0.0
    ensures 0.0 <= x < ScrollPeriod ==> r == x
    ensures ScrollPeriod <= x < 2.0 * ScrollPeriod ==> r == x - ScrollPeriod
  {
    var q := x / ScrollPeriod;
    var t := if q >= 0.0 then q.Floor else -((-q).Floor);
    x - ScrollPeriod * (t as real)
  }

  /** (bgOffset + PIPE_SPEED * 0.5) % 24 */
  function Scroll(offset: real): (r: real)
    ensures 0.0 <= offset ==> 0.0 <= r < ScrollPeriod
  {
    JsRemainder(offset + ScrollStep)
  }

  // One playing frame of update(), phase by phase, in the source's order.

  /** The gravity integrator and the ground scroll. */
  function PhysicsPhase(w: World): World
  {
    w.(bird := Fall(w.bird), bgOffset := Scroll(w.bgOffset))
  }

  /** At most one spawn: only once strictly more than SpawnInterval has passed. */
  function SpawnPhase(w: World, now: real, r: real): World
    requires 0.0 <= r < 1.0
  {
    if now - w.lastPipeTime > SpawnInterval then
      w.(pipes := w.pipes + [NewPipe(w.width, w.height, r)], lastPipeTime := now)
    else w
  }

  /** Moving, scoring and removing the pipes; one point per flag that flips. */
  function PipePhase(w: World): World
  {
    w.(pipes := Advance(w.pipes, w.bird.x), score := w.score + Flips(w.pipes, w.bird.x))
  }

  /** Ground (fatal), then ceiling (a correction), then the pipes (fatal). */
  function CollisionPhase(w: World): World
  {
    if HitsGround(w.bird, w.height) then Die(w)
    else
      var c := w.(bird := ClampCeiling(w.bird));
      if AnyPipeHit(c.bird, c.pipes) then Die(c) else c
  }

  /** update(dt, now): nothing unless playing. */
  function Tick(w: World, now: real, r: real): World
    requires 0.0 <= r < 1.0
  {
    if w.state != Playing then w
    else CollisionPhase(PipePhase(SpawnPhase(PhysicsPhase(w), now, r)))
  }

  /**
   * idleAnimation(): the phase advances first and the bird is put at 40% of
   * the height plus the amplitude times the sine of the new phase, which the
   * caller supplies as sine.
   */
  function Sway(w: World, sine: real): World
    requires -1.0 <= sine <= 1.0
  {
    var angle := w.idleAngle + SwayStep;
    w.(idleAngle := angle, bird := w.bird.(y := w.height * BirdStartY + sine * SwayAmplitude))
  }

  /** gameLoop(timestamp): the idle sway when idle, then update() in every state. */
  function Frame(w: World, timestamp: real, r: real, sine: real): World
    requires 0.0 <= r < 1.0 && -1.0 <= sine <= 1.0
  {
    Tick(if w.state == Idle then Sway(w, sine) else w, timestamp, r)
  }

  /** What holds of every pipe between frames. */
  predicate PipeOk(p: Pipe, w: World)
  {
    && !OffScreen(p)
    && (p.scored <==> Passed(p, w.bird.x))
    && InBand(p.topH, w.height)
  }

  /**
   * What holds between any two events: the scroll stays in its period, the
   * bird never leaves its column, the flap pose is at most FlapFrames, an
   * idle game has no pipes and no points, a dead game's best score includes
   * its final score, every pipe is on screen, is scored exactly when it is
   * behind the bird, and has its gap in the spawn band, and the list is in
   * screen order, oldest first.
   */
  predicate Inv(w: World)
  {
    && 0.0 <= w.bgOffset < ScrollPeriod
    && w.bird.x == w.width * BirdStartX
    && w.bird.flapFrame <= FlapFrames
    && (w.state == Idle ==> w.pipes == [] && w.score == 0)
    && (w.state == Dead ==> w.score <= w.bestScore)
    && (forall k :: 0 <= k < |w.pipes| ==> PipeOk(w.pipes[k], w))
    && Ordered(w.pipes, w.width)
  }

  /** The inputs the game reacts to: a flap, the restart button, a display frame. */
  datatype Event =
    | Input(now: real)
    | RestartClick
    | Animate(timestamp: real, r: real, sine: real)

  /** Math.random() lies in [0, 1) and Math.sin in [-1, 1]. */
  predicate WellFormed(e: Event)
  {
    e.Animate? ==> 0.0 <= e.r < 1.0 && -1.0 <= e.sine <= 1.0
  }

  function Step(w: World, e: Event): World
    requires WellFormed(e)
  {
    match e
    case Input(now) => HandleInput(w, now)
    case RestartClick => Restart(w)
    case Animate(t, r, sine) => Frame(w, t, r, sine)
  }

  function Run(w: World, events: seq<Event>): World
    requires forall k :: 0 <= k < |events| ==> WellFormed(events[k])
    decreases |events|
  {
    if events == [] then w else Run(Step(w, events[0]), events[1..])
  }

  // ---------------------------------------------------------------------
  // What the game promises.

  /** A fresh or restarted session: idle, no pipes, no points, clocks at zero, invariant holds. */
  lemma InitIsFresh(width: real, height: real, bestScore: nat, idleAngle: real)
    ensures var w := Init(width, height, bestScore, idleAngle);
      && w.state == Idle && w.pipes == [] && w.score == 0 && w.bestScore == bestScore
      && w.lastPipeTime == 0.0 && w.bgOffset == 0.0
      && w.bird.vy == 0.0 && w.bird.flapFrame == 0
      && Inv(w)
  {
  }

  /** update() changes nothing unless the game is playing. */
  lemma TickOnlyWhilePlaying(w: World, now: real, r: real)
    requires 0.0 <= r < 1.0
    ensures w.state != Playing ==> Tick(w, now, r) == w
    ensures w.state == Playing ==> Tick(w, now, r).state in {Playing, Dead}
  {
  }

  /** A flap is a reset, not an increment: the velocity after it does not depend on the one before. */
  lemma JumpResetsVelocity(w: World, vy: real, now: real)
    requires w.state != Dead
    ensures Jump(w, now).bird.vy == JumpForce
    ensures Jump(w.(bird := w.bird.(vy := vy)), now) == Jump(w, now)
  {
  }

  /**
   * The bird in a playing frame: gravity is added before the move, the tilt
   * (from the velocity before any ceiling clamp) stays in [-30, 70], the flap
   * pose counts down to zero, x does not move. Unless the ground ends the
   * game, the bird's top edge is then inside the canvas, and the velocity is
   * zero when the ceiling clamp applied.
   */
  lemma TickMovesBird(w: World, now: real, r: real)
    requires 0.0 <= r < 1.0 && w.state == Playing
    ensures var b, t := Fall(w.bird), Tick(w, now, r).bird;
      && b.vy == w.bird.vy + Gravity && b.y == w.bird.y + b.vy
      && t.x == w.bird.x
      && t.rotation == Rotation(w.bird.vy + Gravity)
      && MinRotation <= t.rotation <= MaxRotation
      && t.flapFrame == (if w.bird.flapFrame > 0 then w.bird.flapFrame - 1 else 0)
      && (HitsGround(b, w.height) ==> t == b)
      && (!HitsGround(b, w.height) ==> t.y - BirdH / 2.0 >= 0.0)
      && (!HitsGround(b, w.height) && b.y - BirdH / 2.0 < 0.0 ==> t.vy == 0.0 && t.y == BirdH / 2.0)
      && (b.y - BirdH / 2.0 >= 0.0 ==> t == b)
  {
    var s := PipePhase(SpawnPhase(PhysicsPhase(w), now, r));
    assert s.bird == Fall(w.bird);
  }

  /**
   * Spawning in a playing frame happens exactly when strictly more than
   * SpawnInterval has passed; it appends one pipe at the tail (at the right
   * edge plus the overscan, unscored, its gap in the band) and restarts the
   * spawn clock at now.
   */
  lemma SpawnAppendsOne(w: World, now: real, r: real)
    requires 0.0 <= r < 1.0
    ensures var s := SpawnPhase(w, now, r);
      && (now - w.lastPipeTime > SpawnInterval ==>
            && |s.pipes| == |w.pipes| + 1
            && s.pipes[..|w.pipes|] == w.pipes
            && s.pipes[|w.pipes|].x == w.width + SpawnOverscan
            && !s.pipes[|w.pipes|].scored
            && InBand(s.pipes[|w.pipes|].topH, w.height)
            && s.lastPipeTime == now)
      && (now - w.lastPipeTime <= SpawnInterval ==> s == w)
  {
  }

  /** The spawn clock after a playing frame. */
  lemma TickSpawnClock(w: World, now: real, r: real)
    requires 0.0 <= r < 1.0 && w.state == Playing
    ensures Tick(w, now, r).lastPipeTime == if now - w.lastPipeTime > SpawnInterval then now else w.lastPipeTime
  {
  }

  /**
   * Scoring in a playing frame: the score rises by exactly the number of
   * flags that flip, over all pipes including those removed in the same
   * frame, and this happens before the collision tests, so the fatal frame
   * keeps its points.
   */
  lemma TickScores(w: World, now: real, r: real)
    requires 0.0 <= r < 1.0 && w.state == Playing
    ensures var s := SpawnPhase(PhysicsPhase(w), now, r);
      && Tick(w, now, r).score == w.score + Flips(s.pipes, w.bird.x)
      && |Tick(w, now, r).pipes| <= |w.pipes| + 1
  {
    var s := SpawnPhase(PhysicsPhase(w), now, r);
    assert s.bird.x == w.bird.x;
    assert |s.pipes| <= |w.pipes| + 1;
  }

  /**
   * A playing frame ends in Dead exactly when the bird's bottom edge is
   * strictly below the ground line, or the (ceiling-clamped) bird hits some
   * pipe that survived the move; otherwise the game keeps playing.
   */
  lemma TickDiesExactly(w: World, now: real, r: real)
    requires 0.0 <= r < 1.0 && w.state == Playing
    ensures var b := Fall(w.bird);
            var moved := Advance(SpawnPhase(PhysicsPhase(w), now, r).pipes, w.bird.x);
      Tick(w, now, r).state == Dead <==>
        HitsGround(b, w.height) || AnyPipeHit(ClampCeiling(b), moved)
    ensures Tick(w, now, r).state != Dead ==> Tick(w, now, r).state == Playing
  {
    var s := SpawnPhase(PhysicsPhase(w), now, r);
    assert s.bird == Fall(w.bird) && s.height == w.height;
  }

  /** The best score after a playing frame: the larger of the two on death, unchanged otherwise. */
  lemma TickBestScore(w: World, now: real, r: real)
    requires 0.0 <= r < 1.0 && w.state == Playing
    ensures var t := Tick(w, now, r);
      && (t.state == Dead ==> t.bestScore == (if t.score > w.bestScore then t.score else w.bestScore))
      && (t.state != Dead ==> t.bestScore == w.bestScore)
  {
    var s := PipePhase(SpawnPhase(PhysicsPhase(w), now, r));
    assert s.bestScore == w.bestScore;
  }

  /**
   * One frame can both score and end the game: a pipe passes the bird while
   * the bird sinks into the ground, and the point counts in the best score.
   */
  lemma ScoreAndDieInOneFrame()
    ensures var w := World(400.0, 600.0, Bird(100.0, 506.0, 0.0, 0.0, 0),
                           [Pipe(41.0, 100.0, false)], 3, 3, 0.0, 0.0, 0.0, Playing);
            var t := Tick(w, 100.0, 0.5);
      t.score == 4 && t.state == Dead && t.bestScore == 4
  {
    var w := World(400.0, 600.0, Bird(100.0, 506.0, 0.0, 0.0, 0),
                   [Pipe(41.0, 100.0, false)], 3, 3, 0.0, 0.0, 0.0, Playing);
    var s := SpawnPhase(PhysicsPhase(w), 100.0, 0.5);
    assert s.pipes == [Pipe(41.0, 100.0, false)];
    assert Flipped(s.pipes[0], 100.0);
    assert Flips(s.pipes, 100.0) == 1 by {
      assert s.pipes[1..] == [];
    }
  }

  /**
   * The ground test is strict: a bird whose bottom edge lands exactly on the
   * ground line keeps playing.
   */
  lemma GroundTestIsStrict()
    ensures var w := World(400.0, 600.0, Bird(100.0, 505.55, 0.0, 0.0, 0),
                           [], 0, 0, 0.0, 0.0, 0.0, Playing);
      Tick(w, 100.0, 0.5).state == Playing && Tick(w, 100.0, 0.5).bird.y + BirdH / 2.0 == 600.0 - GroundHeight
  {
    var w := World(400.0, 600.0, Bird(100.0, 505.55, 0.0, 0.0, 0),
                   [], 0, 0, 0.0, 0.0, 0.0, Playing);
    var s := SpawnPhase(PhysicsPhase(w), 100.0, 0.5);
    assert s.pipes == [];
    assert !AnyPipeHit(ClampCeiling(s.bird), []);
  }

  /** The idle frame only sways the bird, within the amplitude around 40% of the height. */
  lemma IdleFrameOnlySways(w: World, timestamp: real, r: real, sine: real)
    requires 0.0 <= r < 1.0 && -1.0 <= sine <= 1.0 && w.state == Idle
    ensures var f := Frame(w, timestamp, r, sine);
      && f == w.(idleAngle := w.idleAngle + SwayStep, bird := w.bird.(y := f.bird.y))
      && w.height * BirdStartY - SwayAmplitude <= f.bird.y <= w.height * BirdStartY + SwayAmplitude
  {
  }

  /**
   * A dead game is frozen: frames and flaps change nothing; only the
   * restart button leaves it, and it leads to Idle.
   */
  lemma DeadIsFrozen(w: World, e: Event)
    requires WellFormed(e) && w.state == Dead
    ensures e.RestartClick? <==> Step(w, e) != w
    ensures Step(w, e).state in {Dead, Idle}
  {
    if e.RestartClick? {
      assert Step(w, e).state == Idle;
    }
  }

  /**
   * The state machine: Idle goes only to Playing (by a flap), Playing only
   * to Dead (by a frame) or Idle (by the restart button), Dead only to Idle
   * (by the restart button).
   */
  lemma Transitions(w: World, e: Event)
    requires WellFormed(e)
    ensures var s := Step(w, e).state;
      && (w.state == Idle && s == Playing ==> e.Input?)
      && (w.state == Idle ==> s != Dead)
      && (w.state == Playing && s == Dead ==> e.Animate?)
      && (w.state == Playing && s == Idle ==> e.RestartClick?)
      && (w.state == Dead && s != Dead ==> e.RestartClick? && s == Idle)
      && (e.RestartClick? ==> s == Idle && Step(w, e).score == 0 && Step(w, e).pipes == [])
  {
    match e
    case Input(now) =>
    case RestartClick =>
    case Animate(t, r, sine) =>
      if w.state == Idle {
        assert Frame(w, t, r, sine).state == Idle;
      }
  }

  /** Moving the pipes keeps every pipe's invariant, given the bird column. */
  lemma PipePhaseKeepsPipes(w: World)
    requires forall k :: 0 <= k < |w.pipes| ==>
      (w.pipes[k].scored ==> Passed(w.pipes[k], w.bird.x)) && InBand(w.pipes[k].topH, w.height)
    ensures forall k :: 0 <= k < |PipePhase(w).pipes| ==> PipeOk(PipePhase(w).pipes[k], PipePhase(w))
  {
    var ps, p := w.pipes, PipePhase(w);
    AdvanceSelects(ps, w.bird.x);
    forall k | 0 <= k < |p.pipes|
      ensures PipeOk(p.pipes[k], p)
    {
      var j := Kept(ps, w.bird.x)[k];
      assert p.pipes[k] == Move(ps[j], w.bird.x);
    }
  }

  /**
   * A frame keeps the list in screen order: a new pipe starts right of every
   * listed one, and all of them then move by the same amount.
   */
  lemma TickKeepsOrder(w: World, now: real, r: real)
    requires 0.0 <= r < 1.0 && Ordered(w.pipes, w.width)
    ensures Ordered(Tick(w, now, r).pipes, w.width)
  {
    if w.state == Playing {
      var s := SpawnPhase(PhysicsPhase(w), now, r);
      if now - w.lastPipeTime > SpawnInterval {
        SpawnKeepsIncreasing(w.pipes, w.width, w.height, r);
      } else {
        assert s.pipes == w.pipes;
      }
      AdvanceKeepsOrder(s.pipes, s.bird.x, w.width + SpawnOverscan);
    }
  }

  /** Every playing frame keeps the invariant. */
  lemma TickKeepsInv(w: World, now: real, r: real)
    requires 0.0 <= r < 1.0 && Inv(w)
    ensures Inv(Tick(w, now, r))
  {
    TickKeepsOrder(w, now, r);
    if w.state == Playing {
      var s := SpawnPhase(PhysicsPhase(w), now, r);
      assert s.bird.x == w.bird.x && s.height == w.height;
      forall k | 0 <= k < |s.pipes|
        ensures (s.pipes[k].scored ==> Passed(s.pipes[k], s.bird.x)) && InBand(s.pipes[k].topH, s.height)
      {
        if k < |w.pipes| {
          assert s.pipes[k] == w.pipes[k];
          assert PipeOk(w.pipes[k], w);
        }
      }
      PipePhaseKeepsPipes(s);
      var p := PipePhase(s);
      var c := p.(bird := ClampCeiling(p.bird));
      assert forall k :: 0 <= k < |c.pipes| ==> PipeOk(c.pipes[k], p) == PipeOk(c.pipes[k], c);
    }
  }

  /** A flap keeps the invariant. */
  lemma JumpKeepsInv(w: World, now: real)
    requires Inv(w)
    ensures Inv(Jump(w, now))
  {
    var j := Jump(w, now);
    assert j.bird.x == w.bird.x && j.pipes == w.pipes && j.height == w.height;
    assert forall k :: 0 <= k < |j.pipes| ==> PipeOk(j.pipes[k], j) == PipeOk(j.pipes[k], w);
  }

  /** The idle sway keeps the invariant. */
  lemma SwayKeepsInv(w: World, sine: real)
    requires -1.0 <= sine <= 1.0 && Inv(w)
    ensures Inv(Sway(w, sine))
  {
    var v := Sway(w, sine);
    assert forall k :: 0 <= k < |v.pipes| ==> PipeOk(v.pipes[k], v) == PipeOk(v.pipes[k], w);
  }

  /** Every event keeps the invariant. */
  lemma StepKeepsInv(w: World, e: Event)
    requires WellFormed(e) && Inv(w)
    ensures Inv(Step(w, e))
  {
    match e
    case Input(now) =>
      JumpKeepsInv(w, now);
    case RestartClick =>
    case Animate(t, r, sine) =>
      if w.state == Idle {
        SwayKeepsInv(w, sine);
      }
      var v := if w.state == Idle then Sway(w, sine) else w;
      TickKeepsInv(v, t, r);
  }

  /**
   * Over any run of events, restarts included, the best score never
   * decreases and the invariant is kept.
   */
  lemma {:induction false} RunKeepsBest(w: World, events: seq<Event>)
    requires forall k :: 0 <= k < |events| ==> WellFormed(events[k])
    requires Inv(w)
    ensures Run(w, events).bestScore >= w.bestScore
    ensures Inv(Run(w, events))
    decreases |events|
  {
    if events != [] {
      var w' := Step(w, events[0]);
      StepKeepsInv(w, events[0]);
      assert w'.bestScore >= w.bestScore by {
        match events[0]
        case Input(now) =>
        case RestartClick =>
        case Animate(t, r, sine) =>
          var v := if w.state == Idle then Sway(w, sine) else w;
          if v.state == Playing {
            TickBestScore(v, t, r);
          }
      }
      RunKeepsBest(w', events[1..]);
    }
  }

  function Max(a: nat, b: nat): nat
  {
    if a >= b then a else b
  }

  /**
   * The largest score the game ended with (by a frame that turned a live
   * game into a dead one) during the run, or 0 if it never died.
   */
  function MaxAtDeaths(w: World, events: seq<Event>): nat
    requires forall k :: 0 <= k < |events| ==> WellFormed(events[k])
    decreases |events|
  {
    if events == [] then 0
    else
      var next := Step(w, events[0]);
      var here := if w.state != Dead && next.state == Dead then next.score else 0;
      Max(here, MaxAtDeaths(next, events[1..]))
  }

  /**
   * One event: the best score becomes the score the game died with if this
   * event killed it and that score was higher, and stays as it was otherwise.
   */
  lemma StepBestScore(w: World, e: Event)
    requires WellFormed(e)
    ensures var next := Step(w, e);
      next.bestScore == Max(w.bestScore, if w.state != Dead && next.state == Dead then next.score else 0)
  {
    match e
    case Input(now) =>
    case RestartClick =>
    case Animate(t, r, sine) =>
      var v := if w.state == Idle then Sway(w, sine) else w;
      if v.state == Playing {
        TickBestScore(v, t, r);
      }
  }

  /**
   * Over any run of events the best score is the larger of the starting best
   * and the highest score the game died with during the run.
   */
  lemma {:induction false} RunBestIsMaxAtDeaths(w: World, events: seq<Event>)
    requires forall k :: 0 <= k < |events| ==> WellFormed(events[k])
    ensures Run(w, events).bestScore == Max(w.bestScore, MaxAtDeaths(w, events))
    decreases |events|
  {
    if events != [] {
      StepBestScore(w, events[0]);
      RunBestIsMaxAtDeaths(Step(w, events[0]), events[1..]);
    }
  }

  /** A dead game stays as it is through any run without a restart click. */
  lemma {:induction false} DeadRunIsFrozen(w: World, events: seq<Event>)
    requires forall k :: 0 <= k < |events| ==> WellFormed(events[k]) && !events[k].RestartClick?
    requires w.state == Dead
    ensures Run(w, events) == w
    decreases |events|
  {
    if events != [] {
      DeadIsFrozen(w, events[0]);
      DeadRunIsFrozen(w, events[1..]);
    }
  }

  /** A display frame on a playing game is one update(). */
  lemma AnimateIsTick(w: World, e: Event)
    requires WellFormed(e) && e.Animate? && w.state == Playing
    ensures Step(w, e) == Tick(w, e.timestamp, e.r)
  {
  }

  /** One frame that leaves the game playing, without ceiling contact, is one step of Fall. */
  lemma FrameFalls(w: World, now: real, r: real)
    requires 0.0 <= r < 1.0 && w.state == Playing && Tick(w, now, r).state == Playing
    requires Fall(w.bird).y - BirdH / 2.0 >= 0.0
    ensures Tick(w, now, r).bird == Fall(w.bird)
  {
    TickMovesBird(w, now, r);
  }

  /**
   * n frames of a playing game that is still playing afterwards, without a
   * flap and without the bird's top edge ever above the canvas, leave the
   * bird at FallN of its start.
   */
  lemma {:induction false} FramesAreFallN(w: World, events: seq<Event>)
    requires forall k :: 0 <= k < |events| ==> WellFormed(events[k]) && events[k].Animate?
    requires w.state == Playing && Run(w, events).state == Playing
    requires forall n :: 1 <= n <= |events| ==> FallN(w.bird, n).y - BirdH / 2.0 >= 0.0
    ensures Run(w, events).bird == FallN(w.bird, |events|)
    decreases |events|
  {
    if events != [] {
      var e, rest := events[0], events[1..];
      var next := Step(w, e);
      assert Run(w, events) == Run(next, rest);
      AnimateIsTick(w, e);
      if next.state == Dead {
        DeadRunIsFrozen(next, rest);
        assert false;
      }
      assert FallN(w.bird, 1) == Fall(w.bird);
      assert FallN(w.bird, 1).y - BirdH / 2.0 >= 0.0;
      FrameFalls(w, e.timestamp, e.r);
      forall n | 1 <= n <= |rest|
        ensures FallN(next.bird, n).y - BirdH / 2.0 >= 0.0
      {
        FallNFirst(w.bird, n);
      }
      FramesAreFallN(next, rest);
      FallNFirst(w.bird, |rest|);
      assert |rest| + 1 == |events|;
    }
  }

  /**
   * The same frames in closed form: x fixed, vy grown by n * Gravity, and y
   * at FreeFallHeight.
   */
  lemma FramesFall(w: World, events: seq<Event>)
    requires forall k :: 0 <= k < |events| ==> WellFormed(events[k]) && events[k].Animate?
    requires w.state == Playing && Run(w, events).state == Playing
    requires forall n :: 1 <= n <= |events| ==> FallN(w.bird, n).y - BirdH / 2.0 >= 0.0
    ensures Run(w, events).bird.x == w.bird.x
    ensures Run(w, events).bird.vy == w.bird.vy + (|events| as real) * Gravity
    ensures Run(w, events).bird.y == FreeFallHeight(w.bird.y, w.bird.vy, |events|)
  {
    FramesAreFallN(w, events);
    FallNVelocity(w.bird, |events|);
    FallNHeight(w.bird, |events|);
  }

}
