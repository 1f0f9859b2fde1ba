// The game object: the module-level state of the page as the fields of one
// object, and its entry points as methods that update those fields in place.
// The entry points (the constructor, Init, Jump, HandleInput, Update,
// IdleAnimation, GameLoop) are proved to have exactly the effect the matching
// function of Session describes, and to keep Session.Inv. Die and the parts
// of update() (ApplyPhysics, Collide) are proved equal to their Session
// functions but do not keep Inv on their own; SpawnPipe, MovePipes and
// HitsAnyPipe are proved against Pipes.NewPipe, Pipes.Advance and Pipes.Flips,
// and Pipes.AnyPipeHit.
module FlappyGame {
  import opened Physics
  import opened Pipes
  import opened Session

  /**
   * The specification of one turn of the backward pipe loop: the pipe at i
   * joins the processed suffix if it survives its move, and its flip joins
   * the suffix's points.
   */
  lemma SuffixStep(orig: seq<Pipe>, i: int, birdX: real)
    requires 0 <= i < |orig|
    ensures OffScreen(Move(orig[i], birdX)) ==> Advance(orig[i..], birdX) == Advance(orig[i + 1..], birdX)
    ensures !OffScreen(Move(orig[i], birdX)) ==>
              Advance(orig[i..], birdX) == [Move(orig[i], birdX)] + Advance(orig[i + 1..], birdX)
    ensures Flips(orig[i..], birdX) == (if Flipped(orig[i], birdX) then 1 else 0) + Flips(orig[i + 1..], birdX)
  {
    assert orig[i..][1..] == orig[i + 1..];
    AdvanceUnfold(orig[i..], birdX);
  }

  /**
   * One turn of the backward pipe loop on the list: it holds the untouched
   * prefix up to i and then the processed suffix, so the pipe at i is the
   * original one; writing v there gives prefix, v, suffix, and splicing i
   * out gives prefix and suffix.
   */
  lemma Replaced(orig: seq<Pipe>, i: int, birdX: real, ps: seq<Pipe>, v: Pipe)
    requires 0 <= i < |orig|
    requires ps == orig[..i + 1] + Advance(orig[i + 1..], birdX)
    ensures ps[i] == orig[i]
    ensures ps[i := v] == orig[..i] + ([v] + Advance(orig[i + 1..], birdX))
    ensures ps[i := v][..i] + ps[i := v][i + 1..] == orig[..i] + Advance(orig[i + 1..], birdX)
  {
    assert orig[..i + 1] == orig[..i] + [orig[i]];
    assert ps[i := v][..i] == orig[..i];
    assert ps[i := v][i + 1..] == Advance(orig[i + 1..], birdX);
  }

  /**
   * One whole turn at i, from the list holding the untouched prefix up to i
   * and then the processed suffix: the pipe at i is the original one, and
   * writing its moved self there, then splicing it out if it is off
   * screen, gives the prefix before i followed by the processed suffix
   * from i. Its flip joins the suffix's points.
   */
  lemma Turn(orig: seq<Pipe>, i: int, birdX: real, before: seq<Pipe>)
    requires 0 <= i < |orig|
    requires before == orig[..i + 1] + Advance(orig[i + 1..], birdX)
    ensures before[i] == orig[i]
    ensures var moved := before[i := Move(orig[i], birdX)];
            && (OffScreen(Move(orig[i], birdX)) ==> moved[..i] + moved[i + 1..] == orig[..i] + Advance(orig[i..], birdX))
            && (!OffScreen(Move(orig[i], birdX)) ==> moved == orig[..i] + Advance(orig[i..], birdX))
    ensures Flips(orig[i..], birdX) == (if Flipped(orig[i], birdX) then 1 else 0) + Flips(orig[i + 1..], birdX)
  {
    Replaced(orig, i, birdX, before, Move(orig[i], birdX));
    SuffixStep(orig, i, birdX);
  }

  /** Writing the same index twice keeps only the second write. */
  lemma Overwrite(ps: seq<Pipe>, i: int, a: Pipe, b: Pipe)
    requires 0 <= i < |ps|
    ensures ps[i := a][i := b] == ps[i := b]
  {
  }

  class Game {
    var width: real
    var height: real
    var bird: Bird
    var pipes: seq<Pipe>
    var score: nat
    var bestScore: nat
    var lastPipeTime: real
    var bgOffset: real
    var idleAngle: real
    var state: GameState

    /** The fields as one Session.World value. */
    function Model(): World
      reads this
    {
      World(width, height, bird, pipes, score, bestScore, lastPipeTime, bgOffset, idleAngle, state)
    }

    ghost predicate Valid()
      reads this
    {
      Inv(Model())
    }

    /**
     * Page load: the canvas size, the best score read from storage, the sway
     * phase at zero, then init().
     */
    constructor (width: real, height: real, storedBest: nat)
      ensures Valid()
      ensures Model() == Session.Init(width, height, storedBest, 0.0)
    {
      this.width := width;
      this.height := height;
      bestScore := storedBest;
      idleAngle := 0.0;
      new;
      Init();
    }

    /** init(), also what the restart button does in any state. */
    method Init()
      modifies this
      ensures Valid()
      ensures Model() == Restart(old(Model()))
    {
      bird := Bird(width * BirdStartX, height * BirdStartY, 0.0, 0.0, 0);
      pipes := [];
      score := 0;
      bgOffset := 0.0;
      lastPipeTime := 0.0;
      state := Idle;
    }

    /** jump() */
    method Jump(now: real)
      requires Valid()
      modifies this
      ensures Valid()
      ensures Model() == Session.Jump(old(Model()), now)
    {
      JumpKeepsInv(Model(), now);
      if state == Idle {
        state := Playing;
        bird := bird.(vy := JumpForce);
        lastPipeTime := now;
        return;
      }
      if state == Playing {
        bird := bird.(vy := JumpForce);
        bird := bird.(flapFrame := FlapFrames);
      }
    }

    /** handleInput() and the key handler: ignored when dead, a flap otherwise. */
    method HandleInput(now: real)
      requires Valid()
      modifies this
      ensures Valid()
      ensures Model() == Session.HandleInput(old(Model()), now)
    {
      if state == Dead {
        return;
      }
      Jump(now);
    }

    /** spawnPipe(): one new pipe at the tail, its gap drawn with r in [0, 1). */
    method SpawnPipe(r: real)
      requires 0.0 <= r < 1.0
      modifies this`pipes
      ensures pipes == old(pipes) + [NewPipe(width, height, r)]
    {
      var minY := BandMargin;
      var maxY := height - GroundHeight - PipeGap - BandMargin;
      var topHeight := minY + r * (maxY - minY);
      assert topHeight == TopHeight(height, r);
      pipes := pipes + [Pipe(width + SpawnOverscan, topHeight, false)];
    }

    /** die() */
    method Die()
      modifies this`state, this`bestScore
      ensures Model() == Session.Die(old(Model()))
    {
      state := Dead;
      if score > bestScore {
        bestScore := score;
      }
    }

    /**
     * The pipe loop of update(): from the last pipe down to the first, move
     * it, score it if it is now behind the bird, and splice it out if it is
     * off screen. Walking backwards, a splice never skips a pipe.
     */
    method MovePipes()
      modifies this`pipes, this`score
      ensures pipes == Advance(old(pipes), bird.x)
      ensures score == old(score) + Flips(old(pipes), bird.x)
    {
      ghost var orig := pipes;
      var birdX := bird.x;
      var i := |pipes| - 1;
      while i >= 0
        invariant -1 <= i < |orig|
        invariant pipes == orig[..i + 1] + Advance(orig[i + 1..], birdX)
        invariant score == old(score) + Flips(orig[i + 1..], birdX)
        decreases i
      {
        ghost var before := pipes;
        Turn(orig, i, birdX, pipes);
        pipes := pipes[i := pipes[i].(x := pipes[i].x - PipeSpeed)];
        if !pipes[i].scored && pipes[i].x + PipeWidth < birdX {
          Overwrite(before, i, pipes[i], pipes[i].(scored := true));
          pipes := pipes[i := pipes[i].(scored := true)];
          score := score + 1;
          assert Flipped(orig[i], birdX);
        } else {
          assert !Flipped(orig[i], birdX);
        }
        if pipes[i].x + PipeWidth < OffScreenEdge {
          pipes := pipes[..i] + pipes[i + 1..];
        }
        i := i - 1;
      }
      assert orig[0..] == orig;
    }

    /** The pipe loop of the collision test: the first pipe that hits ends it. */
    method HitsAnyPipe() returns (hit: bool)
      ensures hit <==> AnyPipeHit(bird, pipes)
    {
      var left := bird.x - BirdW / 2.0;
      var top := bird.y - BirdH / 2.0;
      for k := 0 to |pipes|
        invariant forall j :: 0 <= j < k ==> !HitsPipe(bird, pipes[j])
      {
        var p := pipes[k];
        if left + BirdW - HitMargin > p.x && left + HitMargin < p.x + PipeWidth {
          if top + HitMargin < p.topH || top + BirdH - HitMargin > p.topH + PipeGap {
            assert HitsPipe(bird, pipes[k]);
            return true;
          }
        }
      }
      return false;
    }

    /** update(dt, now); dt is unused by the source and left out. */
    method Update(now: real, r: real)
      requires Valid() && 0.0 <= r < 1.0
      modifies this
      ensures Valid()
      ensures Model() == Tick(old(Model()), now, r)
    {
      TickKeepsInv(Model(), now, r);
      if state != Playing {
        return;
      }
      ghost var w0 := Model();
      ApplyPhysics();

      if now - lastPipeTime > SpawnInterval {
        SpawnPipe(r);
        lastPipeTime := now;
      }
      ghost var w2 := Model();
      assert w2 == SpawnPhase(PhysicsPhase(w0), now, r);

      MovePipes();
      assert Model() == PipePhase(w2);

      Collide();
    }

    /**
     * The bird and background part of update(): gravity, the move, the tilt,
     * the flap countdown, then the scroll.
     */
    method ApplyPhysics()
      modifies this`bird, this`bgOffset
      ensures Model() == PhysicsPhase(old(Model()))
    {
      bird := bird.(vy := bird.vy + Gravity);
      bird := bird.(y := bird.y + bird.vy);
      bird := bird.(rotation := Rotation(bird.vy));
      if bird.flapFrame > 0 {
        bird := bird.(flapFrame := bird.flapFrame - 1);
      }
      bgOffset := Scroll(bgOffset);
    }

    /** The collision tests of update(): ground, then ceiling, then the pipes. */
    method Collide()
      modifies this`bird, this`state, this`bestScore
      ensures Model() == CollisionPhase(old(Model()))
    {
      if HitsGround(bird, height) {
        Die();
        return;
      }
      if bird.y - BirdH / 2.0 < 0.0 {
        bird := bird.(y := BirdH / 2.0, vy := 0.0);
      }
      var hit := HitsAnyPipe();
      if hit {
        Die();
        return;
      }
    }

    /** idleAnimation(); sine stands for Math.sin of the advanced phase. */
    method IdleAnimation(sine: real)
      requires Valid() && -1.0 <= sine <= 1.0
      modifies this`idleAngle, this`bird
      ensures Valid()
      ensures Model() == Sway(old(Model()), sine)
    {
      SwayKeepsInv(Model(), sine);
      idleAngle := idleAngle + SwayStep;
      bird := bird.(y := height * BirdStartY + sine * SwayAmplitude);
    }

    /** One call of gameLoop(timestamp), drawing and scheduling left out. */
    method GameLoop(timestamp: real, r: real, sine: real)
      requires Valid() && 0.0 <= r < 1.0 && -1.0 <= sine <= 1.0
      modifies this
      ensures Valid()
      ensures Model() == Frame(old(Model()), timestamp, r, sine)
    {
      if state == Idle {
        IdleAnimation(sine);
      }
      Update(timestamp, r);
    }
  }
}
