# Flappy-bird frame simulation in Dafny

This project models the simulation core of a browser Flappy-Bird clone (`game.js`).

The bird falls under constant gravity, and a flap resets its vertical velocity. Pipes are spawned at the right edge once the spawn interval has passed. On every playing frame they move left, are scored when they pass the bird, and are spliced out once off screen. A frame ends the game when the bird's bottom edge crosses the ground line, or when the bird's box, shrunk by a 4-pixel tolerance, overlaps a pipe and pokes outside its gap. The ceiling only clamps the bird. Dying keeps the larger of the score and the best score. The restart button re-initialises the session in any state.

Layout:

- `physics.dfy`, module `Physics`: the bird record, the constants, the tilt clamp, the gravity integrator (`Fall`, and `FallN` for n frames), the ground test and the ceiling clamp.
- `pipes.dfy`, module `Pipes`: the pipe record, the spawn band (`TopHeight`, `InBand`, `NewPipe`) and one frame of one pipe (`Move`). It also holds one frame of the whole list: `Advance` (survivors), `Flips` (points) and `Kept` (survivor indices). Last come the tolerant box test (`HitsPipe`, `AnyPipeHit`) and their lemmas.
- `session.dfy`, module `Session`: the whole module-level state as one `World` value, and the entry points as functions on it. These are `Init`, `Restart`, `Jump`, `HandleInput`, `Die`, `Tick` (`update`, split into its four phases in source order), `Sway` (`idleAnimation`) and `Frame` (`gameLoop`). It also holds the invariant `Inv`, event runs (`Step`, `Run`) and the lemmas stating what the game promises.
- `game.dfy`, module `FlappyGame`: class `Game`. Its fields are the page's state (`bird`, `pipes`, `score`, `bestScore`, `lastPipeTime`, `bgOffset`, `idleAngle`, `state`, canvas `width` and `height`). Its methods update them in place as the source does, including the backward splice loop over the pipes. The physics and collision parts of `update` are separate methods (`ApplyPhysics`, `Collide`) that `Update` calls in the source's order. The entry points (`Init`, `Jump`, `HandleInput`, `Die`, `Update`, `IdleAnimation`, `GameLoop`) and the `update` parts `ApplyPhysics` and `Collide` are proved to leave `Model()` equal to the matching `Session` function of the old state; the constructor gives `Session.Init`. The entry points other than `Die` also keep `Session.Inv`. `SpawnPipe` is proved to append exactly `Pipes.NewPipe`, `MovePipes` to leave exactly `Pipes.Advance` of the old list and raise the score by `Pipes.Flips`, and the query `HitsAnyPipe` to answer `Pipes.AnyPipeHit`.

Coordinates and times are Dafny `real`s. Scores are `nat`. The random draw in `spawnPipe` is the parameter `r` with `0 <= r < 1`. `Math.sin` of the sway phase is the parameter `sine` in `[-1, 1]`. `performance.now()` and the frame timestamp are the parameters `now` and `timestamp`.

Behaviour of the code worth noting:

- The ground test is strict: `y + h/2 > height - 80` (game.js:134). A bird whose bottom edge lands exactly on the ground line keeps playing; `Session.GroundTestIsStrict` exhibits the boundary case.
- `spawnPipe` does not clamp a degenerate band (game.js:88-90). On a canvas shorter than 390 pixels, `topH` therefore lands in `(height - 310, 80]`.
- The restart button calls `init()` in every state, not only when dead (game.js:352-355).
- Scoring and removal run before the collision tests (game.js:117-164), so the fatal frame keeps its points (`Session.ScoreAndDieInOneFrame`).
- Only `die` updates the best score (game.js:169-170), and `init` does not call `die`. A restart click while playing therefore throws away the running score without recording it, so the best score is the maximum of the scores the game died with (`Session.RunBestIsMaxAtDeaths`), not of every score reached.

## Model

| member | source | states |
|---|---|---|
| `Physics.Rotation` | game.js:104 | The tilt is always in [-30, 70]; it is 3 × vy when that lies in range, and the nearer bound otherwise. |
| `Physics.FallNVelocity` | game.js:101-105 | After n frames without a flap or ceiling contact, vy has grown by exactly n × 0.45 and x has not moved. The flap pose has counted down by n but never below 0, and the tilt is in [-30, 70]. |
| `Physics.FallNHeight` | game.js:101-103 | Because gravity is added before the move, after n such frames y is `FreeFallHeight`: y0 + n·vy0 + 0.45·n(n+1)/2. |
| `Physics.Fall` | game.js:101-105 | No contract of its own; defines one frame of the integrator (gravity added, then the move, the tilt and the flap countdown). Its properties are in `FallNVelocity`, `FallNHeight`, `TickMovesBird` and `FrameFalls`. |
| `Physics.FallN` | game.js:101-105 | No contract of its own; defines n frames of the integrator, the reference that `FramesAreFallN` targets. Its properties are in `FallNVelocity`, `FallNHeight` and `FallNFirst`. |
| `Physics.FallNFirst` | game.js:101-105 | A first frame followed by n more is n + 1 frames of the integrator. |
| `Physics.HitsGround` | game.js:134 | No contract of its own; defines the strict ground test. Its properties are in `TickDiesExactly` and `GroundTestIsStrict`. |
| `Physics.ClampCeiling` | game.js:139-143 | Afterwards the bird's top edge is never above the canvas. When the clamp applies, the top edge sits at 0 and vy is 0; otherwise the bird is untouched. Tilt, x and flap pose are kept. |
| `Pipes.TopHeight` | game.js:87-90 | With r in [0, 1), the gap's top edge lies in [80, height − 310] when that band is non-empty (strictly below its top when it has width), and in (height − 310, 80] when it is not. |
| `Pipes.NewPipe` | game.js:91-95 | A spawned pipe starts at width + 10, unscored, with its gap in the spawn band. |
| `Pipes.Passed` | game.js:121 | No contract of its own; defines "the right edge is strictly left of the bird". Its properties are in `Move` and `PipePhaseKeepsPipes`. |
| `Pipes.OffScreen` | game.js:128 | No contract of its own; defines "the right edge is strictly left of −10". Its properties are in `Advance` and `KeptExactly`. |
| `Pipes.Move` | game.js:118-125 | In one frame a pipe moves left by exactly 2.5 and keeps its gap. A set flag is never cleared, and the flag ends set exactly when it was set or the pipe's right edge is now left of the bird. |
| `Pipes.Advance` | game.js:117-131 | The frame never adds pipes, and every pipe left after it has its right edge at or right of −10. |
| `Pipes.Flips` | game.js:120-125 | The points one frame earns are at most the number of pipes, and are zero exactly when no flag flips from false to true. |
| `Pipes.Kept` | game.js:127-131 | The survivors' original indices are in range and strictly increasing. |
| `Pipes.AdvanceSelects` | game.js:117-131 | The k-th survivor is the pipe at original index `Kept[k]` after its move. Each survivor has therefore moved by exactly the speed, kept its gap and kept a set flag, and the survivors stay in their original relative order. |
| `Pipes.KeptExactly` | game.js:127-131 | A pipe survives exactly when its right edge is at or right of −10 after moving, so the backward splice loop skips none. |
| `Pipes.FlipsCountsFlags` | game.js:120-125 | The points one frame earns equal the size of the set of pipe indices whose flag flips. |
| `Pipes.FlipsSnoc` | game.js:117-125 | Counting flips from the end: the last pipe's flip adds to the flips of the others. |
| `Pipes.Ordered` | game.js:91-131 | No contract of its own; defines screen order (x strictly increasing along the list, every x at most width + 7.5). Its properties are in `SpawnKeepsIncreasing`, `AdvanceKeepsOrder`, `DropsOnlyOldest` and `TickKeepsOrder`. |
| `Pipes.SpawnKeepsIncreasing` | game.js:91-95 | A pipe appended at width + 10 lies right of every pipe already listed, so the list stays strictly increasing, with every x at most width + 10; the move in the same frame restores the width + 7.5 bound (`TickKeepsOrder`). |
| `Pipes.AdvanceKeepsOrder` | game.js:117-131 | One frame keeps the survivors in strictly increasing x and lowers the bound on their x by exactly 2.5. |
| `Pipes.DropsOnlyOldest` | game.js:127-131 | In a list in screen order, if a pipe survives the frame then every later pipe survives too, so pipes are removed only at the head. |
| `Pipes.HitsPipe` | game.js:145-164 | No contract of its own; defines the forgiving box test of one pipe (the bird's box shrunk by 4 on every side). Its properties are in `MarginForgivesGraze` and `ClearColumnsAreSafe`. |
| `Pipes.AnyPipeHit` | game.js:145-164 | No contract of its own; defines "some pipe hits the bird". Its properties are in `Game.HitsAnyPipe` and `TickDiesExactly`. |
| `Pipes.MarginForgivesGraze` | game.js:145-164 | A bird whose box reaches at most 4 pixels into the top or bottom pipe is not hit. |
| `Pipes.ClearColumnsAreSafe` | game.js:158 | A bird whose shrunk box is entirely left or right of a pipe's columns is not hit, whatever its height. |
| `Session.Init` | game.js:53-71 | No contract of its own; defines the session `init` produces. Its properties are in `InitIsFresh`. |
| `Session.Restart` | game.js:352-355 | No contract of its own; defines the restart button as `init` in any state. Its properties are in `Transitions` and `DeadIsFrozen`. |
| `Session.Jump` | game.js:73-85 | No contract of its own; defines `jump` by state. From idle, a flap starts playing with vy = −7.5 and the spawn clock at now, and leaves the flap pose alone. While playing, it sets vy = −7.5 and the flap pose to 6. A dead game is left as it is. Its properties are in `JumpResetsVelocity`, `JumpKeepsInv`, `Transitions` and `Game.Jump`. |
| `Session.HandleInput` | game.js:336-340 | No contract of its own; defines the input handler (dead guard, then `jump`). Its properties are in `DeadIsFrozen` and `DeadRunIsFrozen`. |
| `Session.Die` | game.js:167-172 | Dying sets the state to dead. The best score becomes the larger of the score and the old best, so it never decreases. Nothing else changes. |
| `Session.JsRemainder` | game.js:108 | JavaScript `%` by 24 truncates towards zero. For a non-negative operand the result is in [0, 24); it is the operand itself below 24, and the operand minus 24 below 48. |
| `Session.Scroll` | game.js:108 | From a non-negative offset, the ground scroll stays within [0, 24). |
| `Session.PhysicsPhase` | game.js:101-108 | No contract of its own; defines the bird and scroll part of `update`. Its properties are in `TickMovesBird`. |
| `Session.SpawnPhase` | game.js:110-114 | No contract of its own; defines the spawn test of `update`. Its properties are in `SpawnAppendsOne` and `TickSpawnClock`. |
| `Session.PipePhase` | game.js:116-131 | No contract of its own; defines the pipe loop of `update` as `Advance` and `Flips`. Its properties are in `PipePhaseKeepsPipes` and `TickScores`. |
| `Session.CollisionPhase` | game.js:133-164 | No contract of its own; defines the ground, ceiling and pipe tests of `update`. Its properties are in `TickDiesExactly` and `TickBestScore`. |
| `Session.Tick` | game.js:98-165 | No contract of its own; defines `update` as its four phases in order, nothing unless playing. Its properties are in `TickOnlyWhilePlaying` and the other `Tick…` lemmas. |
| `Session.Sway` | game.js:313-318 | No contract of its own; defines `idleAnimation`. Its properties are in `IdleFrameOnlySways` and `SwayKeepsInv`. |
| `Session.Frame` | game.js:322-333 | No contract of its own; defines one `gameLoop` call (sway when idle, then `update`). Its properties are in `IdleFrameOnlySways` and `StepKeepsInv`. |
| `Session.Step` | game.js:322-355 | No contract of its own; defines the handler wiring: an input goes to `handleInput`, a restart click to `init`, and a display frame to `gameLoop`. Its properties are in `StepKeepsInv`, `Transitions`, `DeadIsFrozen` and `StepBestScore`. |
| `Session.Run` | game.js:322-355 | No contract of its own; defines a finite run of events, one `Step` after another. Its properties are in `RunKeepsBest`, `RunBestIsMaxAtDeaths`, `DeadRunIsFrozen` and `FramesAreFallN`. |
| `Session.InitIsFresh` | game.js:53-71 | `init` gives an idle session with no pipes, score 0, spawn clock 0, scroll 0 and a resting bird. It keeps the best score, and the invariant holds. |
| `Session.TickOnlyWhilePlaying` | game.js:98-99 | `update` changes nothing unless the game is playing; from playing it ends in playing or dead. |
| `Session.JumpResetsVelocity` | game.js:77-82 | A flap is a reset, not an increment: the result does not depend on the velocity before it. |
| `Session.TickMovesBird` | game.js:101-143 | In a playing frame gravity is added before the move. The tilt comes from the velocity before the ceiling clamp and lies in [-30, 70], the flap pose counts down to 0, and x is fixed. Unless the ground ends the game, the top edge ends inside the canvas, with vy = 0 when the clamp applied. |
| `Session.SpawnAppendsOne` | game.js:87-96 | Exactly when more than 1800 has passed (strictly), the spawn step appends one pipe at the tail and restarts the clock at now. The pipe is at width + 10, unscored, with its gap in the band; otherwise nothing changes. |
| `Session.TickSpawnClock` | game.js:110-114 | After a playing frame the spawn clock is now if more than 1800 had passed, else unchanged. |
| `Session.TickScores` | game.js:116-131 | A playing frame raises the score by exactly the number of flags that flip. Pipes removed in the same frame are included. At most one pipe is added. |
| `Session.TickDiesExactly` | game.js:133-164 | A playing frame ends dead exactly when the bird's bottom edge is strictly below the ground line, or when the ceiling-clamped bird hits a surviving pipe. Otherwise it stays playing. |
| `Session.TickBestScore` | game.js:167-172 | After a playing frame the best score is the larger of the old best and the final score if the game died, and unchanged otherwise. |
| `Session.ScoreAndDieInOneFrame` | game.js:116-137 | One frame can both score a pipe and end on the ground, and that point counts in the best score. |
| `Session.GroundTestIsStrict` | game.js:134 | A bird whose bottom edge lands exactly on the ground line keeps playing. |
| `Session.IdleFrameOnlySways` | game.js:313-330 | An idle frame advances the sway phase and sets y within 12 of 40% of the height, and changes nothing else. |
| `Session.DeadIsFrozen` | game.js:336-355 | In a dead game frames and flaps change nothing; only the restart button changes it, leading to idle. |
| `Session.Transitions` | game.js:53-176 | Idle goes to playing only by a flap and never to dead. Playing goes to dead only by a frame, and to idle only by the restart button, which always resets the score and pipes. |
| `Session.PipePhaseKeepsPipes` | game.js:117-131 | Suppose every pipe scored before the frame was already behind the bird and every gap was in the band. Then after the frame every pipe is on screen, scored exactly when behind the bird, and has its gap in the band. |
| `Session.TickKeepsOrder` | game.js:87-131 | A frame keeps the list in screen order, oldest first, with every x at most width + 7.5. |
| `Session.TickKeepsInv` | game.js:98-165 | A frame keeps the invariant. The scroll stays in [0, 24), the bird's x stays at a quarter of the width, and the flap pose stays at most 6. Idle means no pipes and no points, and a dead game's best score covers its score. Every pipe is on screen, scored exactly when behind the bird, with its gap in the band, and the list is in screen order, oldest first. |
| `Session.JumpKeepsInv` | game.js:73-85 | A flap keeps the invariant. |
| `Session.SwayKeepsInv` | game.js:315-318 | The idle sway keeps the invariant. |
| `Session.StepKeepsInv` | game.js:322-355 | Every input, restart click and frame keeps the invariant. |
| `Session.RunKeepsBest` | game.js:167-172 | Over any sequence of flaps, restarts and frames, the best score never decreases and the invariant holds throughout. |
| `Session.StepBestScore` | game.js:167-172 | One event raises the best score to the score the game died with, if that event killed the game and the score was higher; otherwise the best score stays. |
| `Session.RunBestIsMaxAtDeaths` | game.js:167-172 | Over any run the final best score is the larger of the starting best and the highest score the game died with during the run. |
| `Session.DeadRunIsFrozen` | game.js:336-340 | A dead game is unchanged by any run of flaps and frames without a restart click. |
| `Session.FrameFalls` | game.js:101-143 | A playing frame that does not kill the bird and has no ceiling contact moves the bird by exactly one step of `Fall`. |
| `Session.FramesAreFallN` | game.js:101-143 | n frames of a playing game that is still playing afterwards, with no flap and no ceiling contact, leave the bird at `FallN` of its start. |
| `Session.FramesFall` | game.js:101-143 | Over such n frames x is fixed, vy grows by n × 0.45 and y follows `FreeFallHeight`. |
| `FlappyGame.Game.constructor` | game.js:44-71 | Page load gives the fresh session for the canvas size and the stored best score, with the sway phase at 0. |
| `FlappyGame.Game.Init` | game.js:53-71 | In place, the fields become the restarted session, whatever the state was, and the invariant holds. |
| `FlappyGame.Game.Jump` | game.js:73-85 | In place, the fields become `Session.Jump` of the old state, keeping the invariant. |
| `FlappyGame.Game.HandleInput` | game.js:336-340 | In place, a dead game is left unchanged; otherwise the method acts as `jump`. |
| `FlappyGame.Game.SpawnPipe` | game.js:87-96 | The pipe list becomes the old list plus exactly one new pipe at the tail. |
| `FlappyGame.Game.Die` | game.js:167-176 | In place, the state becomes dead and the best score the larger of the two; nothing else changes. |
| `FlappyGame.Game.MovePipes` | game.js:116-131 | The backward loop with in-place splices leaves exactly `Advance` of the old list. The score rises by exactly `Flips` of the old list. |
| `FlappyGame.Game.HitsAnyPipe` | game.js:145-164 | The forward scan with early exit answers true exactly when some pipe hits the bird. |
| `FlappyGame.Game.ApplyPhysics` | game.js:102-108 | In place, only the bird and the background offset change, to `Session.PhysicsPhase` of the old state. |
| `FlappyGame.Game.Collide` | game.js:133-164 | In place, the ground, ceiling and pipe tests leave `Session.CollisionPhase` of the old state; only the bird, the state and the best score change. |
| `FlappyGame.Game.Update` | game.js:98-165 | In place, the fields become `Session.Tick` of the old state, keeping the invariant. |
| `FlappyGame.Game.IdleAnimation` | game.js:313-318 | In place, only the sway phase and the bird's y change, and the invariant holds. |
| `FlappyGame.Game.GameLoop` | game.js:322-333 | One frame sways the bird when idle and then runs `update` in every state, keeping the invariant. |

## Left out

- Rendering (`drawBackground`, `drawGround`, `drawPipe`, `drawBird`, `draw`, game.js:178-311): canvas presentation with no effect on the state.
- DOM updates (score counter, start and game-over screens, game.js:67-69, 76, 124, 173-175), `preventDefault`/`stopPropagation`, and the event-listener wiring (game.js:342-359). These are presentation and platform plumbing. The handlers are modelled as `HandleInput` and as `Init` for the restart button.
- The Farcaster SDK call (game.js:1-4): a foreign call with no effect on the game.
- `resize` (game.js:46-51): the canvas size is fixed for a model run. A resize in the middle of a run is not modelled.
- The localStorage read and write (game.js:44, 171): I/O. The stored best is a constructor argument (a `nat`). A stored value that `parseInt` turns into `NaN` is therefore not modelled.
- `Math.random` and `Math.sin`: replaced by the parameters `r` (in [0, 1)) and `sine` (in [-1, 1]). The model does not tie `sine` to the sine of `idleAngle`.
- The `requestAnimationFrame` loop (game.js:322-333): the model covers one frame (`GameLoop`) and finite event runs (`Session.Run`), not the unbounded loop. `lastTime` and `dt` are computed but never used, so they are dropped.
- IEEE-754 rounding: reals stand in for JavaScript numbers, so results like 0.1 + 0.2 are exact in the model.
