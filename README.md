# Flappy Bird game logic in Dafny

A model of the game logic of the `FlappyBird` class in `main.py`, a small pygame Flappy Bird clone.
The model covers the six game fields (`game_state`, `bird_y`, `bird_velocity`, `score`, `pipes`,
`last_pipe_time`) and three operations:

- `reset_game`, which reinitialises all six fields;
- `handle_input`, a three-state machine (START, PLAYING, GAME_OVER) driven by a batch of events.
  A QUIT stops the game; a Space key press moves the machine along;
- `update`, one physics tick. Gravity and integration are applied, the bird is clamped to the
  floor and ceiling (which ends the game), a pipe spawns on a timer, and every pipe is moved.
  Each pipe is then collision-tested against the bird, scored at most once and pruned off screen.

Layout, one module per concern:

- `config.dfy` (`Config`): the constants of `main.py`, the `Phase`, `Pipe`, `Sprites` and
  `World` datatypes, and the state invariant `WellFormed`. Pipes are in strictly increasing x
  order, have all moved since they spawned, and have heights `random.randint` can return.
- `collision.dfy` (`Collision`): rectangles, strict overlap, the bird and pipe rectangles, and
  the gap geometry.
- `pipes.dfy` (`Pipes`): one pass of the pipe loop as functions. `Advance` gives the list after
  the pass, `Gain` the points, `Hit` the collision flag. `RemoveFirst` models Python's
  `list.remove`. Alongside them, reference characterisations and their lemmas.
- `input.dfy` (`Input`): `Initial` (what `reset_game` sets), `Press` (one event), `Dispatch`
  (a batch of events), and lemmas.
- `physics.dfy` (`Physics`): `Tick`, one `update` as a function of the state before it, with
  lemmas.
- `game.dfy` (`Game`): the class `FlappyBird`. Its fields are the six game fields. The methods
  `ResetGame`, `HandleInput` and `Update` work step by step, as the source does, with loops over
  the events and over a copy of the pipe list. Each is proved to leave the fields exactly as
  `Initial`, `Dispatch` or `Tick` says, and to keep `Valid()`. `MovePipes` and `VisitPipe` are
  the pipe loop of `update` and its body. They are meant to be called only from `Update` and
  its loop, and they do not promise `Valid()` on their own.

Foreign inputs are parameters:

- `now` stands for `pygame.time.get_ticks()`. It is also passed to `HandleInput`, because
  `handle_input` can call `reset_game`, which reads the clock.
- `pipeY` stands for `random.randint(150, 350)`.
- `Sprites(birdW, birdH, pipeW)` stands for the sprite sizes.
- The event list stands for `pygame.event.get()`.

Positions and velocities are `real`. The arithmetic of the source is exact in binary floating
point (steps of 0.25, integers otherwise), so no rounding is involved.

Pipe dictionaries are values of type `Pipe` in a `seq` field. The source mutates each dict in
place through the alias in its copied list. The model writes the changed record back at the
pipe's position in the live list (`VisitPipe`'s `k`). Python's `list.remove(pipe)` removes the
first pipe that is EQUAL to the current one, not the current object itself. The model removes
exactly that (`RemoveFirst`) and proves, from the invariant that pipe x values strictly increase,
that this is the current pipe (`RemoveFirstAfter`, `AdvanceBelow`).

Points of the code that the model keeps as written:

- The gap is the band `[y - PIPE_GAP, y]` below the top pipe, not a band centred on `y`
  (main.py:89-90).
- A clamp that ends the game does not stop the tick. Pipes still spawn, move, collide, score and
  are pruned in the same call, because the state is tested only once, at main.py:62.
- A pipe is pruned only when its x is below minus the pipe's width (main.py:101), not as soon as
  x becomes negative (`Physics.PruneWaitsForFullWidth`).
- If the bird sprite were taller than 400, the floor would be above the ceiling. Both clamping
  assignments then run, and the bird ends at 0. `Physics.BirdMotion` states the upper bound only
  when the floor is at or below the ceiling.

## Model

| member | source | states |
|---|---|---|
| `Game.FlappyBird.constructor` | main.py:22 | the game fields of a new object are those `reset_game` sets, and the pipe invariant holds |
| `Game.FlappyBird.ResetGame` | main.py:39-45 | all six fields are reassigned: START, bird at 256 and at rest, score 0, no pipes, spawn timer at `now` |
| `Game.FlappyBird.HandleInput` | main.py:47-59 | the loop over the events leaves the fields, and returns the running flag, exactly as `Dispatch` says; keeps the pipe invariant |
| `Game.FlappyBird.Update` | main.py:61-81 | gravity, integration, clamp and spawn, followed by the pipe loop, leave the fields exactly as `Tick` says; keeps the pipe invariant |
| `Game.FlappyBird.MovePipes` | main.py:84-102 | the loop over a copy of the pipe list leaves `pipes = Advance`, `score` raised by `Gain`, GAME_OVER exactly when `Hit`, other fields unchanged |
| `Game.FlappyBird.VisitPipe` | main.py:85-102 | one pipe is moved, marked scored when it passes the bird, tested for collision, and removed from the live list when off screen; the others are unchanged |
| `Input.InitialIsReset` | main.py:39-45 | the reset state: START, `bird_y = 256`, velocity 0, score 0, no pipes, `last_pipe_time = now`, and it satisfies the pipe invariant |
| `Input.SpaceInStart` | main.py:52-54 | Space in START gives PLAYING and changes nothing else |
| `Input.SpaceWhilePlaying` | main.py:55-56 | Space in PLAYING sets the velocity to exactly -5 whatever it was (override, not additive) and changes nothing else |
| `Input.SpaceInGameOver` | main.py:57-58 | Space in GAME_OVER resets to START, bird at 256 and at rest, score 0, no pipes, timer at `now` |
| `Input.RunningIffNoQuit` | main.py:48-59 | `handle_input` returns false if and only if the events contain a QUIT |
| `Input.QuitDropsRest` | main.py:48-50 | no event after the first QUIT is applied: the state is that of the events before it |
| `Input.OthersChangeNothing` | main.py:51-52 | events that are neither QUIT nor a Space key press change nothing and keep the game running |
| `Input.DispatchKeepsWellFormed` | main.py:47-59 | handling a batch of events keeps the pipe invariant |
| `Physics.IdleUnlessPlaying` | main.py:62 | `update` changes nothing outside PLAYING |
| `Physics.BirdMotion` | main.py:64-74 | in PLAYING the bird ends with `0 <= bird_y`, and `bird_y <= 512 - 112 - birdH` when that floor is not above the ceiling. A bird below the floor is set exactly to the floor, one above the ceiling exactly to 0. After a clamp the velocity is 0 and the game is over. Without one, the velocity gains 0.25 and the height gains the new velocity |
| `Physics.SpawnRule` | main.py:77-81 | a pipe `(288, pipeY, unscored)` is appended, and the timer set to `now`, exactly when `now - last_pipe_time > 1000`; otherwise both are unchanged. After such a tick the list ends with the unscored pipe `(285, pipeY)` |
| `Physics.PhaseAfterTick` | main.py:68-93 | after a playing tick the game is over exactly when the bird was clamped or some moved pipe's rectangle overlaps the bird's rectangle; otherwise it is still PLAYING |
| `Physics.ScoreAfterTick` | main.py:96-98 | the score never decreases; it rises by exactly the number of unscored pipes whose moved `x + pipeW < 50` |
| `Physics.PipesAfterTick` | main.py:84-102 | every pipe present at the start of the loop is moved left by exactly 3 with its `y` kept; it is removed exactly when its new `x < -pipeW`; the survivors keep their order |
| `Physics.TickKeepsWellFormed` | main.py:76-102 | a tick keeps the pipe invariant (strict x order, x at most 285, y in [150, 350]) when `pipeY` is in randint's range |
| `Physics.OneGravityStep` | main.py:64-65 | a bird at rest at height 100 has velocity 0.25 and height 100.25 after one tick |
| `Physics.PruneWaitsForFullWidth` | main.py:101-102 | a pipe at x = 0 is still present, at x = -3, after the next tick when the pipe is at least 3 wide |
| `Pipes.AdvanceSurvivors` | main.py:84-102 | the j-th remaining pipe is the moved pipe at the j-th surviving index; surviving indices strictly increase and are exactly those whose moved `x >= -pipeW` |
| `Pipes.StepEffect` | main.py:85-98 | one visit decreases x by exactly 3, keeps y, and leaves the pipe scored exactly when it was scored already or its moved right edge is left of x = 50 |
| `Pipes.GainCounts` | main.py:96-98 | the points of a pass equal the number of pipes that were unscored and whose moved right edge is left of the bird |
| `Pipes.PassedAreScored` | main.py:96-98 | after a pass every remaining pipe whose right edge is left of the bird is scored, so it never adds a point again |
| `Pipes.HitIff` | main.py:88-93 | the pass reports a collision exactly when some moved pipe collides with the bird |
| `Pipes.RemoveFirstAfter` | main.py:101-102 | `list.remove` of a pipe that does not occur earlier in the list removes exactly that pipe |
| `Pipes.AdvanceKeepsOrder` | main.py:84-102 | a pass keeps the pipes in strictly increasing x order, lowers the bound on every x by 3 and keeps every y within [150, 350] |
| `Pipes.AppendKeepsOrder` | main.py:80 | appending a pipe right of all others keeps the list in increasing x order |
| `Collision.GapIsSafe` | main.py:88-93 | a bird vertically inside the band `[y - 100, y]` never collides with that pipe |
| `Collision.CollidesIff` | main.py:88-93 | for a bird between ceiling and ground, it collides with a pipe exactly when it is in the pipe's column and not inside the gap |

## Left out

- Asset loading, drawing (including the score digits), the display and caption setup in
  `__init__`, and the 60 Hz loop in `run`: these are pygame I/O and frame pacing with no game
  logic.
- `pygame.time.get_ticks()`, `random.randint` and the sprites' `get_width()`/`get_height()` are
  not called: their results are the parameters `now`, `pipeY` and `sp`. `Update` requires
  `150 <= pipeY <= 350`, the range `random.randint(PIPE_GAP + 50, SCREEN_HEIGHT - GROUND_HEIGHT - 50)`
  returns.
- `pygame.Rect.colliderect` is replaced by a strict-overlap predicate on real coordinates.
  Pygame truncates the float `bird_y` to an integer when it builds the bird's rectangle, and it
  treats rectangles of zero width or height as never colliding. Neither is modelled; every
  rectangle here has positive size when the sprite sizes are positive and `pipeY` is in range.
- Python floats are modelled as exact reals. This agrees with the source because every value
  it produces is a multiple of 0.25 of modest size.
- Pipe dicts shared between `self.pipes` and its copy are modelled as values written back at
  their position in the live list. No other alias to them exists in `main.py`.
- `Game.FlappyBird.Update` and `Game.FlappyBird.HandleInput` require `Valid()`, the class
  invariant. It is established by the constructor and kept by every method.
