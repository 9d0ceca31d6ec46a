/** Constants and value types shared by the whole model of the game in main.py. */
module Config {

  // The module-level constants of main.py (lines 7-14).
  const SCREEN_WIDTH: int := 288
  const SCREEN_HEIGHT: int := 512
  const GROUND_HEIGHT: int := 112
  const GRAVITY: real := 0.25
  const JUMP_SPEED: real := -5.0
  const PIPE_SPEED: int := 3
  const PIPE_SPAWN_TIME: int := 1000  // milliseconds
  const PIPE_GAP: int := 100

  /** The bird's fixed horizontal position, written as the literal 50 in the source. */
  const BIRD_X: int := 50
  /** Initial height of the bird: SCREEN_HEIGHT // 2. */
  const START_Y: real := (SCREEN_HEIGHT / 2) as real
  /** Inclusive bounds of the random height drawn for a new pipe. */
  const PIPE_Y_MIN: int := PIPE_GAP + 50
  const PIPE_Y_MAX: int := SCREEN_HEIGHT - GROUND_HEIGHT - 50
  /** The key code of the space bar (pygame.K_SPACE). */
  const K_SPACE: int := 32

  /** The three values of the game_state string. */
  datatype Phase = Start | Playing | GameOver

  /** A pipe record: its left edge, the top of its lower half, and whether it has been scored.
      A pipe without a "scored" key in the source is a pipe with scored == false here. */
  datatype Pipe = Pipe(x: int, y: int, scored: bool)

  /** Sizes of the bird and pipe sprites, which the source reads from the loaded images. */
  datatype Sprites = Sprites(birdW: int, birdH: int, pipeW: int)
  {
    predicate Positive() { birdW > 0 && birdH > 0 && pipeW > 0 }
  }

  /** The six game fields of a FlappyBird object, as one value. */
  datatype World = World(phase: Phase, birdY: real, birdVelocity: real, score: nat,
                         pipes: seq<Pipe>, lastPipeTime: int)

  /** The pipe at index i of s is left of the pipe at index j. */
  predicate Before(s: seq<Pipe>, i: nat, j: nat)
    requires i < |s| && j < |s|
  {
    s[i].x < s[j].x
  }

  /** Pipes are kept in spawn order, which is strictly increasing left-edge order. */
  predicate Ascending(s: seq<Pipe>)
  {
    forall i: nat, j: nat :: i < j < |s| ==> Before(s, i, j)
  }

  /** What every reachable state satisfies: pipes in strictly increasing x order, each already
      moved at least once since it was spawned at SCREEN_WIDTH, and each at a height that the
      random draw can produce. */
  predicate WellFormed(w: World)
  {
    Ascending(w.pipes) &&
    forall i :: 0 <= i < |w.pipes| ==>
      w.pipes[i].x <= SCREEN_WIDTH - PIPE_SPEED && PIPE_Y_MIN <= w.pipes[i].y <= PIPE_Y_MAX
  }
}
