/** The FlappyBird class of main.py with its game fields, reset_game, handle_input and update.
    Each method is proved to leave the fields as the matching function of Input or Physics
    says, and to keep the pipe invariant WellFormed. */
module Game {
  import opened Config
  import opened Collision
  import opened Pipes
  import opened Input
  import opened Physics

  class FlappyBird {
    var gameState: Phase
    var birdY: real
    var birdVelocity: real
    var score: nat
    var pipes: seq<Pipe>
    var lastPipeTime: int

    /** The game fields as one value. */
    function State(): World
      reads this
    {
      World(gameState, birdY, birdVelocity, score, pipes, lastPipeTime)
    }

    predicate Valid()
      reads this
    {
      WellFormed(State())
    }

    /** The game part of __init__: it calls reset_game. */
    constructor (now: int)
      ensures State() == Initial(now) && Valid()
    {
      gameState, birdY, birdVelocity, score, pipes, lastPipeTime := Start, START_Y, 0.0, 0, [], now;
    }

    /** reset_game, where now is the value of pygame.time.get_ticks(). */
    method ResetGame(now: int)
      modifies this
      ensures State() == Initial(now) && Valid()
    {
      gameState := Start;
      birdY := START_Y;
      birdVelocity := 0.0;
      score := 0;
      pipes := [];
      lastPipeTime := now;
    }

    /** handle_input over the events that pygame.event.get() returned. */
    method HandleInput(events: seq<Event>, now: int) returns (running: bool)
      requires Valid()
      modifies this
      ensures (State(), running) == Dispatch(old(State()), events, now)
      ensures Valid()
    {
      var i := 0;
      while i < |events|
        invariant 0 <= i <= |events|
        invariant Dispatch(old(State()), events, now) == Dispatch(State(), events[i..], now)
        invariant Valid()
      {
        var event := events[i];
        if event == Quit {
          return false;
        }
        if event.KeyDown? {
          if event.key == K_SPACE {
            if gameState == Start {
              gameState := Playing;
            } else if gameState == Playing {
              birdVelocity := JUMP_SPEED;
            } else if gameState == GameOver {
              ResetGame(now);
            }
          }
        }
        assert events[i..][1..] == events[i + 1..];
        i := i + 1;
      }
      return true;
    }

    /** update, where now is the value of pygame.time.get_ticks(), pipeY the value of
        random.randint and sp the sprite sizes. */
    method Update(now: int, pipeY: int, sp: Sprites)
      requires Valid() && PIPE_Y_MIN <= pipeY <= PIPE_Y_MAX
      modifies this
      ensures State() == Tick(old(State()), now, pipeY, sp)
      ensures Valid()
    {
      if gameState == Playing {
        birdVelocity := birdVelocity + GRAVITY;
        birdY := birdY + birdVelocity;

        var floor := (SCREEN_HEIGHT - GROUND_HEIGHT - sp.birdH) as real;
        if birdY > floor || birdY < 0.0 {
          if birdY > floor {
            birdY := floor;
          }
          if birdY < 0.0 {
            birdY := 0.0;
          }
          birdVelocity := 0.0;
          gameState := GameOver;
        }

        var currentTime := now;
        if currentTime - lastPipeTime > PIPE_SPAWN_TIME {
          AppendKeepsOrder(pipes, Pipe(SCREEN_WIDTH, pipeY, false));
          pipes := pipes + [Pipe(SCREEN_WIDTH, pipeY, false)];
          lastPipeTime := currentTime;
        }

        assert pipes == Spawned(old(State()), now, pipeY);
        MovePipes(sp);
      }
      TickKeepsWellFormed(old(State()), now, pipeY, sp);
    }
    /** The pipe loop of update (main.py:84-102): it runs over a copy of the pipe list and, for
        each pipe of the copy, runs the loop body VisitPipe on the live list. */
    method MovePipes(sp: Sprites)
      requires Ascending(pipes)
      modifies this
      ensures pipes == Advance(old(pipes), sp)
      ensures score == old(score) + Gain(old(pipes), sp)
      ensures gameState == if Hit(old(pipes), birdY, sp) then GameOver else old(gameState)
      ensures birdY == old(birdY) && birdVelocity == old(birdVelocity)
      ensures lastPipeTime == old(lastPipeTime)
    {
      var snap := pipes[..];
      // kept holds the pipes already visited and not removed; k is its length, which is the
      // position of the pipe being visited in the live list
      var i, k := 0, 0;
      ghost var kept: seq<Pipe> := [];
      while i < |snap|
        invariant 0 <= i <= |snap|
        invariant kept == Advance(snap[..i], sp) && k == |kept|
        invariant pipes == kept + snap[i..]
        invariant score == old(score) + Gain(snap[..i], sp)
        invariant gameState == if Hit(snap[..i], birdY, sp) then GameOver else old(gameState)
        invariant birdY == old(birdY) && birdVelocity == old(birdVelocity)
        invariant lastPipeTime == old(lastPipeTime)
      {
        PrefixStep(snap, i, birdY, sp);
        AscendingBefore(snap, i);
        AdvanceBelow(snap[..i], sp, snap[i].x);
        var survives := VisitPipe(snap, i, k, kept, sp);
        if survives {
          kept := kept + [Step(snap[i], sp)];
          k := k + 1;
        }
        i := i + 1;
      }
      assert snap[..i] == snap;
    }

    /** The body of the pipe loop for the pipe at index i of the copy snap, which sits at
        position k of the live list, after the pipes kept so far. It reports whether the pipe
        stays in the list. */
    method VisitPipe(snap: seq<Pipe>, i: nat, k: nat, ghost kept: seq<Pipe>, sp: Sprites)
      returns (survives: bool)
      requires i < |snap| && k == |kept| && pipes == kept + snap[i..]
      requires forall j :: 0 <= j < |kept| ==> kept[j].x < snap[i].x - PIPE_SPEED
      modifies this
      ensures survives == Survives(snap[i], sp)
      ensures pipes == (if survives then kept + [Step(snap[i], sp)] else kept) + snap[i + 1..]
      ensures score == old(score) + (if Passes(Moved(snap[i]), sp) then 1 else 0)
      ensures gameState == if Collides(birdY, Moved(snap[i]), sp) then GameOver else old(gameState)
      ensures birdY == old(birdY) && birdVelocity == old(birdVelocity)
      ensures lastPipeTime == old(lastPipeTime)
    {
      var pipe := snap[i];
      pipe := pipe.(x := pipe.x - PIPE_SPEED);
      UpdateFirst(kept, snap, i, pipe);
      pipes := pipes[k := pipe];

      if Collides(birdY, pipe, sp) {
        gameState := GameOver;
      }

      if !pipe.scored && pipe.x + sp.pipeW < BIRD_X {
        score := score + 1;
        UpdateAfter(kept, pipe, pipe.(scored := true), snap[i + 1..]);
        pipe := pipe.(scored := true);
        pipes := pipes[k := pipe];
      }

      if pipe.x < -sp.pipeW {
        RemoveFirstAfter(kept, pipe, snap[i + 1..]);
        pipes := RemoveFirst(pipes, pipe);
        survives := false;
      } else {
        survives := true;
      }
    }
  }
}
