/** The input state machine of main.py: reset_game (lines 39-45) and handle_input
    (lines 47-59), as functions on the game's fields. */
module Input {
  import opened Config

  /** The events the game tells apart: the window's close request, a key press with its key
      code, and any other event. */
  datatype Event = Quit | KeyDown(key: int) | OtherEvent

  predicate IsSpace(e: Event)
  {
    e.KeyDown? && e.key == K_SPACE
  }

  /** The fields as reset_game leaves them, where now is the clock reading it takes. */
  function Initial(now: int): World
  {
    World(Start, START_Y, 0.0, 0, [], now)
  }

  /** The effect of one event other than Quit. */
  function Press(w: World, e: Event, now: int): World
  {
    if !IsSpace(e) then w
    else
      match w.phase
      case Start => w.(phase := Playing)
      case Playing => w.(birdVelocity := JUMP_SPEED)
      case GameOver => Initial(now)
  }

  /** The fields after handle_input has taken the events, and whether the game keeps running. */
  function Dispatch(w: World, events: seq<Event>, now: int): (World, bool)
    decreases |events|
  {
    if events == [] then (w, true)
    else if events[0] == Quit then (w, false)
    else Dispatch(Press(w, events[0], now), events[1..], now)
  }

  /** The reset state: START, the bird at SCREEN_HEIGHT // 2 and at rest, no score, no pipes,
      and the spawn timer restarted at now. */
  lemma InitialIsReset(now: int)
    ensures Initial(now).phase == Start && Initial(now).birdY == 256.0
    ensures Initial(now).birdVelocity == 0.0 && Initial(now).score == 0
    ensures Initial(now).pipes == [] && Initial(now).lastPipeTime == now
    ensures WellFormed(Initial(now))
  {
  }

  /** Space in START starts the game and changes nothing else. */
  lemma SpaceInStart(w: World, now: int)
    requires w.phase == Start
    ensures Dispatch(w, [KeyDown(K_SPACE)], now) == (w.(phase := Playing), true)
  {
  }

  /** Space in PLAYING sets the velocity to JUMP_SPEED whatever it was (a flap overrides the
      fall speed rather than adding to it) and changes nothing else. */
  lemma SpaceWhilePlaying(w: World, now: int)
    requires w.phase == Playing
    ensures Dispatch(w, [KeyDown(K_SPACE)], now) == (w.(birdVelocity := -5.0), true)
  {
  }

  /** Space in GAME_OVER resets the game. */
  lemma SpaceInGameOver(w: World, now: int)
    requires w.phase == GameOver
    ensures Dispatch(w, [KeyDown(K_SPACE)], now) == (World(Start, 256.0, 0.0, 0, [], now), true)
  {
  }

  /** handle_input reports that the game keeps running exactly when no Quit was seen. */
  lemma {:induction false} RunningIffNoQuit(w: World, events: seq<Event>, now: int)
    ensures Dispatch(w, events, now).1 <==> Quit !in events
    decreases |events|
  {
    if events != [] && events[0] != Quit {
      RunningIffNoQuit(Press(w, events[0], now), events[1..], now);
    }
  }

  /** Events after the first Quit are never applied: the state is what the events before it
      produce. */
  lemma {:induction false} QuitDropsRest(w: World, pre: seq<Event>, post: seq<Event>, now: int)
    requires Quit !in pre
    ensures Dispatch(w, pre + [Quit] + post, now) == (Dispatch(w, pre, now).0, false)
    decreases |pre|
  {
    if pre == [] {
      assert (pre + [Quit] + post)[0] == Quit;
    } else {
      assert (pre + [Quit] + post)[1..] == pre[1..] + [Quit] + post;
      QuitDropsRest(Press(w, pre[0], now), pre[1..], post, now);
    }
  }

  /** Events that are neither Quit nor a Space key press change nothing. */
  lemma {:induction false} OthersChangeNothing(w: World, events: seq<Event>, now: int)
    requires forall i :: 0 <= i < |events| ==> events[i] != Quit && !IsSpace(events[i])
    ensures Dispatch(w, events, now) == (w, true)
  {
    if events != [] {
      OthersChangeNothing(w, events[1..], now);
    }
  }

  /** handle_input keeps the pipe invariant. */
  lemma {:induction false} DispatchKeepsWellFormed(w: World, events: seq<Event>, now: int)
    requires WellFormed(w)
    ensures WellFormed(Dispatch(w, events, now).0)
    decreases |events|
  {
    if events != [] && events[0] != Quit {
      DispatchKeepsWellFormed(Press(w, events[0], now), events[1..], now);
    }
  }
}
