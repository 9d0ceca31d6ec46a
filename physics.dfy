/** One call of update (main.py:61-102) as a function of the fields before it, the clock
    reading, the random pipe height and the sprite sizes. */
module Physics {
  import opened Config
  import opened Collision
  import opened Pipes

  /** The lowest position of the bird's top edge: SCREEN_HEIGHT - GROUND_HEIGHT - bird height. */
  function Floor(sp: Sprites): real
  {
    (SCREEN_HEIGHT - GROUND_HEIGHT - sp.birdH) as real
  }

  /** The bird has gone below the floor or above the ceiling. */
  predicate OutOfBounds(y: real, sp: Sprites)
  {
    y > Floor(sp) || y < 0.0
  }

  /** The two clamping steps, in the source's order: first to the floor, then to 0. */
  function Clamp(y: real, sp: Sprites): real
  {
    var y1 := if y > Floor(sp) then Floor(sp) else y;
    if y1 < 0.0 then 0.0 else y1
  }

  /** More than PIPE_SPAWN_TIME milliseconds have passed since the last pipe. */
  predicate Spawns(w: World, now: int)
  {
    now - w.lastPipeTime > PIPE_SPAWN_TIME
  }

  /** The pipe list that the loop copies: the old pipes and perhaps a new one at the right edge. */
  function Spawned(w: World, now: int, pipeY: int): seq<Pipe>
  {
    if Spawns(w, now) then w.pipes + [Pipe(SCREEN_WIDTH, pipeY, false)] else w.pipes
  }

  /** Velocity and height after gravity, integration and the clamp. */
  function FallVelocity(w: World, sp: Sprites): real
  {
    var v := w.birdVelocity + GRAVITY;
    if OutOfBounds(w.birdY + v, sp) then 0.0 else v
  }

  function FallY(w: World, sp: Sprites): real
  {
    var y := w.birdY + w.birdVelocity + GRAVITY;
    if OutOfBounds(y, sp) then Clamp(y, sp) else y
  }

  /** One update. A clamp sets GAME_OVER but the rest of the tick still runs: pipes still
      spawn, move, collide, score and are pruned. */
  function Tick(w: World, now: int, pipeY: int, sp: Sprites): World
  {
    if w.phase != Playing then w
    else
      var y := FallY(w, sp);
      var s := Spawned(w, now, pipeY);
      var clamped := OutOfBounds(w.birdY + w.birdVelocity + GRAVITY, sp);
      World(if clamped || Hit(s, y, sp) then GameOver else Playing,
            y, FallVelocity(w, sp), w.score + Gain(s, sp), Advance(s, sp),
            if Spawns(w, now) then now else w.lastPipeTime)
  }

  /** update does nothing outside PLAYING. */
  lemma IdleUnlessPlaying(w: World, now: int, pipeY: int, sp: Sprites)
    requires w.phase != Playing
    ensures Tick(w, now, pipeY, sp) == w
  {
  }

  /** While playing, the bird ends the tick at or below the ceiling and, when the floor is on
      screen, at or above it. A bird that went below the floor is put exactly on it, one that went
      above the ceiling exactly at 0. Without a clamp the velocity gains GRAVITY and the height
      gains the new velocity; with a clamp the velocity is 0 and the game is over. */
  lemma BirdMotion(w: World, now: int, pipeY: int, sp: Sprites)
    requires w.phase == Playing
    ensures var r := Tick(w, now, pipeY, sp);
      var y := w.birdY + w.birdVelocity + GRAVITY;
      0.0 <= r.birdY && (Floor(sp) >= 0.0 ==> r.birdY <= Floor(sp)) &&
      (y > Floor(sp) && Floor(sp) >= 0.0 ==> r.birdY == Floor(sp)) &&
      (y < 0.0 ==> r.birdY == 0.0) &&
      (OutOfBounds(w.birdY + w.birdVelocity + GRAVITY, sp) ==>
         r.birdVelocity == 0.0 && r.phase == GameOver) &&
      (!OutOfBounds(w.birdY + w.birdVelocity + GRAVITY, sp) ==>
         r.birdVelocity == w.birdVelocity + 0.25 && r.birdY == w.birdY + r.birdVelocity)
  {
  }

  /** A pipe at the right edge with the drawn height is added, and the spawn timer restarted,
      exactly when more than PIPE_SPAWN_TIME has passed. The new pipe is moved in the same tick,
      so the list then ends with an unscored pipe at 285. */
  lemma SpawnRule(w: World, now: int, pipeY: int, sp: Sprites)
    requires w.phase == Playing
    ensures Spawned(w, now, pipeY) ==
      if now - w.lastPipeTime > 1000 then w.pipes + [Pipe(288, pipeY, false)] else w.pipes
    ensures Tick(w, now, pipeY, sp).lastPipeTime ==
      if now - w.lastPipeTime > 1000 then now else w.lastPipeTime
    ensures var r := Tick(w, now, pipeY, sp);
      now - w.lastPipeTime > 1000 && sp.pipeW > 0 ==>
        |r.pipes| > 0 && r.pipes[|r.pipes| - 1] == Pipe(285, pipeY, false)
  {
  }

  /** The game is over after a playing tick exactly when the bird was clamped or some moved
      pipe collides with the clamped bird; otherwise it is still playing. */
  lemma PhaseAfterTick(w: World, now: int, pipeY: int, sp: Sprites)
    requires w.phase == Playing
    ensures var r := Tick(w, now, pipeY, sp);
      var s := Spawned(w, now, pipeY);
      (r.phase == GameOver <==>
         OutOfBounds(w.birdY + w.birdVelocity + GRAVITY, sp) ||
         exists i :: 0 <= i < |s| && Collides(r.birdY, Moved(s[i]), sp)) &&
      (r.phase != GameOver ==> r.phase == Playing)
  {
    HitIff(Spawned(w, now, pipeY), FallY(w, sp), sp);
  }

  /** The score never decreases; it rises by exactly the number of pipes of the copied list
      that were unscored and whose moved right edge is left of the bird. */
  lemma ScoreAfterTick(w: World, now: int, pipeY: int, sp: Sprites)
    requires w.phase == Playing
    ensures Tick(w, now, pipeY, sp).score == w.score + |PassingSet(Spawned(w, now, pipeY), sp)|
    ensures Tick(w, now, pipeY, sp).score >= w.score
  {
    GainCounts(Spawned(w, now, pipeY), sp);
  }

  /** The pipes after a playing tick are the survivors of the copied list, in order, each moved
      left by PIPE_SPEED with its y kept; a pipe is removed exactly when its moved x < -pipeW. */
  lemma PipesAfterTick(w: World, now: int, pipeY: int, sp: Sprites)
    requires w.phase == Playing
    ensures var r := Tick(w, now, pipeY, sp);
      var s := Spawned(w, now, pipeY);
      var idx := Survivors(s, sp);
      |r.pipes| == |idx| &&
      (forall j :: 0 <= j < |idx| ==>
         idx[j] < |s| && r.pipes[j].x == s[idx[j]].x - 3 && r.pipes[j].y == s[idx[j]].y) &&
      (forall j1, j2 :: 0 <= j1 < j2 < |idx| ==> idx[j1] < idx[j2]) &&
      (forall i :: 0 <= i < |s| ==> (i in idx <==> s[i].x - 3 >= -sp.pipeW))
  {
    AdvanceSurvivors(Spawned(w, now, pipeY), sp);
  }

  /** A tick keeps the pipe invariant when the drawn height is one random.randint can return. */
  lemma TickKeepsWellFormed(w: World, now: int, pipeY: int, sp: Sprites)
    requires WellFormed(w) && PIPE_Y_MIN <= pipeY <= PIPE_Y_MAX
    ensures WellFormed(Tick(w, now, pipeY, sp))
  {
    if w.phase == Playing {
      var s := Spawned(w, now, pipeY);
      if Spawns(w, now) {
        AppendKeepsOrder(w.pipes, Pipe(SCREEN_WIDTH, pipeY, false));
      }
      AdvanceKeepsOrder(s, sp, SCREEN_WIDTH);
    }
  }

  /** A bird at rest at height 100, with no pipes and the timer just restarted, gains one
      gravity step of velocity and of height in one tick. */
  lemma OneGravityStep(now: int, pipeY: int, sp: Sprites)
    requires 0 <= sp.birdH <= 299
    ensures var r := Tick(World(Playing, 100.0, 0.0, 0, [], now), now, pipeY, sp);
      r.birdVelocity == 0.25 && r.birdY == 100.25 && r.phase == Playing && r.pipes == []
  {
  }

  /** Removal waits until the whole pipe has left the screen: a pipe whose left edge is at 0
      is kept, at -3, by the next tick unless it is narrower than PIPE_SPEED. */
  lemma PruneWaitsForFullWidth(p: Pipe, sp: Sprites)
    requires p.x == 0 && sp.pipeW >= PIPE_SPEED
    ensures Survives(p, sp) && Step(p, sp).x == -3
  {
  }
}
