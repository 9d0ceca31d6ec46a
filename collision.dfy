/** The bird/pipe collision test of main.py:88-93, with axis-aligned rectangles. */
module Collision {
  import opened Config

  /** A rectangle given by its left edge, top edge, width and height (screen y grows downwards). */
  datatype Rect = Rect(left: real, top: real, width: real, height: real)

  /** Strict overlap: rectangles that only share an edge do not collide. */
  predicate Overlaps(a: Rect, b: Rect)
  {
    a.left < b.left + b.width && b.left < a.left + a.width &&
    a.top < b.top + b.height && b.top < a.top + a.height
  }

  function BirdRect(birdY: real, sp: Sprites): Rect
  {
    Rect(BIRD_X as real, birdY, sp.birdW as real, sp.birdH as real)
  }

  /** The upper pipe: from the top of the screen down to PIPE_GAP above the pipe's y. */
  function TopPipeRect(p: Pipe, sp: Sprites): Rect
  {
    Rect(p.x as real, 0.0, sp.pipeW as real, (p.y - PIPE_GAP) as real)
  }

  /** The lower pipe: from the pipe's y down, one screen height tall. */
  function BottomPipeRect(p: Pipe, sp: Sprites): Rect
  {
    Rect(p.x as real, p.y as real, sp.pipeW as real, SCREEN_HEIGHT as real)
  }

  predicate Collides(birdY: real, p: Pipe, sp: Sprites)
  {
    Overlaps(BirdRect(birdY, sp), TopPipeRect(p, sp)) ||
    Overlaps(BirdRect(birdY, sp), BottomPipeRect(p, sp))
  }

  /** The bird's column and the pipe's column overlap. */
  predicate InColumn(p: Pipe, sp: Sprites)
  {
    p.x < BIRD_X + sp.birdW && BIRD_X < p.x + sp.pipeW
  }

  /** The bird lies vertically inside the gap [p.y - PIPE_GAP, p.y]. */
  predicate InGap(birdY: real, p: Pipe, sp: Sprites)
  {
    (p.y - PIPE_GAP) as real <= birdY && birdY + sp.birdH as real <= p.y as real
  }

  /** A bird inside the gap never collides with that pipe, wherever the pipe is horizontally. */
  lemma GapIsSafe(birdY: real, p: Pipe, sp: Sprites)
    requires InGap(birdY, p, sp)
    ensures !Collides(birdY, p, sp)
  {
  }

  /** For a bird between the ceiling and the ground, a pipe is hit exactly when the bird is in
      the pipe's column and not inside its gap. */
  lemma CollidesIff(birdY: real, p: Pipe, sp: Sprites)
    requires sp.Positive() && 0 <= p.y
    requires 0.0 <= birdY && birdY + sp.birdH as real <= (SCREEN_HEIGHT - GROUND_HEIGHT) as real
    ensures Collides(birdY, p, sp) <==> InColumn(p, sp) && !InGap(birdY, p, sp)
  {
  }
}
