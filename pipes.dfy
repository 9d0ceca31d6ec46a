/** One pass of the pipe loop of main.py:84-102, as functions on the list of pipes that
    `update` copies before the loop: every pipe is moved, tested for collision, scored at most
    once and pruned when it has left the screen. */
module Pipes {
  import opened Config
  import opened Collision

  /** The pipe moved left by PIPE_SPEED. */
  function Moved(p: Pipe): Pipe
  {
    p.(x := p.x - PIPE_SPEED)
  }

  /** The scoring test, on a pipe that has already moved: not yet scored, and its right edge is
      left of the bird. */
  predicate Passes(q: Pipe, sp: Sprites)
  {
    !q.scored && q.x + sp.pipeW < BIRD_X
  }

  /** A pipe after the loop body: moved, and marked scored if it passes. */
  function Step(p: Pipe, sp: Sprites): Pipe
  {
    var q := Moved(p);
    if Passes(q, sp) then q.(scored := true) else q
  }

  /** A pipe is kept unless its moved left edge is further left than minus its width. */
  predicate Survives(p: Pipe, sp: Sprites)
  {
    Moved(p).x >= -sp.pipeW
  }

  /** The pipes that remain after the loop has visited every pipe of s, in order. */
  function Advance(s: seq<Pipe>, sp: Sprites): seq<Pipe>
    decreases |s|
  {
    if s == [] then []
    else
      var p := s[|s| - 1];
      Advance(s[..|s| - 1], sp) + (if Survives(p, sp) then [Step(p, sp)] else [])
  }

  /** The points the loop adds to the score while visiting s. */
  function Gain(s: seq<Pipe>, sp: Sprites): nat
    decreases |s|
  {
    if s == [] then 0
    else Gain(s[..|s| - 1], sp) + (if Passes(Moved(s[|s| - 1]), sp) then 1 else 0)
  }

  /** Whether the loop, visiting s, finds a collision with the bird at height birdY. */
  predicate Hit(s: seq<Pipe>, birdY: real, sp: Sprites)
    decreases |s|
  {
    s != [] && (Hit(s[..|s| - 1], birdY, sp) || Collides(birdY, Moved(s[|s| - 1]), sp))
  }

  /** The indices of s whose pipes survive, listed in increasing order. */
  function Survivors(s: seq<Pipe>, sp: Sprites): seq<nat>
    decreases |s|
  {
    if s == [] then []
    else Survivors(s[..|s| - 1], sp) + (if Survives(s[|s| - 1], sp) then [|s| - 1] else [])
  }

  /** The indices of s whose pipes add a point. */
  function PassingSet(s: seq<Pipe>, sp: Sprites): set<nat>
  {
    set i: nat | i < |s| && Passes(Moved(s[i]), sp)
  }

  /** Python's list.remove(v): drop the first element equal to v. */
  function RemoveFirst(s: seq<Pipe>, v: Pipe): seq<Pipe>
    decreases |s|
  {
    if s == [] then []
    else if s[0] == v then s[1..]
    else [s[0]] + RemoveFirst(s[1..], v)
  }

  /** The survivors of a pass, in their original order: the j-th remaining pipe is the
      Survivors(s)[j]-th pipe of s, moved left by exactly PIPE_SPEED, with the same y; the
      Survivors indices increase strictly and are exactly the pipes whose moved x is not
      below -pipeW. */
  lemma {:induction false} AdvanceSurvivors(s: seq<Pipe>, sp: Sprites)
    ensures |Advance(s, sp)| == |Survivors(s, sp)|
    ensures forall j :: 0 <= j < |Survivors(s, sp)| ==>
      Survivors(s, sp)[j] < |s| && Advance(s, sp)[j] == Step(s[Survivors(s, sp)[j]], sp)
    ensures forall j1, j2 :: 0 <= j1 < j2 < |Survivors(s, sp)| ==>
      Survivors(s, sp)[j1] < Survivors(s, sp)[j2]
    ensures forall i :: 0 <= i < |s| ==> (i in Survivors(s, sp) <==> Survives(s[i], sp))
  {
    if s != [] {
      var t := s[..|s| - 1];
      AdvanceSurvivors(t, sp);
      assert forall i :: 0 <= i < |t| ==> s[i] == t[i];
    }
  }

  /** Every moved pipe: x decreased by exactly PIPE_SPEED, y unchanged, and scored afterwards
      exactly when it was scored before or passes now. */
  lemma StepEffect(p: Pipe, sp: Sprites)
    ensures Step(p, sp).x == p.x - PIPE_SPEED && Step(p, sp).y == p.y
    ensures Step(p, sp).scored <==> p.scored || p.x - PIPE_SPEED + sp.pipeW < BIRD_X
  {
  }

  /** The score rises by exactly the number of pipes that were not yet scored and whose moved
      right edge is left of the bird. */
  lemma {:induction false} GainCounts(s: seq<Pipe>, sp: Sprites)
    ensures Gain(s, sp) == |PassingSet(s, sp)|
  {
    if s != [] {
      var n := |s| - 1;
      var t := s[..n];
      GainCounts(t, sp);
      assert forall i :: 0 <= i < n ==> s[i] == t[i];
      if Passes(Moved(s[n]), sp) {
        assert PassingSet(s, sp) == PassingSet(t, sp) + {n};
      } else {
        assert PassingSet(s, sp) == PassingSet(t, sp);
      }
    }
  }

  /** After a pass, every pipe whose right edge is left of the bird is marked scored, so it
      cannot add a point in a later pass (its x only decreases). */
  lemma PassedAreScored(s: seq<Pipe>, sp: Sprites)
    ensures forall q :: q in Advance(s, sp) && q.x + sp.pipeW < BIRD_X ==> q.scored
  {
  }

  /** The loop reports a collision exactly when some moved pipe collides with the bird. */
  lemma {:induction false} HitIff(s: seq<Pipe>, birdY: real, sp: Sprites)
    ensures Hit(s, birdY, sp) <==> exists i :: 0 <= i < |s| && Collides(birdY, Moved(s[i]), sp)
  {
    if s != [] {
      var n := |s| - 1;
      var t := s[..n];
      HitIff(t, birdY, sp);
      assert forall i :: 0 <= i < n ==> s[i] == t[i];
      if Hit(s, birdY, sp) && !Collides(birdY, Moved(s[n]), sp) {
        var i :| 0 <= i < n && Collides(birdY, Moved(t[i]), sp);
        assert Collides(birdY, Moved(s[i]), sp);
      }
    }
  }

  /** When the pipe being removed does not occur earlier in the list, list.remove drops
      exactly that pipe. */
  lemma {:induction false} RemoveFirstAfter(pre: seq<Pipe>, v: Pipe, post: seq<Pipe>)
    requires v !in pre
    ensures RemoveFirst(pre + [v] + post, v) == pre + post
  {
    if pre == [] {
      assert pre + [v] + post == [v] + post;
    } else {
      assert (pre + [v] + post)[1..] == pre[1..] + [v] + post;
      RemoveFirstAfter(pre[1..], v, post);
      assert [pre[0]] + (pre[1..] + post) == pre + post;
    }
  }

  /** Visiting one more pipe of s: how Advance, Gain and Hit on the prefix s[..i + 1] follow
      from the prefix s[..i]. */
  lemma PrefixStep(s: seq<Pipe>, i: nat, birdY: real, sp: Sprites)
    requires i < |s|
    ensures Advance(s[..i + 1], sp) ==
      Advance(s[..i], sp) + (if Survives(s[i], sp) then [Step(s[i], sp)] else [])
    ensures Gain(s[..i + 1], sp) == Gain(s[..i], sp) + (if Passes(Moved(s[i]), sp) then 1 else 0)
    ensures Hit(s[..i + 1], birdY, sp) <==> Hit(s[..i], birdY, sp) || Collides(birdY, Moved(s[i]), sp)
  {
    assert s[..i + 1][..i] == s[..i];
  }

  /** Rewriting the first element of the unvisited part s[i..] of the live list. */
  lemma UpdateFirst(pre: seq<Pipe>, s: seq<Pipe>, i: nat, v: Pipe)
    requires i < |s|
    ensures (pre + s[i..])[|pre| := v] == pre + [v] + s[i + 1..]
  {
  }

  /** Rewriting the element just after pre. */
  lemma UpdateAfter(pre: seq<Pipe>, u: Pipe, v: Pipe, post: seq<Pipe>)
    ensures (pre + [u] + post)[|pre| := v] == pre + [v] + post
  {
  }

  /** In an ascending list, every pipe before position i is left of the pipe at i. */
  lemma AscendingBefore(s: seq<Pipe>, i: nat)
    requires Ascending(s) && i < |s|
    ensures forall j :: 0 <= j < |s[..i]| ==> s[..i][j].x < s[i].x
  {
    forall j | 0 <= j < i
      ensures s[j].x < s[i].x
    {
      assert Before(s, j, i);
    }
  }

  /** Pipes left of a bound b stay left of b - PIPE_SPEED after a pass. */
  lemma {:induction false} AdvanceBelow(s: seq<Pipe>, sp: Sprites, b: int)
    requires forall i :: 0 <= i < |s| ==> s[i].x < b
    ensures forall j :: 0 <= j < |Advance(s, sp)| ==> Advance(s, sp)[j].x < b - PIPE_SPEED
  {
    if s != [] {
      AdvanceBelow(s[..|s| - 1], sp, b);
    }
  }

  /** A pass keeps the pipes in strictly increasing x order, lowers a bound on every x by
      PIPE_SPEED and keeps every y within [PIPE_Y_MIN, PIPE_Y_MAX]. */
  lemma AdvanceKeepsOrder(s: seq<Pipe>, sp: Sprites, top: int)
    requires Ascending(s)
    requires forall i :: 0 <= i < |s| ==>
      s[i].x <= top && PIPE_Y_MIN <= s[i].y <= PIPE_Y_MAX
    ensures Ascending(Advance(s, sp))
    ensures forall i :: 0 <= i < |Advance(s, sp)| ==>
      Advance(s, sp)[i].x <= top - PIPE_SPEED &&
      PIPE_Y_MIN <= Advance(s, sp)[i].y <= PIPE_Y_MAX
  {
    AdvanceSurvivors(s, sp);
    var r, idx := Advance(s, sp), Survivors(s, sp);
    forall i: nat, j: nat | i < j < |r|
      ensures Before(r, i, j)
    {
      assert Before(s, idx[i], idx[j]);
    }
  }

  /** Appending a pipe right of all others keeps the list ascending. */
  lemma AppendKeepsOrder(s: seq<Pipe>, p: Pipe)
    requires Ascending(s)
    requires forall i :: 0 <= i < |s| ==> s[i].x < p.x
    ensures Ascending(s + [p])
  {
    var r := s + [p];
    forall i: nat, j: nat | i < j < |r|
      ensures Before(r, i, j)
    {
      if j < |s| {
        assert Before(s, i, j);
      }
    }
  }
}
