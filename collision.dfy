/**
 * collide_player_with_pipes of flap.c: the first pipe, in index order,
 * whose columns hold the bird's column decides the frame. If the bird is
 * not in that pipe's gap it dies; otherwise it scores, once per pipe.
 */
module Collision {
  import opened Wrappers
  import opened Physics
  import opened Pipes

  /** The bird's column lies in [x, x + PIPE_WIDTH) of the pipe. */
  predicate Straddles(p: Pipe, px: real) {
    px >= p.x && px < p.x + PIPE_WIDTH as real
  }

  /** The bird's row is on the lower pipe (>= y) or on the upper one (<= y - PIPE_GAP + 1). */
  predicate HitsBody(p: Pipe, py: real) {
    py >= p.y as real || py <= (p.y - PIPE_GAP + 1) as real
  }

  /** The first index from `from` on whose pipe the bird's column lies in, if any. */
  function FirstStraddle(s: seq<Pipe>, px: real, from: nat): (r: Option<nat>)
    requires from <= |s|
    ensures r.Some? ==> from <= r.value < |s| && Straddles(s[r.value], px)
    ensures r.Some? ==> forall j :: from <= j < r.value ==> !Straddles(s[j], px)
    ensures r.None? ==> forall j :: from <= j < |s| ==> !Straddles(s[j], px)
    decreases |s| - from
  {
    if from == |s| then None
    else if Straddles(s[from], px) then Some(from)
    else FirstStraddle(s, px, from + 1)
  }

  /** The bird passes through the gap of pipe k for the first time: the score goes up. */
  predicate ScoresOn(p: Player, s: seq<Pipe>, k: nat)
    requires k < |s|
  {
    FirstStraddle(s, p.x, 0) == Some(k) && !HitsBody(s[k], p.y) && !s[k].scored
  }

  /**
   * collide_player_with_pipes as a function of the bird, the pool and the
   * score. It never reads the dead flag, and it moves nothing.
   */
  function CollideStep(p: Player, s: seq<Pipe>, score: int): (r: (Player, seq<Pipe>, int))
    ensures |r.1| == |s|
    ensures r.0 == p.(dead := r.0.dead)
    ensures r.0.dead <==> p.dead || (exists k :: 0 <= k < |s| && FirstStraddle(s, p.x, 0) == Some(k) && HitsBody(s[k], p.y))
    ensures forall j :: 0 <= j < |s| ==> r.1[j] == s[j].(scored := r.1[j].scored)
    ensures forall j :: 0 <= j < |s| ==> (r.1[j] != s[j] <==> ScoresOn(p, s, j))
    ensures r.2 == score || r.2 == score + 1
    ensures r.2 == score + 1 <==> exists k :: 0 <= k < |s| && ScoresOn(p, s, k)
  {
    match FirstStraddle(s, p.x, 0)
    case None => (p, s, score)
    case Some(k) =>
      if HitsBody(s[k], p.y) then (p.(dead := true), s, score)
      else if !s[k].scored then (p, s[k := s[k].(scored := true)], score + 1)
      else (p, s, score)
  }

  /**
   * collide_player_with_pipes on the array: the scan stops at the first
   * pipe whose columns hold the bird. The bird and the score are passed by
   * pointer; their new values are returned.
   */
  method Collide(player: Player, pipes: array<Pipe>, score: int) returns (player': Player, score': int)
    modifies pipes
    ensures (player', pipes[..], score') == CollideStep(player, old(pipes[..]), score)
  {
    player', score' := player, score;
    var i := 0;
    while i < pipes.Length
      invariant 0 <= i <= pipes.Length
      invariant pipes[..] == old(pipes[..])
      invariant forall j :: 0 <= j < i ==> !Straddles(pipes[j], player.x)
    {
      if player.x >= pipes[i].x && player.x < pipes[i].x + PIPE_WIDTH as real {
        assert FirstStraddle(pipes[..], player.x, 0) == Some(i);
        if player.y >= pipes[i].y as real || player.y <= (pipes[i].y - PIPE_GAP + 1) as real {
          player' := player'.(dead := true);
        } else if !pipes[i].scored {
          pipes[i] := pipes[i].(scored := true);
          score' := score' + 1;
        }
        return;
      }
      i := i + 1;
    }
  }

  /** Collision results do not depend on whether the bird was already dead. */
  lemma CollideIgnoresDead(p: Player, s: seq<Pipe>, score: int)
    ensures CollideStep(p.(dead := true), s, score).1 == CollideStep(p.(dead := false), s, score).1
    ensures CollideStep(p.(dead := true), s, score).2 == CollideStep(p.(dead := false), s, score).2
  {
  }

  /** Only the x of the pipes matters to the scan. */
  lemma {:induction false} FirstStraddleSeesOnlyX(s: seq<Pipe>, t: seq<Pipe>, px: real, from: nat)
    requires |s| == |t| && from <= |s|
    requires forall j :: 0 <= j < |s| ==> s[j].x == t[j].x
    ensures FirstStraddle(s, px, from) == FirstStraddle(t, px, from)
    decreases |s| - from
  {
    if from < |s| {
      FirstStraddleSeesOnlyX(s, t, px, from + 1);
    }
  }

  /**
   * A pipe is scored at most once while it stays in place: colliding again
   * with the state a collision left changes neither the pool nor the score.
   */
  lemma CollideTwiceScoresOnce(p: Player, s: seq<Pipe>, score: int)
    ensures var r := CollideStep(p, s, score);
            CollideStep(r.0, r.1, r.2).1 == r.1 && CollideStep(r.0, r.1, r.2).2 == r.2
  {
    var r := CollideStep(p, s, score);
    FirstStraddleSeesOnlyX(s, r.1, p.x, 0);
  }

  /**
   * In a spaced pool the bird's column lies in at most one pipe, so the
   * first match is the only match and the index order does not matter.
   */
  lemma SpacedStraddlesOne(s: seq<Pipe>, px: real, k: nat)
    requires Spaced(s) && k < |s|
    ensures FirstStraddle(s, px, 0) == Some(k) <==> Straddles(s[k], px)
  {
  }
}
