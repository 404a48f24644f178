/**
 * The pipe pool of flap.c: PIPE_COUNT pipes in a fixed array, scrolled left
 * every frame by update_pipes and recycled in place once they leave the
 * screen, plus update_pipe_speed, the scroll speed ramp.
 *
 * rand() is not modelled: each recycle consumes the next value of a stream
 * `rand` of its results (non-negative, as rand() returns).
 */
module Pipes {
  import opened Screen

  const PIPE_GAP: int := 8
  const PIPE_SPACING: int := 30
  const PIPE_START_SPEED: real := 15.0
  const PIPE_ACCELERATION: real := 0.5
  const PIPE_MAX_SPEED: real := 35.0
  const PIPE_WIDTH: int := 5
  const PIPE_COUNT: int := 8
  const PIPE_SPREAD: int := 8

  /** How far right of the rightmost pipe a recycled pipe is placed. */
  const PITCH: real := (PIPE_WIDTH + PIPE_SPACING) as real

  /**
   * The Pipe struct: x is the left column, lx the x drawn last frame, y the
   * row of the lower pipe's top (the gap is the PIPE_GAP - 2 rows above it),
   * scored whether the bird has been credited for this pipe.
   */
  datatype Pipe = Pipe(x: real, lx: real, y: int, scored: bool)

  /**
   * The scan of update_pipes for the rightmost pipe, over the first n
   * pipes: (nx, ny) start at (0, 0) and take the x and y of every pipe
   * whose x is strictly larger.
   */
  function Rightmost(s: seq<Pipe>, n: nat): (r: (real, int))
    requires n <= |s|
    ensures r.0 >= 0.0
    decreases n
  {
    if n == 0 then (0.0, 0)
    else
      var m := Rightmost(s, n - 1);
      if s[n - 1].x > m.0 then (s[n - 1].x, s[n - 1].y) else m
  }

  /**
   * What the scan finds: an x no smaller than any of the first n pipes',
   * and, when it is above 0, the x and y of the first pipe that has it;
   * (0, 0) when no x is above 0.
   */
  lemma {:induction false} RightmostIsFirstMax(s: seq<Pipe>, n: nat)
    requires n <= |s|
    ensures forall j :: 0 <= j < n ==> s[j].x <= Rightmost(s, n).0
    ensures Rightmost(s, n).0 == 0.0 ==> Rightmost(s, n).1 == 0
    ensures Rightmost(s, n).0 > 0.0 ==>
              exists j :: 0 <= j < n && s[j].x == Rightmost(s, n).0 && s[j].y == Rightmost(s, n).1 &&
                          forall k :: 0 <= k < j ==> s[k].x < Rightmost(s, n).0
    decreases n
  {
    if n > 0 {
      RightmostIsFirstMax(s, n - 1);
    }
  }

  /** The random offset rand() % (2 * PIPE_SPREAD) - PIPE_SPREAD. */
  function Offset(roll: nat): (o: int)
    ensures -PIPE_SPREAD <= o < PIPE_SPREAD
  {
    roll % (2 * PIPE_SPREAD) - PIPE_SPREAD
  }

  function Clamp(v: int, lo: int, hi: int): int
    requires lo <= hi
  {
    if v < lo then lo else if v > hi then hi else v
  }

  predicate GapInRange(y: int) {
    PIPE_GAP + 1 <= y <= FLOOR_Y - 1
  }

  /**
   * The gap row of a recycled pipe: the previous row plus the offset, moved
   * down to FLOOR_Y - 1 when it reaches the floor and up to PIPE_GAP + 1
   * when it reaches PIPE_GAP.
   */
  function GapRow(prev: int, roll: nat): (g: int)
    ensures GapInRange(g)
    ensures g == Clamp(prev + Offset(roll), PIPE_GAP + 1, FLOOR_Y - 1)
  {
    var ny := prev + Offset(roll);
    var ny1 := if ny >= FLOOR_Y then FLOOR_Y - 1 else ny;
    if ny1 <= PIPE_GAP then PIPE_GAP + 1 else ny1
  }

  /** A pipe after the scroll of one frame. */
  function Moved(p: Pipe, speed: real, dt: real): Pipe {
    p.(lx := p.x, x := p.x - speed * dt)
  }

  /** Whether a pipe is still on the pool's live side after the scroll, i.e. is not recycled. */
  predicate Survives(p: Pipe, speed: real, dt: real) {
    !(p.x - speed * dt < -PIPE_WIDTH as real)
  }

  /**
   * The fresh pipe that replaces a recycled one, given the pool at that
   * moment: x = lx = nx + PIPE_WIDTH + PIPE_SPACING, where nx is the largest
   * x above 0 (or 0), scored cleared, and the gap row of that rightmost pipe
   * moved by the random offset and clamped into [PIPE_GAP + 1, FLOOR_Y - 1].
   */
  function Recycled(pool: seq<Pipe>, roll: nat): (p: Pipe)
    ensures p.x == p.lx && p.x >= PITCH
    ensures GapInRange(p.y) && !p.scored
  {
    var m := Rightmost(pool, |pool|);
    Pipe(m.0 + PITCH, m.0 + PITCH, GapRow(m.1, roll), false)
  }

  /** One iteration of the loop of update_pipes, on slot i. */
  function SlotStep(s: seq<Pipe>, i: nat, speed: real, dt: real, rand: seq<nat>): (r: (seq<Pipe>, seq<nat>))
    requires i < |s| && |rand| >= 1
    ensures |r.0| == |s| && r.0 == s[i := r.0[i]]
    ensures r.1 == rand || r.1 == rand[1..]
  {
    var t := s[i := Moved(s[i], speed, dt)];
    if t[i].x < -PIPE_WIDTH as real then (t[i := Recycled(t, rand[0])], rand[1..])
    else (t, rand)
  }

  /** The pool and the unused rand() values after the first n iterations of update_pipes. */
  function PipesUpTo(s: seq<Pipe>, n: nat, speed: real, dt: real, rand: seq<nat>): (r: (seq<Pipe>, seq<nat>))
    requires n <= |s| && n <= |rand|
    ensures |r.0| == |s|
    ensures forall j :: n <= j < |s| ==> r.0[j] == s[j]
    ensures |rand| - n <= |r.1| <= |rand|
    decreases n
  {
    if n == 0 then (s, rand)
    else
      var r := PipesUpTo(s, n - 1, speed, dt, rand);
      SlotStep(r.0, n - 1, speed, dt, r.1)
  }

  /** update_pipes: every slot in index order. */
  function PipesStep(s: seq<Pipe>, speed: real, dt: real, rand: seq<nat>): (r: (seq<Pipe>, seq<nat>))
    requires |s| <= |rand|
    ensures |r.0| == |s| && |rand| - |s| <= |r.1| <= |rand|
  {
    PipesUpTo(s, |s|, speed, dt, rand)
  }

  /**
   * The inner loop of update_pipes: the x and y of the first pipe with the
   * largest x, if that x is above 0, and (0, 0) otherwise.
   */
  method ScanRightmost(pipes: array<Pipe>) returns (nx: real, ny: int)
    ensures (nx, ny) == Rightmost(pipes[..], pipes.Length)
  {
    nx, ny := 0.0, 0;
    var j := 0;
    while j < pipes.Length
      invariant 0 <= j <= pipes.Length
      invariant (nx, ny) == Rightmost(pipes[..], j)
    {
      if pipes[j].x > nx {
        nx := pipes[j].x;
        ny := pipes[j].y;
      }
      j := j + 1;
    }
  }

  /**
   * The body of the recycling branch of update_pipes: slot i is placed
   * PIPE_WIDTH + PIPE_SPACING right of the rightmost pipe, with a new gap
   * row drawn from the roll, lx = x and scored cleared.
   */
  method RecycleSlot(pipes: array<Pipe>, i: nat, roll: nat)
    requires i < pipes.Length
    modifies pipes
    ensures pipes[..] == old(pipes[..])[i := Recycled(old(pipes[..]), roll)]
  {
    var nx, ny := ScanRightmost(pipes);
    nx := nx + PITCH;
    ny := ny + roll % (2 * PIPE_SPREAD) - PIPE_SPREAD;
    if ny >= FLOOR_Y {
      ny := FLOOR_Y - 1;
    }
    if ny <= PIPE_GAP {
      ny := PIPE_GAP + 1;
    }
    pipes[i] := pipes[i].(x := nx, y := ny);
    pipes[i] := pipes[i].(lx := pipes[i].x, scored := false);
  }

  /**
   * The body of the loop of update_pipes, on slot i: lx takes x, x moves
   * left by speed * dt and, once past -PIPE_WIDTH, the slot is recycled with
   * the next rand() result. Returns the results it did not use.
   */
  method StepSlot(pipes: array<Pipe>, i: nat, speed: real, dt: real, rand: seq<nat>) returns (rest: seq<nat>)
    requires i < pipes.Length && |rand| >= 1
    modifies pipes
    ensures (pipes[..], rest) == SlotStep(old(pipes[..]), i, speed, dt, rand)
  {
    pipes[i] := pipes[i].(lx := pipes[i].x);
    pipes[i] := pipes[i].(x := pipes[i].x - speed * dt);
    assert pipes[..] == old(pipes[..])[i := Moved(old(pipes[i]), speed, dt)];
    rest := rand;
    if pipes[i].x < -PIPE_WIDTH as real {
      RecycleSlot(pipes, i, rand[0]);
      rest := rand[1..];
    }
  }

  /**
   * update_pipes on the array itself: each slot is scrolled and, once past
   * -PIPE_WIDTH, overwritten in place after a scan of the whole array (so
   * the slots already updated in this pass take part in later scans).
   * Returns the rand() values it did not use.
   */
  method UpdatePipes(pipes: array<Pipe>, speed: real, dt: real, rand: seq<nat>) returns (rest: seq<nat>)
    requires pipes.Length == PIPE_COUNT && |rand| >= PIPE_COUNT
    modifies pipes
    ensures (pipes[..], rest) == PipesStep(old(pipes[..]), speed, dt, rand)
  {
    rest := rand;
    var i := 0;
    while i < PIPE_COUNT
      invariant 0 <= i <= PIPE_COUNT
      invariant pipes[..] == PipesUpTo(old(pipes[..]), i, speed, dt, rand).0
      invariant rest == PipesUpTo(old(pipes[..]), i, speed, dt, rand).1
    {
      StepUnfolds(old(pipes[..]), i, speed, dt, rand);
      rest := StepSlot(pipes, i, speed, dt, rest);
      i := i + 1;
    }
  }

  /** Later iterations of the loop leave an already updated slot alone. */
  lemma {:induction false} LaterStepsKeepSlot(s: seq<Pipe>, i: nat, n: nat, speed: real, dt: real, rand: seq<nat>)
    requires i < n <= |s| && n <= |rand|
    ensures PipesUpTo(s, n, speed, dt, rand).0[i] == PipesUpTo(s, i + 1, speed, dt, rand).0[i]
    decreases n
  {
    if n > i + 1 {
      LaterStepsKeepSlot(s, i, n - 1, speed, dt, rand);
      StepKeepsOthers(s, i, n, speed, dt, rand);
    }
  }

  /** The last of n iterations changes slot n - 1 only. */
  lemma StepKeepsOthers(s: seq<Pipe>, i: nat, n: nat, speed: real, dt: real, rand: seq<nat>)
    requires i + 1 < n <= |s| && n <= |rand|
    ensures PipesUpTo(s, n, speed, dt, rand).0[i] == PipesUpTo(s, n - 1, speed, dt, rand).0[i]
  {
    var r := PipesUpTo(s, n - 1, speed, dt, rand);
    var q := SlotStep(r.0, n - 1, speed, dt, r.1);
    assert PipesUpTo(s, n, speed, dt, rand) == q;
    assert q.0[i] == r.0[i];
  }

  /**
   * A pipe that is not recycled ends the pass with lx = its old x, x moved
   * left by speed * dt, and its gap row and scored flag unchanged.
   */
  lemma SurvivorOutcome(s: seq<Pipe>, i: nat, speed: real, dt: real, rand: seq<nat>)
    requires i < |s| <= |rand|
    requires Survives(s[i], speed, dt)
    ensures PipesStep(s, speed, dt, rand).0[i] ==
              Pipe(s[i].x - speed * dt, s[i].x, s[i].y, s[i].scored)
  {
    LaterStepsKeepSlot(s, i, |s|, speed, dt, rand);
  }

  /**
   * A pipe that scrolls past -PIPE_WIDTH ends the pass as the Recycled pipe
   * of the pool as it is at that moment of the pass (earlier slots already
   * updated, this one scrolled, later ones not yet) and of the next unused
   * rand() result.
   */
  lemma RecycledOutcome(s: seq<Pipe>, i: nat, speed: real, dt: real, rand: seq<nat>)
    requires i < |s| <= |rand|
    requires !Survives(s[i], speed, dt)
    ensures |PipesUpTo(s, i, speed, dt, rand).1| >= 1
    ensures PipesStep(s, speed, dt, rand).0[i] ==
              Recycled(PipesUpTo(s, i, speed, dt, rand).0[i := Moved(s[i], speed, dt)], PipesUpTo(s, i, speed, dt, rand).1[0])
  {
    var r := PipesUpTo(s, i, speed, dt, rand);
    var pool := r.0[i := Moved(s[i], speed, dt)];
    StepUnfolds(s, i, speed, dt, rand);
    RecycledSlot(r.0, i, speed, dt, r.1, s[i]);
    LaterStepsKeepSlot(s, i, |s|, speed, dt, rand);
  }

  /**
   * Where a recycled pipe goes: x = lx = the scan's nx + PIPE_WIDTH +
   * PIPE_SPACING, so at least that far right of every pipe of the pool;
   * scored cleared; the gap row is GapRow of the rightmost pipe's row.
   */
  lemma RecycledPlacement(pool: seq<Pipe>, roll: nat)
    ensures var p := Recycled(pool, roll);
            && p.x == p.lx == Rightmost(pool, |pool|).0 + PITCH
            && p.x >= PITCH
            && (forall j :: 0 <= j < |pool| ==> p.x >= pool[j].x + PITCH)
            && !p.scored
            && p.y == GapRow(Rightmost(pool, |pool|).1, roll)
  {
    RightmostIsFirstMax(pool, |pool|);
  }

  /** Iteration n of the pass is one SlotStep on the pool the first n left. */
  lemma StepUnfolds(s: seq<Pipe>, n: nat, speed: real, dt: real, rand: seq<nat>)
    requires n < |s| && n < |rand|
    ensures PipesUpTo(s, n + 1, speed, dt, rand) ==
              SlotStep(PipesUpTo(s, n, speed, dt, rand).0, n, speed, dt, PipesUpTo(s, n, speed, dt, rand).1)
    ensures PipesUpTo(s, n, speed, dt, rand).0[n] == s[n]
  {
  }

  /** SlotStep on a slot holding p, which the scroll takes past -PIPE_WIDTH. */
  lemma RecycledSlot(t: seq<Pipe>, i: nat, speed: real, dt: real, rest: seq<nat>, p: Pipe)
    requires i < |t| && |rest| >= 1 && t[i] == p && !Survives(p, speed, dt)
    ensures SlotStep(t, i, speed, dt, rest).0[i] == Recycled(t[i := Moved(p, speed, dt)], rest[0])
  {
  }

  /** Two pipes at least PITCH apart. */
  ghost predicate Apart(a: real, b: real) {
    a - b >= PITCH || b - a >= PITCH
  }

  /** Every two pipes of the pool are at least PITCH apart. */
  ghost predicate Spaced(s: seq<Pipe>) {
    forall j, k :: 0 <= j < k < |s| ==> Apart(s[j].x, s[k].x)
  }

  ghost predicate GapsInRange(s: seq<Pipe>) {
    forall j :: 0 <= j < |s| ==> GapInRange(s[j].y)
  }

  /**
   * What a pass needs of the pool to leave it spaced and with legal gaps:
   * the pipes it will not recycle are already so.
   */
  ghost predicate Ready(s: seq<Pipe>, speed: real, dt: real) {
    (forall j :: 0 <= j < |s| && Survives(s[j], speed, dt) ==> GapInRange(s[j].y)) &&
    (forall j, k :: 0 <= j < k < |s| && Survives(s[j], speed, dt) && Survives(s[k], speed, dt) ==>
       Apart(s[j].x, s[k].x))
  }

  /** The pool after n iterations, relative to the pool s0 the pass started from. */
  ghost predicate Stage(s0: seq<Pipe>, t: seq<Pipe>, n: nat, speed: real, dt: real) {
    && |t| == |s0| && n <= |s0|
    && (forall j :: n <= j < |s0| ==> t[j] == s0[j])
    && (forall j :: 0 <= j < n ==> GapInRange(t[j].y))
    && (forall j :: 0 <= j < n && Survives(s0[j], speed, dt) ==> t[j].x == s0[j].x - speed * dt)
    && (forall j, m :: 0 <= j < n <= m < |s0| && !Survives(s0[j], speed, dt) ==> t[j].x >= s0[m].x + PITCH)
    && (forall j, k :: 0 <= j < k < n ==> Apart(t[j].x, t[k].x))
  }

  lemma {:induction false} StageHolds(s0: seq<Pipe>, n: nat, speed: real, dt: real, rand: seq<nat>)
    requires n <= |s0| && n <= |rand|
    requires Ready(s0, speed, dt) && speed * dt >= 0.0
    ensures Stage(s0, PipesUpTo(s0, n, speed, dt, rand).0, n, speed, dt)
    decreases n
  {
    if n > 0 {
      StageHolds(s0, n - 1, speed, dt, rand);
      var (t, rest) := PipesUpTo(s0, n - 1, speed, dt, rand);
      var i := n - 1;
      var pool := t[i := Moved(t[i], speed, dt)];
      var t' := PipesUpTo(s0, n, speed, dt, rand).0;
      assert t' == SlotStep(t, i, speed, dt, rest).0;
      assert t[i] == s0[i];
      if Survives(s0[i], speed, dt) {
        assert t' == pool;
        forall j | 0 <= j < i
          ensures Apart(t'[j].x, t'[i].x)
        {
          if !Survives(s0[j], speed, dt) {
            assert t[j].x >= s0[i].x + PITCH;
          }
        }
      } else {
        var nx := Rightmost(pool, |pool|).0;
        RightmostIsFirstMax(pool, |pool|);
        assert t' == pool[i := Recycled(pool, rest[0])];
        assert t'[i].x == nx + PITCH;
        forall j | 0 <= j < i
          ensures Apart(t'[j].x, t'[i].x)
        {
          assert pool[j] == t[j];
        }
        forall m | n <= m < |s0|
          ensures t'[i].x >= s0[m].x + PITCH
        {
          assert pool[m] == s0[m];
        }
      }
    }
  }

  /**
   * update_pipes leaves a ready pool spaced, every two pipes at least
   * PIPE_WIDTH + PIPE_SPACING apart, with every gap row in
   * [PIPE_GAP + 1, FLOOR_Y - 1], provided the scroll does not move pipes right.
   */
  lemma PassSpacesPool(s: seq<Pipe>, speed: real, dt: real, rand: seq<nat>)
    requires |s| <= |rand|
    requires Ready(s, speed, dt) && speed * dt >= 0.0
    ensures Spaced(PipesStep(s, speed, dt, rand).0)
    ensures GapsInRange(PipesStep(s, speed, dt, rand).0)
  {
    StageHolds(s, |s|, speed, dt, rand);
  }

  /** A spaced pool with legal gaps is ready for any scroll. */
  lemma SettledIsReady(s: seq<Pipe>, speed: real, dt: real)
    requires Spaced(s) && GapsInRange(s)
    ensures Ready(s, speed, dt)
  {
  }

  /** The pool init_state builds: one pipe at the right edge, the rest just off the left edge. */
  function InitPipes(): (s: seq<Pipe>)
    ensures |s| == PIPE_COUNT
  {
    [Pipe(WIDTH as real, 0.0, (FLOOR_Y + PIPE_GAP) / 2, false)] +
    seq(PIPE_COUNT - 1, _ => Pipe(-(PIPE_WIDTH + 1) as real, 0.0, 0, false))
  }

  /**
   * The initial pool is ready for a first pass that does not scroll right:
   * every pipe but the first is recycled at once.
   */
  lemma InitPipesReady(speed: real, dt: real)
    requires speed * dt >= 0.0
    ensures Ready(InitPipes(), speed, dt)
  {
    var s := InitPipes();
    forall j | 1 <= j < |s| ensures !Survives(s[j], speed, dt) {
      assert s[j] == Pipe(-(PIPE_WIDTH + 1) as real, 0.0, 0, false);
    }
  }

  /** update_pipe_speed: add PIPE_ACCELERATION * dt, capped at PIPE_MAX_SPEED. */
  function SpeedStep(v: real, dt: real): (r: real)
    ensures r <= PIPE_MAX_SPEED
    ensures v <= PIPE_MAX_SPEED && dt >= 0.0 ==> v <= r
    ensures r < PIPE_MAX_SPEED ==> r == v + dt * PIPE_ACCELERATION
    ensures r == PIPE_MAX_SPEED ==> v + dt * PIPE_ACCELERATION >= PIPE_MAX_SPEED
  {
    var s := v + dt * PIPE_ACCELERATION;
    if s > PIPE_MAX_SPEED then PIPE_MAX_SPEED else s
  }

  /** update_pipe_speed on the speed passed by pointer; the new speed is returned. */
  method UpdatePipeSpeed(speed: real, dt: real) returns (speed': real)
    ensures speed' == SpeedStep(speed, dt)
  {
    speed' := speed + dt * PIPE_ACCELERATION;
    if speed' > PIPE_MAX_SPEED {
      speed' := PIPE_MAX_SPEED;
    }
  }

  /** From 15 with dt = 2 the speed becomes 16. */
  lemma SpeedExample()
    ensures SpeedStep(PIPE_START_SPEED, 2.0) == 16.0
  {
  }

  /** A clock that steps back by 2 seconds slows the pipes below the start speed. */
  lemma BackwardClockExample()
    ensures SpeedStep(PIPE_START_SPEED, -2.0) == 14.0 < PIPE_START_SPEED
  {
  }
}
