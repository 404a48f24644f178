/**
 * The game state of flap.c (struct State), init_state, and one iteration of
 * the main loop: the pending input bytes are reduced to a jump flag and a
 * restart flag; a restart rebuilds the state and skips the frame, otherwise
 * the pipes, the bird, the collision test and the speed ramp run in that
 * order. The clock, the sleep, rand() and all drawing stay outside: dt, the
 * input bytes and the rand() results are parameters.
 */
module Flap {
  import opened Screen
  import opened Physics
  import opened Pipes
  import opened Collision

  newtype byte = b: int | 0 <= b < 256

  /** The jump key, ' '. */
  const SPACE: byte := 32
  /** The restart key, 'r'. */
  const KEY_R: byte := 114

  /** The State struct, as a value. */
  datatype State = State(player: Player, pipes: seq<Pipe>, score: int, pipeSpeed: real)

  /** The bird's fixed column. */
  const PLAYER_X: real := 10.0

  /**
   * init_state: a live bird at rest half way down at column 10, one pipe at
   * the right edge with its gap row half way between PIPE_GAP and FLOOR_Y,
   * every other pipe just past the left edge, score 0 and the start speed.
   */
  function InitState(): (st: State)
    ensures st.player == Player(PLAYER_X, FLOOR_Y as real / 2.0, 0.0, 0.0, false)
    ensures st.score == 0 && st.pipeSpeed == PIPE_START_SPEED
    ensures |st.pipes| == PIPE_COUNT
    ensures st.pipes[0].x == WIDTH as real && GapInRange(st.pipes[0].y)
    ensures forall j :: 1 <= j < PIPE_COUNT ==> st.pipes[j].x < -PIPE_WIDTH as real
    ensures forall j :: 0 <= j < PIPE_COUNT ==> !st.pipes[j].scored
  {
    State(Player(PLAYER_X, FLOOR_Y as real * 0.5, 0.0, 0.0, false), InitPipes(), 0, PIPE_START_SPEED)
  }

  /**
   * The input loop of main: every pending byte is read; ' ' asks for a jump
   * and, while the bird is dead, 'r' asks for a restart. Other bytes are
   * ignored.
   */
  method ReadInput(input: seq<byte>, dead: bool) returns (shouldJump: bool, shouldRestart: bool)
    ensures shouldJump <==> SPACE in input
    ensures shouldRestart <==> dead && KEY_R in input
  {
    shouldJump, shouldRestart := false, false;
    var k := 0;
    while k < |input|
      invariant 0 <= k <= |input|
      invariant shouldJump <==> SPACE in input[..k]
      invariant shouldRestart <==> dead && KEY_R in input[..k]
    {
      var c := input[k];
      if c == SPACE {
        shouldJump := true;
      }
      if dead && c == KEY_R {
        shouldRestart := true;
      }
      assert input[..k + 1] == input[..k] + [c];
      k := k + 1;
    }
    assert input[..k] == input;
  }

  /** Whether a frame with this input restarts the game. */
  predicate Restarts(st: State, input: seq<byte>) {
    st.player.dead && KEY_R in input
  }

  /**
   * One iteration of the main loop, on the state, the pending input, the
   * elapsed time and the rand() results; also returns the unused results.
   */
  function FrameStep(st: State, input: seq<byte>, dt: real, rand: seq<nat>): (r: (State, seq<nat>))
    requires |st.pipes| == PIPE_COUNT && |rand| >= PIPE_COUNT
    ensures |r.0.pipes| == PIPE_COUNT && |rand| - PIPE_COUNT <= |r.1| <= |rand|
    ensures Restarts(st, input) ==> r == (InitState(), rand)
    ensures !Restarts(st, input) ==>
              && st.score <= r.0.score <= st.score + 1
              && r.0.player.x == st.player.x
              && r.0.player.y <= FLOOR_Y as real
              && (st.player.dead ==> r.0.player.dead)
              && r.0.pipeSpeed <= PIPE_MAX_SPEED
  {
    if Restarts(st, input) then (InitState(), rand)
    else
      var moved := PipesStep(st.pipes, st.pipeSpeed, dt, rand);
      var p := PlayerStep(st.player, dt, SPACE in input);
      var c := CollideStep(p, moved.0, st.score);
      (State(c.0, c.1, c.2, SpeedStep(st.pipeSpeed, dt)), moved.1)
  }

  /** The main loop's state, with the array of pipes updated in place. */
  class Game {
    var player: Player
    const pipes: array<Pipe>
    var score: int
    var pipeSpeed: real

    ghost predicate Valid()
      reads this
    {
      pipes.Length == PIPE_COUNT
    }

    function Value(): State
      reads this, pipes
    {
      State(player, pipes[..], score, pipeSpeed)
    }

    /** A fresh game, as main declares its State and initialises it. */
    constructor ()
      ensures Valid() && fresh(pipes)
      ensures Value() == InitState()
    {
      pipes := new Pipe[PIPE_COUNT];
      new;
      Init();
    }

    /** init_state: clear the whole state, then set the fields that are not zero. */
    method Init()
      requires Valid()
      modifies this, pipes
      ensures Valid()
      ensures Value() == InitState()
    {
      player := Player(0.0, 0.0, 0.0, 0.0, false);
      score := 0;
      pipeSpeed := 0.0;
      player := player.(x := PLAYER_X);
      player := player.(y := FLOOR_Y as real * 0.5);
      for i := 0 to PIPE_COUNT
        modifies pipes
        invariant forall j :: 0 <= j < i ==> pipes[j] == Pipe(-(PIPE_WIDTH + 1) as real, 0.0, 0, false)
      {
        pipes[i] := Pipe(0.0, 0.0, 0, false).(x := -(PIPE_WIDTH + 1) as real);
      }
      pipes[0] := pipes[0].(x := WIDTH as real);
      pipes[0] := pipes[0].(y := (FLOOR_Y + PIPE_GAP) / 2);
      pipeSpeed := PIPE_START_SPEED;
      assert pipes[..] == InitPipes();
    }

    /**
     * One iteration of the main loop: input, then either a restart or the
     * four updates in order. Returns the rand() results it did not use.
     */
    method Frame(input: seq<byte>, dt: real, rand: seq<nat>) returns (rest: seq<nat>)
      requires Valid() && |rand| >= PIPE_COUNT
      modifies this, pipes
      ensures Valid()
      ensures (Value(), rest) == FrameStep(old(Value()), input, dt, rand)
    {
      ghost var st := Value();
      var shouldJump, shouldRestart := ReadInput(input, player.dead);
      if shouldRestart {
        Init();
        rest := rand;
        return;
      }
      rest := UpdatePipes(pipes, pipeSpeed, dt, rand);
      ghost var moved := PipesStep(st.pipes, st.pipeSpeed, dt, rand);
      assert pipes[..] == moved.0 && rest == moved.1;
      player := UpdatePlayer(player, dt, shouldJump);
      ghost var p := PlayerStep(st.player, dt, SPACE in input);
      assert player == p;
      player, score := Collide(player, pipes, score);
      assert (player, pipes[..], score) == CollideStep(p, moved.0, st.score);
      pipeSpeed := UpdatePipeSpeed(pipeSpeed, dt);
    }
  }

  /** One frame's input bytes and elapsed time. */
  datatype Tick = Tick(input: seq<byte>, dt: real)

  /** The state after a sequence of frames, drawing rand() results from one stream. */
  function Run(st: State, ticks: seq<Tick>, rand: seq<nat>): (r: State)
    requires |st.pipes| == PIPE_COUNT && |rand| >= PIPE_COUNT * |ticks|
    ensures |r.pipes| == PIPE_COUNT
    ensures st.player.x == PLAYER_X ==> r.player.x == PLAYER_X
    ensures st.player.y <= FLOOR_Y as real ==> r.player.y <= FLOOR_Y as real
    ensures st.pipeSpeed <= PIPE_MAX_SPEED ==> r.pipeSpeed <= PIPE_MAX_SPEED
    decreases |ticks|
  {
    if ticks == [] then st
    else
      var r := FrameStep(st, ticks[0].input, ticks[0].dt, rand);
      Run(r.0, ticks[1..], r.1)
  }

  /**
   * What holds of every state the game reaches: the bird stays in its
   * column and never below the floor, the speed stays between the start
   * speed and the cap, and the pool is either the initial one or spaced,
   * every two pipes at least PIPE_WIDTH + PIPE_SPACING apart, with every gap
   * row in [PIPE_GAP + 1, FLOOR_Y - 1].
   */
  ghost predicate Consistent(st: State) {
    && |st.pipes| == PIPE_COUNT
    && PIPE_START_SPEED <= st.pipeSpeed <= PIPE_MAX_SPEED
    && st.player.x == PLAYER_X
    && st.player.y <= FLOOR_Y as real
    && (st.pipes == InitPipes() || (Spaced(st.pipes) && GapsInRange(st.pipes)))
  }

  lemma MulNonneg(a: real, b: real)
    requires a >= 0.0 && b >= 0.0
    ensures a * b >= 0.0
  {
  }

  /** A collision moves no pipe, so it keeps the pool spaced with legal gaps. */
  lemma CollideKeepsPool(p: Player, s: seq<Pipe>, score: int)
    requires Spaced(s) && GapsInRange(s)
    ensures Spaced(CollideStep(p, s, score).1) && GapsInRange(CollideStep(p, s, score).1)
  {
    var t := CollideStep(p, s, score).1;
    assert forall j :: 0 <= j < |s| ==> t[j].x == s[j].x && t[j].y == s[j].y;
  }

  /** The pool a frame that does not restart leaves behind. */
  lemma FramePipes(st: State, input: seq<byte>, dt: real, rand: seq<nat>)
    requires |st.pipes| == PIPE_COUNT && |rand| >= PIPE_COUNT
    requires !Restarts(st, input)
    ensures FrameStep(st, input, dt, rand).0.pipes ==
              CollideStep(PlayerStep(st.player, dt, SPACE in input), PipesStep(st.pipes, st.pipeSpeed, dt, rand).0, st.score).1
  {
  }

  /**
   * The pipe updates of one frame, the scroll and recycling then the
   * collision, take the initial pool or a spaced pool with legal gaps to a
   * spaced pool with legal gaps.
   */
  lemma PoolUpdatesSettle(s: seq<Pipe>, speed: real, dt: real, rand: seq<nat>, p: Player, score: int)
    requires |s| <= |rand|
    requires s == InitPipes() || (Spaced(s) && GapsInRange(s))
    requires speed >= 0.0 && dt >= 0.0
    ensures Spaced(CollideStep(p, PipesStep(s, speed, dt, rand).0, score).1)
    ensures GapsInRange(CollideStep(p, PipesStep(s, speed, dt, rand).0, score).1)
  {
    MulNonneg(speed, dt);
    if s == InitPipes() {
      InitPipesReady(speed, dt);
    } else {
      SettledIsReady(s, speed, dt);
    }
    PassSpacesPool(s, speed, dt, rand);
    CollideKeepsPool(p, PipesStep(s, speed, dt, rand).0, score);
  }

  /** A frame that does not restart leaves the pool spaced with legal gaps. */
  lemma FrameSettlesPool(st: State, input: seq<byte>, dt: real, rand: seq<nat>)
    requires Consistent(st) && dt >= 0.0 && |rand| >= PIPE_COUNT
    requires !Restarts(st, input)
    ensures Spaced(FrameStep(st, input, dt, rand).0.pipes)
    ensures GapsInRange(FrameStep(st, input, dt, rand).0.pipes)
  {
    FramePipes(st, input, dt, rand);
    PoolUpdatesSettle(st.pipes, st.pipeSpeed, dt, rand, PlayerStep(st.player, dt, SPACE in input), st.score);
  }

  /** Every frame that does not run time backwards keeps the game consistent. */
  lemma FrameKeepsConsistent(st: State, input: seq<byte>, dt: real, rand: seq<nat>)
    requires Consistent(st) && dt >= 0.0 && |rand| >= PIPE_COUNT
    ensures Consistent(FrameStep(st, input, dt, rand).0)
  {
    if !Restarts(st, input) {
      FrameSettlesPool(st, input, dt, rand);
    }
  }

  /**
   * Consistency holds after any number of frames whose dt is not negative,
   * from any consistent state (InitConsistent: the initial state is one).
   */
  lemma {:induction false} RunKeepsConsistent(st: State, ticks: seq<Tick>, rand: seq<nat>)
    requires Consistent(st) && |rand| >= PIPE_COUNT * |ticks|
    requires forall k :: 0 <= k < |ticks| ==> ticks[k].dt >= 0.0
    ensures Consistent(Run(st, ticks, rand))
    decreases |ticks|
  {
    if ticks != [] {
      var r := FrameStep(st, ticks[0].input, ticks[0].dt, rand);
      FrameKeepsConsistent(st, ticks[0].input, ticks[0].dt, rand);
      RunUnfolds(st, ticks, rand);
      assert Consistent(r.0);
      assert forall k :: 0 <= k < |ticks[1..]| ==> ticks[1..][k].dt >= 0.0 by {
        forall k | 0 <= k < |ticks[1..]| ensures ticks[1..][k].dt >= 0.0 {
          assert ticks[1..][k] == ticks[k + 1];
        }
      }
      RunKeepsConsistent(r.0, ticks[1..], r.1);
    }
  }

  /** Run does the first frame, then runs the rest from where it left off. */
  lemma RunUnfolds(st: State, ticks: seq<Tick>, rand: seq<nat>)
    requires |st.pipes| == PIPE_COUNT && |rand| >= PIPE_COUNT * |ticks| && ticks != []
    ensures var r := FrameStep(st, ticks[0].input, ticks[0].dt, rand);
            && |r.1| >= 8 * |ticks[1..]|
            && Run(st, ticks, rand) == Run(r.0, ticks[1..], r.1)
  {
  }

  /** The initial state is consistent. */
  lemma InitConsistent()
    ensures Consistent(InitState())
  {
  }

  /**
   * Without an 'r' key press the game never restarts: the score never goes
   * down, and a dead bird stays dead.
   */
  lemma {:induction false} NoRestartKeepsScoreAndDeath(st: State, ticks: seq<Tick>, rand: seq<nat>)
    requires |st.pipes| == PIPE_COUNT && |rand| >= PIPE_COUNT * |ticks|
    requires forall k :: 0 <= k < |ticks| ==> KEY_R !in ticks[k].input
    ensures Run(st, ticks, rand).score >= st.score
    ensures st.player.dead ==> Run(st, ticks, rand).player.dead
    decreases |ticks|
  {
    if ticks != [] {
      var r := FrameStep(st, ticks[0].input, ticks[0].dt, rand);
      NoRestartKeepsScoreAndDeath(r.0, ticks[1..], r.1);
    }
  }

  /** Restarting from a dead bird with score 7 and speed 30 gives back the initial state. */
  lemma RestartExample(st: State, input: seq<byte>, dt: real, rand: seq<nat>)
    requires |st.pipes| == PIPE_COUNT && |rand| >= PIPE_COUNT
    requires st.player.dead && st.score == 7 && st.pipeSpeed == 30.0 && KEY_R in input
    ensures var r := FrameStep(st, input, dt, rand).0;
            && r.score == 0 && r.pipeSpeed == PIPE_START_SPEED
            && r.player.y == 20.0 && !r.player.dead
            && r.pipes[0].x == WIDTH as real
  {
  }
}
