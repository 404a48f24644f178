# flap.c in Dafny

A model of the game logic of `flap.c`, a terminal Flappy Bird clone. A bird
falls under gravity and jumps on a space key. Pipes scroll in from the right
and are recycled in place once they leave the screen. Touching a pipe body or
the floor kills the bird, and each pipe passed through its gap scores once.
On the terminal side, only `put_rect` is modelled: the cells it writes.

Files, one module each:

- `wrappers.dfy` (`Wrappers`): the `Option` datatype.
- `screen.dfy` (`Screen`): `WIDTH`, `FLOOR_Y` and `put_rect`. Its clipping is a
  function (`Clip`) and the cells it writes are a set (`RectCells`). `PutRect`
  is the two nested loops, proved to write exactly that set in row-major order.
- `player.dfy` (`Physics`): the `Player` struct and `update_player`.
  `PlayerStep` is the function and `UpdatePlayer` is the statement-by-statement
  method.
- `pipes.dfy` (`Pipes`): the `Pipe` struct, `update_pipes` and
  `update_pipe_speed`.
  - `PipesUpTo` is the pool after the first n iterations of the loop, one
    `SlotStep` at a time.
  - `UpdatePipes` updates the `array<Pipe>` in place. Its loop body is
    `StepSlot`, the recycling branch is `RecycleSlot` and the inner scan is
    `ScanRightmost`.
  - It also proves that a pass keeps the pool spaced, with every gap row in
    range.
- `collision.dfy` (`Collision`): `collide_player_with_pipes`, as a function
  (`CollideStep`) and as a loop over the array (`Collide`).
- `flap.dfy` (`Flap`): the `State` struct, `init_state`, the input loop and one
  iteration of the main loop.
  - `FrameStep` is the frame on values. The class `Game` holds the state with
    its pipe array, and `Game.Frame` is proved equal to `FrameStep`.
  - `Run` chains frames. `RunKeepsConsistent` proves the game invariant for
    every state reached by frames with dt >= 0.

Modelling choices:

- `double` and `float` become `real`. `int` becomes unbounded `int`.
- A struct passed by pointer alone (`Player*`, `double*`, `int*`) is passed as
  a value, and its new value is returned.
- The clock is replaced by a `dt` parameter, and the pending terminal input by
  a sequence of bytes.
- `rand()` is replaced by `rand`, a sequence of its (non-negative) results.
  Each recycle consumes the next one, and every update returns the unused
  rest.

Behaviour of flap.c that the model keeps:

- `put_rect(1, y, WIDTH + 10, 1, c)` writes WIDTH - 1 columns (1..63). An overhanging rectangle is cut with `w = WIDTH - x`
  (see Findings).
- A recycled gap row is clamped to [PIPE_GAP + 1, FLOOR_Y - 1] = [9, 39].
- Gap rows can lie outside that range. `init_state` leaves the
  seven off-screen pipes with row 0, and they only get legal rows when first
  recycled. `Flap.Consistent` therefore allows either the initial pool or a
  spaced pool with legal gaps.
- The recycle position is anchored to the largest x above 0, or to 0 when
  every pipe is at or left of column 0: the scan compares with a strict `>`
  against a start of 0.
- A collision kills the bird in mid-air without touching `y` or `vy`, so a
  dead bird is not always on the floor. A dead bird still scores, because
  `collide_player_with_pipes` never reads `dead`.
- Pipes stay at least PIPE_WIDTH + PIPE_SPACING apart; that lower bound is
  what the model proves.

## Model

| member | source | states |
|---|---|---|
| Screen.Clip | flap.c:31-37 | No columns when x > WIDTH. Otherwise there are columns exactly when max(x, 1) <= the clipped right edge; they start at max(x, 1), end at that edge and are never empty |
| Screen.RectCells | flap.c:30-45 | Nothing is written when x > WIDTH, y < 0, h <= 0 or w <= 0. Every cell written lies in columns [1, WIDTH] and [x, x + w - 1] and in rows [y, y + h) |
| Screen.RectCellsExact | flap.c:30-45 | A cell is written iff x <= WIDTH, y >= 0, its row is in [y, y + h) and its column is in [max(x, 1), right edge] |
| Screen.RectRowsAreUniform | flap.c:38-44 | When y >= 0, every row of the rectangle gets the same clipped column run |
| Screen.OverhangSkipsLastColumn | flap.c:32 | A rectangle that overhangs the right edge never writes column WIDTH |
| Screen.PutRect | flap.c:30-45 | The loops write exactly the cells of RectCells, row by row and left to right, each once |
| Screen.IntendedRectCells | flap.c:32 | Corrected clipping: a cell is written iff y >= 0, its row is in range, and its column is in [x, x + w - 1] and in [1, WIDTH] |
| Screen.RightEdgeDropsVisibleColumn | flap.c:32 | put_rect(62, 1, 5, 1) leaves out column 64, which the corrected clipping writes |
| Screen.RectCellsVersusIntended | flap.c:32-37 | The cells written are the intended ones minus column WIDTH when the rectangle overhangs, and nothing else differs |
| Physics.PlayerStep | flap.c:108-122 | x is kept and ly takes the old y. The new y is never below FLOOR_Y and death is sticky. Reaching the floor gives dead, y = FLOOR_Y, vy = 0. Otherwise vy is -JUMP_VEL for a live bird that jumps or vy + GRAVITY·dt, and y is the old y + vy·dt |
| Physics.UpdatePlayer | flap.c:108-122 | The statement-by-statement update equals PlayerStep |
| Physics.DeadIgnoresJump | flap.c:110-114 | A dead bird ignores the jump key |
| Physics.FallExample | flap.c:113-116 | From rest at y = 20 with dt = 0.1 the bird falls to y = 20.5 with vy = 5 |
| Physics.JumpExample | flap.c:110-116 | From rest at y = 20 with dt = 0.1 a jump gives vy = -20 and y = 18 |
| Pipes.Rightmost | flap.c:131-138 | The scan's x is never negative |
| Pipes.RightmostIsFirstMax | flap.c:131-138 | The scan's x is at least every pipe's x. When it is above 0 it is the x and y of the first pipe with that x, and (0, 0) otherwise |
| Pipes.ScanRightmost | flap.c:131-138 | The inner loop returns Rightmost of the whole array |
| Pipes.Offset | flap.c:140 | The random offset lies in [-PIPE_SPREAD, PIPE_SPREAD) |
| Pipes.GapRow | flap.c:140-142 | The new gap row lies in [PIPE_GAP + 1, FLOOR_Y - 1] and equals the previous row plus the offset, clamped to that range |
| Pipes.RecycledPlacement | flap.c:139-146 | A recycled pipe gets x = lx = nx + PIPE_WIDTH + PIPE_SPACING, so it is at least that far right of every pipe. Its scored flag is cleared and its gap row is GapRow of the rightmost row |
| Pipes.RecycleSlot | flap.c:130-147 | Only slot i changes, and it becomes the recycled pipe of the array as it stood |
| Pipes.SlotStep | flap.c:126-147 | One iteration changes slot i only and consumes zero or one rand() result |
| Pipes.StepSlot | flap.c:126-147 | The loop body on the array equals SlotStep |
| Pipes.PipesUpTo | flap.c:125-148 | After n iterations the pool keeps its length, and at most n of the rand() results are used |
| Pipes.Recycled | flap.c:131-146 | The fresh pipe has x = lx, at least PIPE_WIDTH + PIPE_SPACING, a gap row in [PIPE_GAP + 1, FLOOR_Y - 1] and its scored flag cleared |
| Pipes.PipesStep | flap.c:124-149 | A pass keeps the pool's length and uses at most one rand() result per pipe |
| Pipes.UpdatePipes | flap.c:124-149 | The array and the unused results after the loop equal PipesStep of the old array |
| Pipes.StepUnfolds | flap.c:125-148 | Proof helper: iteration n is one SlotStep on the pool the first n left, and that pool still holds the original slot n |
| Pipes.StepKeepsOthers | flap.c:125-148 | Proof helper: an iteration leaves the slots before it alone |
| Pipes.LaterStepsKeepSlot | flap.c:125-148 | Once slot i is updated, later iterations leave it alone |
| Pipes.SurvivorOutcome | flap.c:127-128 | A pipe that is not recycled ends the pass with lx = its old x, x moved left by speed·dt, and its gap row and scored flag unchanged |
| Pipes.RecycledOutcome | flap.c:129-146 | A pipe that scrolls past -PIPE_WIDTH ends the pass as the recycled pipe of the pool at that moment of the pass and of the next unused rand() result |
| Pipes.RecycledSlot | flap.c:129-146 | Proof helper: a slot taken past -PIPE_WIDTH becomes the recycled pipe of the scrolled pool |
| Pipes.StageHolds | flap.c:124-149 | After n iterations on a ready pool, the updated slots have legal gaps and are pairwise apart. Survivors moved by exactly speed·dt, and recycled pipes lie right of every slot not yet updated |
| Pipes.PassSpacesPool | flap.c:124-149 | A pass over a ready pool, with no rightward scroll, leaves every two pipes at least PIPE_WIDTH + PIPE_SPACING apart and every gap row in range |
| Pipes.SettledIsReady | flap.c:124-149 | A spaced pool with legal gaps is ready for any scroll |
| Pipes.InitPipes | flap.c:203-207 | The initial pool has PIPE_COUNT pipes |
| Pipes.InitPipesReady | flap.c:203-207 | The initial pool is ready, because every pipe but the first is recycled at once |
| Pipes.SpeedStep | flap.c:212-215 | The speed never exceeds PIPE_MAX_SPEED and never decreases from a legal speed when dt >= 0. Below the cap it is the old speed + dt·PIPE_ACCELERATION; it is capped only when that sum reaches the cap |
| Pipes.UpdatePipeSpeed | flap.c:212-215 | The in-place update equals SpeedStep |
| Pipes.SpeedExample | flap.c:213 | From 15 with dt = 2 the speed becomes 16 |
| Pipes.BackwardClockExample | flap.c:213 | From 15 with dt = -2 the speed drops to 14, below the start speed |
| Collision.FirstStraddle | flap.c:179-181 | Finds the first pipe whose columns hold the bird's x, and reports that no pipe does otherwise |
| Collision.CollideStep | flap.c:178-191 | x, y, ly and vy are kept. The bird dies iff it was dead or the first straddled pipe's body holds its row. Only scored flags change, and only the pipe the bird passes cleanly for the first time. The score rises by one exactly then, and by zero otherwise |
| Collision.Collide | flap.c:178-191 | The loop over the array equals CollideStep |
| Collision.CollideIgnoresDead | flap.c:178-191 | The pool and the score after a collision do not depend on the dead flag |
| Collision.FirstStraddleSeesOnlyX | flap.c:181 | The scan depends only on the pipes' x |
| Collision.CollideTwiceScoresOnce | flap.c:184-186 | Colliding again with the state a collision left changes neither the pool nor the score |
| Collision.SpacedStraddlesOne | flap.c:179-189 | In a spaced pool the first straddled pipe is the only one |
| Flap.InitState | flap.c:198-210 | A live bird at rest at (10, 20), score 0 and the start speed. Pipe 0 is at x = WIDTH with a legal gap, every other pipe is left of -PIPE_WIDTH, and none is scored |
| Flap.Game.constructor | flap.c:226-227 | A fresh game holds InitState |
| Flap.Game.Init | flap.c:198-210 | The in-place initialisation yields InitState |
| Flap.ReadInput | flap.c:234-246 | Jump iff a space byte is pending; restart iff the bird is dead and an 'r' byte is pending |
| Flap.FrameStep | flap.c:248-261 | A restart gives the initial state and uses no rand() result. Any other frame keeps x, raises the score by 0 or 1, leaves y above the floor, keeps a dead bird dead and keeps the speed under the cap |
| Flap.Game.Frame | flap.c:234-261 | One iteration on the object equals FrameStep of the old state |
| Flap.Run | flap.c:229-261 | Any run of frames, whatever their dt, keeps PIPE_COUNT pipes, keeps the bird in column PLAYER_X, keeps it at or above the floor and keeps the speed at most PIPE_MAX_SPEED, when the start state does |
| Flap.RunUnfolds | flap.c:229-261 | Proof helper: a run is the first frame followed by the run of the remaining frames |
| Flap.FramePipes | flap.c:257-260 | Proof helper: the pool a frame leaves is the collision step applied to the scrolled pool, with the updated bird |
| Flap.CollideKeepsPool | flap.c:178-191 | A collision keeps a spaced pool with legal gaps |
| Flap.PoolUpdatesSettle | flap.c:258-260 | Scrolling, recycling and collision take the initial pool, or any spaced pool with legal gaps, to a spaced pool with legal gaps |
| Flap.FrameSettlesPool | flap.c:257-261 | A frame that does not restart leaves a spaced pool with legal gaps |
| Flap.FrameKeepsConsistent | flap.c:248-261 | Every frame with dt >= 0 keeps the game consistent: x = 10, y above the floor, speed in [start, max], and the pool initial or spaced with legal gaps |
| Flap.RunKeepsConsistent | flap.c:229-261 | Any number of frames with dt >= 0 keep a consistent state consistent |
| Flap.InitConsistent | flap.c:198-210 | The initial state is consistent |
| Flap.NoRestartKeepsScoreAndDeath | flap.c:239-261 | Without an 'r' key the score never decreases over a run, and a dead bird stays dead |
| Flap.RestartExample | flap.c:249-255 | A dead bird with score 7 and speed 30 restarts to score 0, the start speed, a live bird at y = 20 and pipe 0 at x = WIDTH |

## Left out

- Terminal I/O is not modelled: `init_terminal`, `clear_screen`, `put_text`, `move_cursor`, `set_color`, the escape sequences and the fill characters. The drawing functions (`draw_player`, `draw_single_pipe`, `draw_pipes`, `draw_floor`, the score bar and the death banner) are left out too. For `put_rect`, only which cells are written is modelled.
- `get_fsecs`, `usleep` and the computation of `dt` from the clock are left out; `dt` is a parameter of every frame.
- `rand()` and `srand(time(0))` are left out. The model takes the stream of `rand()` results as a parameter. After a restart it keeps drawing from the same stream, where the program reseeds.
- `Flap.RunKeepsConsistent`: proved only for frames with dt >= 0. The program's dt is the difference of two wall-clock readings, which is negative when the clock steps back; the speed then drops (`Pipes.BackwardClockExample`: from 15 with dt = -2 it becomes 14) and the invariant can fail. The model assumes the clock never goes back.
- `Flap.Run`: the endless `while (1)` loop is modelled as a finite sequence of frames.
- `Pipes.UpdatePipes`: `update_pipes` takes `pipe_speed` and `dt` as `float`, so the source rounds them to single precision. The model uses exact reals, as it does for every `double`.
- `Physics.PlayerStep`: floating-point rounding of `vy` and `y` is not modelled.
- `Collision.CollideStep`: the score is an unbounded integer. Overflow of the 32-bit `int` is not modelled.
- The truncation of the `double` pipe and bird positions to `int` happens only when drawing, so it is not part of the model.

## Findings

| source | as written | input that shows it | evidently intended | confidence | as-written member | corrected member |
|---|---|---|---|---|---|---|
| flap.c:32 | A rectangle overhanging the right edge is cut to `w = WIDTH - x`, so its last column is WIDTH - 1 | `put_rect(62, 1, 5, 1, c)` writes columns 62 and 63 but not 64, which is on screen and inside the request | `w = WIDTH - x + 1`, keeping every column up to WIDTH | medium, not executed | Screen.RightEdgeDropsVisibleColumn | Screen.IntendedRectCells |

`Screen.RectCellsVersusIntended` states the whole difference: on an overhang
only column WIDTH is missing, and nothing else differs. `Screen.PutRect` and
`Screen.RectCells` keep the code's behaviour, because that is what the program
draws.
