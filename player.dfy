/**
 * The bird of flap.c (struct Player) and update_player: a jump sets the
 * vertical velocity outright, otherwise gravity is integrated; the bird is
 * clamped to the floor, and touching it kills the bird for good.
 */
module Physics {
  import opened Screen

  const GRAVITY: real := 50.0
  const JUMP_VEL: real := 20.0

  /**
   * The Player struct: x never changes, ly is the row drawn last frame (so
   * it can be erased), dead is set by the floor or by a pipe.
   */
  datatype Player = Player(x: real, y: real, ly: real, vy: real, dead: bool)

  /** The velocity after one step: a live bird that jumps gets -JUMP_VEL, anything else falls. */
  function Velocity(p: Player, dt: real, jump: bool): real {
    if !p.dead && jump then -JUMP_VEL else p.vy + GRAVITY * dt
  }

  /** The row reached before the floor clamp. */
  function Integrated(p: Player, dt: real, jump: bool): real {
    p.y + Velocity(p, dt, jump) * dt
  }

  /** update_player as a function of the old Player. */
  function PlayerStep(p: Player, dt: real, jump: bool): (q: Player)
    ensures q.x == p.x && q.ly == p.y
    ensures q.y <= FLOOR_Y as real
    ensures p.dead ==> q.dead
    ensures Integrated(p, dt, jump) >= FLOOR_Y as real ==>
              q.dead && q.y == FLOOR_Y as real && q.vy == 0.0
    ensures Integrated(p, dt, jump) < FLOOR_Y as real ==>
              q.dead == p.dead && q.vy == Velocity(p, dt, jump) && q.y == Integrated(p, dt, jump)
  {
    var vy := Velocity(p, dt, jump);
    var y := Integrated(p, dt, jump);
    if y >= FLOOR_Y as real then Player(p.x, FLOOR_Y as real, p.y, 0.0, true)
    else Player(p.x, y, p.y, vy, p.dead)
  }

  /**
   * update_player, statement by statement, on the Player passed by pointer:
   * the new Player is returned.
   */
  method UpdatePlayer(p: Player, dt: real, shouldJump: bool) returns (q: Player)
    ensures q == PlayerStep(p, dt, shouldJump)
  {
    q := p.(ly := p.y);
    if !q.dead && shouldJump {
      q := q.(vy := -JUMP_VEL);
    } else {
      q := q.(vy := q.vy + GRAVITY * dt);
    }
    assert q == p.(ly := p.y, vy := Velocity(p, dt, shouldJump));
    q := q.(y := q.y + q.vy * dt);
    if q.y >= FLOOR_Y as real {
      q := q.(dead := true, y := FLOOR_Y as real, vy := 0.0);
    }
  }

  /** A dead bird ignores the jump key: it keeps falling. */
  lemma DeadIgnoresJump(p: Player, dt: real)
    requires p.dead
    ensures PlayerStep(p, dt, true) == PlayerStep(p, dt, false)
  {
  }

  /** Falling from y = 20 at rest for 0.1 s gives vy = 5 and y = 20.5. */
  lemma FallExample()
    ensures PlayerStep(Player(10.0, 20.0, 0.0, 0.0, false), 0.1, false) == Player(10.0, 20.5, 20.0, 5.0, false)
  {
  }

  /** Jumping from y = 20 at rest for 0.1 s gives vy = -20 and y = 18. */
  lemma JumpExample()
    ensures PlayerStep(Player(10.0, 20.0, 0.0, 0.0, false), 0.1, true) == Player(10.0, 18.0, 20.0, -20.0, false)
  {
  }
}
