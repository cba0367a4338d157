/**
 * The simulation step of the game's main file: gravity and the walk animation
 * are requested every tick, then exactly one of "move left", "move right" or
 * "stand idle" is chosen from the two movement intent flags.
 *
 * The sprite handler's own behaviour is not part of this model: its calls are
 * recorded, in order, as opaque `SpriteCall`s, and the only effect a move has
 * here is on the sprite's horizontal position.
 */
module Simulation {
  import opened Input

  /** The player's horizontal speed per tick (a float 10.0 in the source, an integer here). */
  const PlayerSpeed: int := 10

  /** The signed move made by one pass while only the intent of `d` is held. */
  function Velocity(d: Direction): int
  {
    match d
    case Left => -PlayerSpeed
    case Right => PlayerSpeed
  }

  /** A call issued to the player's sprite handler. */
  datatype SpriteCall =
    | Gravity
    | Animate(frames: int, fps: int, extra: int, looping: bool)
    | Move(dx: int, dy: int)
    | SetIdle

  /**
   * The animation request made on every tick: six frames at five per second,
   * looping; the meaning of the third argument, 30, lies in the sprite handler,
   * which is not part of this model.
   */
  const WalkAnimation: SpriteCall := Animate(6, 5, 30, true)

  /** The player's sprite as far as the simulation step can see it. */
  datatype Sprite = Sprite(x: int, calls: seq<SpriteCall>)

  /**
   * One simulation tick for the player. The three guards of the source are
   * stated as written; together the ensures clauses say that the guards
   * partition all flag combinations and fix the whole result.
   */
  function Simulate(f: Flags, s: Sprite): (r: Sprite)
    ensures |r.calls| == |s.calls| + 3 && r.calls[..|s.calls|] == s.calls
    ensures r.calls[|s.calls|] == Gravity && r.calls[|s.calls| + 1] == WalkAnimation
    ensures f.movingLeft && !f.movingRight ==>
      r.x == s.x - PlayerSpeed && r.calls[|s.calls| + 2] == Move(-PlayerSpeed, 0)
    ensures f.movingRight && !f.movingLeft ==>
      r.x == s.x + PlayerSpeed && r.calls[|s.calls| + 2] == Move(PlayerSpeed, 0)
    ensures ((!f.movingRight && !f.movingLeft) || (f.movingLeft && f.movingRight)) ==>
      r.x == s.x && r.calls[|s.calls| + 2] == SetIdle
  {
    var requested := s.calls + [Gravity, WalkAnimation];
    if f.movingLeft == f.movingRight then
      Sprite(s.x, requested + [SetIdle])
    else if f.movingLeft then
      Sprite(s.x - PlayerSpeed, requested + [Move(-PlayerSpeed, 0)])
    else
      Sprite(s.x + PlayerSpeed, requested + [Move(PlayerSpeed, 0)])
  }

  /**
   * Exactly one branch runs per tick: the position moves left by the speed
   * exactly when only the left intent is held, right exactly when only the
   * right intent is held, and stays put (with the sprite set idle) exactly
   * when both or neither are held.
   */
  lemma ExactlyOneBranch(f: Flags, s: Sprite)
    ensures Simulate(f, s).x == s.x - PlayerSpeed <==> f.movingLeft && !f.movingRight
    ensures Simulate(f, s).x == s.x + PlayerSpeed <==> f.movingRight && !f.movingLeft
    ensures Simulate(f, s).x == s.x <==> f.movingLeft == f.movingRight
    ensures Simulate(f, s).calls[|s.calls| + 2] == SetIdle <==> f.movingLeft == f.movingRight
  {
  }
}
