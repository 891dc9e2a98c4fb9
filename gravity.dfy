/** The gravity rule of the scene's per-frame `update`: in the simulator
    build the world is pulled toward the last touch, on a device it follows
    the accelerometer, and while the game is over nothing changes. */
module Gravity {
  import opened Wrappers
  import opened Geometry

  /** One accelerometer sample; only x and y are read. */
  datatype Acceleration = Acceleration(x: real, y: real, z: real)

  /** The branch of `update` the build selects, with that branch's input:
      the last touch position (simulator) or the latest accelerometer
      sample (device); either may be absent. */
  datatype Steering = Pointer(lastTouch: Option<Point>) | Tilt(sample: Option<Acceleration>)

  /** Gravity toward a touch: one hundredth of the offset from the player
      to the touch, so the player plus a hundred times the gravity is the
      touch point. */
  function PointerGravity(touch: Point, player: Point): (g: Vector)
    ensures player.x + 100.0 * g.dx == touch.x && player.y + 100.0 * g.dy == touch.y
  {
    Vector((touch.x - player.x) / 100.0, (touch.y - player.y) / 100.0)
  }

  /** Gravity from a tilt: the sample's (x, y) turned a quarter turn
      anticlockwise (the screen is in landscape) and scaled by 50. */
  function TiltGravity(a: Acceleration): (g: Vector)
    ensures g.dx * a.x + g.dy * a.y == 0.0
    ensures a.x * g.dy - a.y * g.dx == 50.0 * (a.x * a.x + a.y * a.y)
    ensures a.x == 0.0 && a.y == 0.0 ==> g == Zero
  {
    Vector(a.y * -50.0, a.x * 50.0)
  }

  /** The gravity after one frame, from whether the game is over, the
      steering input, the player's position and the current gravity. */
  function NextGravity(isGameOver: bool, steering: Steering, player: Point, current: Vector): (g: Vector)
    ensures isGameOver ==> g == current
    ensures steering == Pointer(None) || steering == Tilt(None) ==> g == current
  {
    if isGameOver then current
    else
      match steering
      case Pointer(None) => current
      case Pointer(Some(touch)) => PointerGravity(touch, player)
      case Tilt(None) => current
      case Tilt(Some(a)) => TiltGravity(a)
  }

  /** With a touch, gravity points from the player toward the touch, on
      each axis, and vanishes exactly when the player is under the touch. */
  lemma PointerGravityPointsAtTouch(touch: Point, player: Point)
    ensures var g := NextGravity(false, Pointer(Some(touch)), player, Zero);
      (g.dx > 0.0 <==> touch.x > player.x) && (g.dy > 0.0 <==> touch.y > player.y) &&
      (g == Zero <==> touch == player)
  {
  }

  /** The tilt gravity's length is fifty times the sample's (squared). */
  lemma TiltGravityLength(a: Acceleration)
    ensures var g := TiltGravity(a);
      g.dx * g.dx + g.dy * g.dy == 2500.0 * (a.x * a.x + a.y * a.y)
  {
  }
}
