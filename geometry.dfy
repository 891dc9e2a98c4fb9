/** Points and vectors of the scene's coordinate space. The game uses
    `CGPoint` and `CGVector` (floating point); the model uses `real`, so
    rounding is not modelled. */
module Geometry {

  /** A position in scene coordinates. */
  datatype Point = Point(x: real, y: real)

  /** A 2D vector, such as the physics world's gravity. */
  datatype Vector = Vector(dx: real, dy: real)

  /** The zero vector (`CGVector.zero`). */
  const Zero := Vector(0.0, 0.0)
}
