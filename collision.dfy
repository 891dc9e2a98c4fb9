/** The kinds of node in a level, the physics-body configuration each kind is
    given, and SpriteKit's rules for which pairs of bodies report contacts and
    which block each other. */
module Collision {

  /** The six obstacle kinds a level letter can produce. */
  datatype Kind = Wall | Vortex | Star | Finish | Teleport1 | Teleport2

  /** Every node the game adds to the scene is either the player or an obstacle. */
  datatype NodeKind = PlayerNode | Obstacle(kind: Kind)

  /** Physics-body shape: walls use a rectangle, everything else a circle. */
  datatype Shape = Rectangle | Circle

  /** The physics-body settings the game chooses for one node. */
  datatype Body = Body(shape: Shape, category: bv32, contactTest: bv32, collision: bv32, dynamic: bool)

  // Raw values of the `CollisionTypes` enumeration.
  const PlayerBit: bv32 := 1
  const WallBit: bv32 := 2
  const StarBit: bv32 := 4
  const VortexBit: bv32 := 8
  const FinishBit: bv32 := 16
  const TeleportBit: bv32 := 32

  // SpriteKit's values for masks the game leaves unset (the wall's).
  const DefaultContactTest: bv32 := 0
  const DefaultCollision: bv32 := 0xFFFF_FFFF

  predicate IsPowerOfTwo(b: bv32) {
    b != 0 && b & (b - 1) == 0
  }

  /** The category bit of each node kind; both teleport ends share one bit. */
  function Category(k: NodeKind): (bit: bv32)
    ensures IsPowerOfTwo(bit)
  {
    match k
    case PlayerNode => PlayerBit
    case Obstacle(Wall) => WallBit
    case Obstacle(Star) => StarBit
    case Obstacle(Vortex) => VortexBit
    case Obstacle(Finish) => FinishBit
    case Obstacle(Teleport1) => TeleportBit
    case Obstacle(Teleport2) => TeleportBit
  }

  /** A sensor is an obstacle that only reports contacts: everything but a wall. */
  predicate IsSensor(k: Kind) {
    k != Wall
  }

  /** The body `createPlayer` and the `configure*` functions give each kind. */
  function BodyOf(k: NodeKind): (b: Body)
    ensures b.category == Category(k)
  {
    match k
    case PlayerNode =>
      Body(Circle, PlayerBit, StarBit | VortexBit | FinishBit | TeleportBit, WallBit, true)
    case Obstacle(Wall) =>
      Body(Rectangle, WallBit, DefaultContactTest, DefaultCollision, false)
    case Obstacle(k) =>
      Body(Circle, Category(Obstacle(k)), PlayerBit, 0, false)
  }

  /** SpriteKit reports a contact between two bodies when either one's
      category is in the other's contact-test mask. */
  predicate ContactTested(a: Body, b: Body) {
    a.category & b.contactTest != 0 || b.category & a.contactTest != 0
  }

  /** SpriteKit stops body `a` from passing through `b` when `b`'s category
      is in `a`'s collision mask. */
  predicate BlockedBy(a: Body, b: Body) {
    a.collision & b.category != 0
  }

  /** The six category bits are pairwise distinct, except that the two
      teleport ends deliberately share one. */
  lemma CategoriesDistinct(j: NodeKind, k: NodeKind)
    ensures Category(j) == Category(k) <==>
      j == k || (j.Obstacle? && k.Obstacle? && j.kind in {Teleport1, Teleport2} && k.kind in {Teleport1, Teleport2})
  {
  }

  /** The player tests contacts with stars, vortexes, finishes and teleports,
      and is physically blocked by walls only. */
  lemma PlayerBodyMasks()
    ensures BodyOf(PlayerNode).category == 1
    ensures BodyOf(PlayerNode).contactTest == 4 | 8 | 16 | 32
    ensures BodyOf(PlayerNode).collision == 2
    ensures BodyOf(PlayerNode).dynamic && BodyOf(PlayerNode).shape == Circle
  {
  }

  /** Every sensor is a static circle that tests contacts with the player only
      and collides with nothing. */
  lemma SensorBodyMasks(k: Kind)
    requires IsSensor(k)
    ensures BodyOf(Obstacle(k)).contactTest == PlayerBit
    ensures BodyOf(Obstacle(k)).collision == 0
    ensures !BodyOf(Obstacle(k)).dynamic && BodyOf(Obstacle(k)).shape == Circle
  {
  }

  /** A wall is a static rectangle of category 2 that tests no contacts. */
  lemma WallBodyMasks()
    ensures BodyOf(Obstacle(Wall)).category == 2
    ensures BodyOf(Obstacle(Wall)).contactTest == 0
    ensures !BodyOf(Obstacle(Wall)).dynamic && BodyOf(Obstacle(Wall)).shape == Rectangle
  {
  }

  /** The player and an obstacle report a contact exactly when the obstacle is
      a sensor: touching a wall is never a contact event. */
  lemma PlayerContactsExactlySensors(k: Kind)
    ensures ContactTested(BodyOf(PlayerNode), BodyOf(Obstacle(k))) <==> IsSensor(k)
  {
  }

  /** No two obstacles ever report a contact with each other, so every
      reported contact involves the player. */
  lemma ObstaclesNeverContact(j: Kind, k: Kind)
    ensures !ContactTested(BodyOf(Obstacle(j)), BodyOf(Obstacle(k)))
  {
  }

  /** Walls are the only obstacles that block the player, and no sensor
      pushes or is pushed by the player. */
  lemma OnlyWallsBlockThePlayer(k: Kind)
    ensures BlockedBy(BodyOf(PlayerNode), BodyOf(Obstacle(k))) <==> k == Wall
    ensures IsSensor(k) ==> !BlockedBy(BodyOf(Obstacle(k)), BodyOf(PlayerNode))
  {
  }
}
