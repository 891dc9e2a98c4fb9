# Tilt maze: a verified model of the game scene

This project models the game logic of `Project26/GameScene.swift`, a
SpriteKit maze. The player rolls a ball through a grid of walls by tilting
the device, or by touching the screen in the simulator. A vortex costs a
point and respawns the ball. A star scores a point. A pair of teleports
moves the ball from one end to the other. The finish loads the second
level.

The model is in seven modules.

- `Wrappers`: `Option` and `Result`.
- `Geometry`: points and vectors over `real`.
- `Collision`: the `CollisionTypes` category bits and the physics body each
  node kind is configured with. It also states SpriteKit's rules for when
  two bodies report a contact and when one body blocks another.
- `Level`, with the lemmas about it in `LevelFacts`: the level file format.
  - A text is split on newlines. The lines are read bottom to top as
    rows, and every letter of a row is one column.
  - Each of `x v s f t T` becomes an obstacle at the centre of its
    64-point cell. A space is open floor. Any other letter makes the whole
    load fail.
  - `Level.LoadPlacements` is the nested loop of `loadLevel`, proved equal
    to the recursive specification `Level.Parse`. `LevelFacts` proves what
    that specification means.
- `Gravity`: the per-frame gravity rule of `update`.
- `Game`: the scene as a state machine.
  - A `Node` class holds a node's mutable name, position and
    body-dynamic flag.
  - A `Scene` class holds the children, the player, the score, the
    game-over flag, the gravity, the last touch, and the teleport
    cooldowns still pending.
  - `Scene.Valid` is the invariant every operation keeps:
    - each node appears once, and there is at most one player, exactly
      one once a level is loaded;
    - obstacles are static and are named after their kind, unless a
      teleport is locked under the name "teleport";
    - the player is frozen exactly while the game is over;
    - every pending cooldown restores a teleport's own name.
  - The two deferred callbacks of the game are explicit steps the caller
    takes: `DeathAnimationDone` for the end of the vortex animation, and
    `CooldownExpired` for the one-second teleport timer.
  - A `fatalError` is an `Err` result.

Three behaviours of the code are easy to misread. The model follows the
code in each of them:

- Contact with one teleport locks the *other* end, the partner, by
  renaming it "teleport". The end that was touched stays usable.
- The one-second cooldown is never cancelled. After a level change it
  renames a node that has left the scene.
- An empty level file is not an error. It splits into one empty line and
  loads with no obstacles.

## Model

| member | source | states |
|---|---|---|
| Collision.Category | Project26/GameScene.swift:26-33 | every category is a single bit |
| Collision.CategoriesDistinct | Project26/GameScene.swift:26-33 | two node kinds share a category bit exactly when they are the same kind or both ends of a teleport pair |
| Collision.BodyOf | Project26/GameScene.swift:84-158 | each node kind's body has that kind's category bit |
| Collision.PlayerBodyMasks | Project26/GameScene.swift:147-158 | the player is a dynamic circle of category 1, with contact mask 4\|8\|16\|32 and collision mask 2 |
| Collision.SensorBodyMasks | Project26/GameScene.swift:93-145 | vortex, star, finish and teleports are static circles with contact mask = player and collision mask 0 |
| Collision.WallBodyMasks | Project26/GameScene.swift:84-91 | a wall is a static rectangle of category 2 with no contact mask |
| Collision.PlayerContactsExactlySensors | Project26/GameScene.swift:84-158 | the player and an obstacle report a contact iff the obstacle is not a wall |
| Collision.ObstaclesNeverContact | Project26/GameScene.swift:84-145 | no two obstacles ever report a contact, so every reported contact involves the player |
| Collision.OnlyWallsBlockThePlayer | Project26/GameScene.swift:84-158 | the player is blocked by an obstacle iff it is a wall, and no sensor is blocked by the player |
| Level.KnownLetters | Project26/GameScene.swift:63-79 | exactly seven letters are known: a space is open floor, and `x v s f t T` are tiles; any other letter is unknown |
| Level.LetterOfTile | Project26/GameScene.swift:63-74 | a tile letter is the letter of the kind it stands for, the inverse of `Level.Symbol` |
| Level.CellCenterInCell | Project26/GameScene.swift:61 | the position `(64*column+32, 64*row+32)` lies strictly inside its own 64-point cell, so no two cells share a position |
| Level.PlaceCells | Project26/GameScene.swift:60-79 | one line's walk fails only with an unknown letter of that line |
| Level.PlaceRows | Project26/GameScene.swift:59-80 | the walk over rows fails only with an unknown letter |
| Level.Parse | Project26/GameScene.swift:57-80 | a level text fails only with an unknown letter |
| Level.Load | Project26/GameScene.swift:49-80 | the load fails with `LevelNotFound` for that name exactly when the bundle has no such level, and any other failure names an unknown letter |
| Level.Symbol | Project26/GameScene.swift:63-74 | every obstacle kind has a letter that the letter table maps back to that kind |
| Level.Split | Project26/GameScene.swift:57 | splitting on newlines gives at least one line, and no line contains a newline |
| Level.Reversed | Project26/GameScene.swift:59 | row `i` is line `n-1-i`, so the last line is row 0 |
| Level.ConcatAssociative | Project26/GameScene.swift:59-80 | joining row results is associative |
| Level.LoadPlacements | Project26/GameScene.swift:57-81 | the nested row and column loop returns exactly `Parse(text)`: the placements in walk order, or the first unknown letter |
| LevelFacts.JoinSplit | Project26/GameScene.swift:57 | splitting loses nothing: joining the lines with newlines gives the text back |
| LevelFacts.SplitJoin | Project26/GameScene.swift:57 | lines without newlines, joined and split again, come back unchanged |
| LevelFacts.SplitLetters | Project26/GameScene.swift:57-60 | the letters of the lines are exactly the non-newline letters of the text |
| LevelFacts.SplitTileCount | Project26/GameScene.swift:57-60 | the tile letters of the lines are those of the text |
| LevelFacts.SumTilesReversed | Project26/GameScene.swift:59 | walking the lines in reverse visits the same tile letters |
| LevelFacts.PlaceCellsOkIff | Project26/GameScene.swift:60-79 | a line places without error iff all its letters are known, and an error names an unknown letter of that line |
| LevelFacts.PlaceRowsOkIff | Project26/GameScene.swift:59-79 | rows place without error iff all their letters are known, and an error names an unknown letter of some row |
| LevelFacts.ParseAllOrNothing | Project26/GameScene.swift:63-79 | a level loads iff every letter is a newline, a space or one of `x v s f t T`; otherwise it fails with an unknown letter that occurs in the text, and no placement survives |
| LevelFacts.PlaceCellsExact | Project26/GameScene.swift:60-74 | a line yields one placement per tile letter, each at its own column, and nothing else |
| LevelFacts.PlaceRowsExact | Project26/GameScene.swift:59-74 | rows yield one placement per tile letter, each in its own cell, and nothing else |
| LevelFacts.ParsePlacesEveryTile | Project26/GameScene.swift:57-61 | a tile letter at line `i` of `n`, column `c`, yields its kind at `(64c+32, 64(n-1-i)+32)` |
| LevelFacts.ParsePlacesOnlyTiles | Project26/GameScene.swift:57-74 | every placement comes from a tile letter of its kind, at that letter's cell |
| LevelFacts.ParseCount | Project26/GameScene.swift:63-76 | a level has exactly as many obstacles as tile letters: a space yields nothing, each tile letter exactly one |
| LevelFacts.SplitTrailingNewline | Project26/GameScene.swift:57 | a trailing newline adds one empty last line |
| LevelFacts.PlaceCellsRaised | Project26/GameScene.swift:61 | placing a line one row higher moves each placement up 64 points |
| LevelFacts.PlaceRowsRaised | Project26/GameScene.swift:59-61 | placing rows starting one row higher moves every placement up 64 points |
| LevelFacts.TrailingNewlineAddsEmptyRow | Project26/GameScene.swift:57-61 | a trailing newline adds an empty row 0 and raises every obstacle by one cell |
| Gravity.PointerGravity | Project26/GameScene.swift:182-185 | the player's position plus 100 times the gravity is the touch point |
| Gravity.TiltGravity | Project26/GameScene.swift:187-189 | the tilt gravity is the sample's (x, y) turned a quarter turn anticlockwise and scaled by 50 |
| Gravity.NextGravity | Project26/GameScene.swift:178-191 | when the game is over, or there is no touch or no sample, the gravity is unchanged |
| Gravity.PointerGravityPointsAtTouch | Project26/GameScene.swift:182-185 | on each axis the gravity points from the player toward the touch, and it is zero iff the player is under the touch |
| Gravity.TiltGravityLength | Project26/GameScene.swift:187-189 | the tilt gravity's squared length is 2500 times the sample's |
| Game.NameOf | Project26/GameScene.swift:95-136 | only a wall has no name, and no kind is named "teleport", the lock name |
| Game.NamesIdentifyKinds | Project26/GameScene.swift:95-136 | two obstacle kinds have the same name exactly when they are the same kind, so a name lookup finds nodes of one kind |
| Game.Node.constructor | Project26/GameScene.swift:84-152 | a new node has its kind, name and position, and a body that is dynamic exactly when the kind's body is |
| Game.Scene.Reportable | Project26/GameScene.swift:193-202 | a contact SpriteKit reports is between the player and a sensor obstacle, in either order |
| Game.Without | Project26/GameScene.swift:213-228 | removing a node drops exactly that node and keeps the nodes distinct; a node not in the scene changes nothing |
| Game.WithoutKeepsOrder | Project26/GameScene.swift:213-228 | removing the node at index `k` leaves the children before and after it, in their order |
| Game.FirstNamed | Project26/GameScene.swift:230-246 | `childNode(withName:)` finds the first child with that name, or reports that there is none |
| Game.Scene.constructor | Project26/GameScene.swift:11-24 | a new scene is empty, with score 0 and the game not over |
| Game.Scene.FrozenSceneReportsNothing | Project26/GameScene.swift:205-207 | while the game is over no contact is reported, because every body in the scene is static |
| Game.Scene.AddObstacles | Project26/GameScene.swift:84-145 | each placement becomes a new obstacle, appended in order, with its kind's name, position and static body |
| Game.Scene.LoadLevel | Project26/GameScene.swift:49-82 | a missing level or an unknown letter fails and adds nothing; otherwise exactly the parsed obstacles are appended |
| Game.Scene.CreatePlayer | Project26/GameScene.swift:147-160 | into a scene whose previous player is gone, a new unnamed, dynamic player at (96, 672) is appended, and the scene invariant holds |
| Game.Scene.DidMove | Project26/GameScene.swift:35-47 | the scene becomes level 1's obstacles plus one new player, with gravity switched off |
| Game.Scene.NextLevel | Project26/GameScene.swift:269-275 | every child is removed, and the scene holds exactly level 2's obstacles plus one new player; the score is kept |
| Game.Scene.TouchMoved | Project26/GameScene.swift:162-172 | the first touch, if any, becomes the last touch position |
| Game.Scene.TouchesEnded | Project26/GameScene.swift:174-176 | the last touch position is cleared |
| Game.Scene.Update | Project26/GameScene.swift:178-191 | the new gravity is `NextGravity` for this build's input |
| Game.Scene.PlayerCollided | Project26/GameScene.swift:204-267 | each name has its effect, and any other name changes nothing (see the branches below) |
| Game.Scene.Teleport | Project26/GameScene.swift:230-258 | the partner is renamed "teleport", the player moves onto it and its name's return is queued; the score is kept; with no partner nothing changes |
| Game.Scene.DidBegin | Project26/GameScene.swift:193-202 | a contact involving the player runs that contact's effect, and any other contact changes nothing |
| Game.Scene.DeathAnimationDone | Project26/GameScene.swift:217-220 | the dead player is gone, and exactly one new live player is at (96, 672) with the game resumed |
| Game.Scene.CooldownExpired | Project26/GameScene.swift:241-258 | the oldest pending cooldown gives its teleport back its name |
| Game.DieAndRespawn | Project26/GameScene.swift:205-220 | after a vortex and its animation, the score is one lower and there is exactly one player, a new one at the spawn point |
| Game.TeleportLocksPartner | Project26/GameScene.swift:230-244 | after using teleport1, the player stands on teleport2, which is locked; touching it again then changes nothing: the children, score, game-over flag, gravity and last touch are as before, and the only new cooldown is teleport2's |

The effect of a contact is the two-state predicate `Game.Scene.CollisionEffect`.
It selects one of five cases by the name the node had.

- `Died`, for a vortex (`Project26/GameScene.swift:205-208`): the score
  drops by exactly 1, `isGameOver` is set, and the player stops being
  dynamic. Nothing else changes.
- `Scored`, for a star (`:221-229`): the score rises by exactly 1, and the
  star leaves the scene, so it cannot score twice.
- `Teleported`, for either teleport (`:230-258`).
- `Advanced`, for the finish (`:259-275`): the scene becomes the parse of
  `level2` plus one fresh player. On a failed load it becomes empty. The
  score and the game-over flag are kept.
- `Unchanged` for any other name. That includes a partner locked under
  the name "teleport".

## Left out

- Rigid-body stepping, wall collision response, linear damping and
  `allowsRotation` are not modelled. SpriteKit's engine is not part of
  this model. Only the masks that decide contacts and blocking are
  modelled.
- Contacts arrive one at a time. `Game.Scene.DidBegin` requires that the
  two bodies are ones SpriteKit would report in the scene as it is at
  that call: both in the scene, at least one dynamic, and their masks
  asking for a report. SpriteKit finds all of a step's contacts before it
  calls `didBegin` for each. So a contact is outside the model if it is
  delivered after an earlier contact of the same step has changed the
  scene. Examples, and what the code then does:
  - a vortex and a star in one step: the score nets to 0 (`:208`,
    `:229`), and the star is removed;
  - two vortexes in one step: the score drops by 2, and both completion
    blocks run `createPlayer` (`:217-219`), which leaves two players;
  - a vortex and the finish in one step: `removeAllChildren` (`:270`)
    detaches the dying player, so its completion block never runs.
    `isGameOver` then stays true, and `update` stops steering for good
    (`:179`).

  The `Scene.Valid` clauses "exactly one player" and "the player is
  frozen exactly while the game is over" hold only because such
  deliveries are excluded.
- The `SKAction` animations and their durations are not modelled. The
  cosmetic rotation of vortexes and teleports is not modelled either.
  Only their end effects remain:
  - the player's move onto the teleport partner happens at once;
  - the star is removed at once, so the quarter second in which a fading
    star could be touched again is not modelled;
  - the player's move onto the vortex or the finish is not modelled,
    because the player is then removed or replaced.
- The vortex's completion block and the two `asyncAfter` blocks are not
  timed callbacks here. They are the explicit steps
  `Game.Scene.DeathAnimationDone` and `Game.Scene.CooldownExpired`.
  Cooldowns run oldest first, since they all have the same delay on the
  main queue.
- A cooldown is not cancelled when the level changes. It renames a node
  that may already be out of the scene, as the code does.
- The app bundle is a map from level name to file contents. A missing
  level is `LevelNotFound`. A file that exists but cannot be read is not
  a separate case.
- Level letters are treated as single characters. Swift's grapheme
  clustering is not modelled, for example `"\r\n"` as one `Character`. A
  `'\r'` is an unknown letter.
- `CMMotionManager` sampling and `UITouch` are inputs.
  - `Game.Scene.Update` takes the build (simulator or device) and the
    latest accelerometer sample, if any.
  - `Game.Scene.TouchMoved` takes the first touch's location, if any.
- `configureBackground`, `configureScoreLabel` and the score label's
  `didSet` are presentation only. They are not children of the model's
  scene. `configureScoreLabel` shows "Score: 0" after `nextLevel`
  (`:287`) while `score` itself is kept: that is a display matter.
- Gravity is computed over `real`. `CGFloat` rounding is not modelled.
- Gravity.TiltGravity: for a zero sample the contract gives the zero
  vector. For any other sample its two equations determine the vector,
  but no lemma proves that uniqueness, because the proof needs nonlinear
  real arithmetic.
- Game.Scene.NextLevel: on a failed load the process would end. The model
  leaves an empty scene with no player, because `removeAllChildren` has
  already run.
