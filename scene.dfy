/** The game scene as a state machine: its children (obstacles and the
    player, with names that contacts rename in place), the score, the
    game-over flag, the gravity and the pending teleport cooldowns. The two
    deferred callbacks of the game (the end of the death animation and the
    one-second teleport cooldown) are explicit methods. */
module Game {
  import opened Wrappers
  import opened Geometry
  import opened Collision
  import opened Level
  import opened Gravity

  /** Where `createPlayer` puts every new player. */
  const Spawn := Point(96.0, 672.0)

  /** The name the `configure*` functions give each obstacle kind; a wall
      has none. */
  function NameOf(k: Kind): (name: Option<string>)
    ensures name.None? <==> k == Wall
    ensures name != Some("teleport")
  {
    match k
    case Wall => None
    case Vortex => Some("vortex")
    case Star => Some("star")
    case Finish => Some("finish")
    case Teleport1 => Some("teleport1")
    case Teleport2 => Some("teleport2")
  }

  /** Names identify obstacle kinds: no two kinds share a name. */
  lemma NamesIdentifyKinds(j: Kind, k: Kind)
    ensures NameOf(j) == NameOf(k) <==> j == k
  {
  }

  /** A sprite node of the scene with its physics body. Only the name, the
      position and whether the body is dynamic ever change. */
  class Node {
    const kind: NodeKind
    var name: Option<string>
    var position: Point
    var dynamic: bool

    constructor (kind: NodeKind, name: Option<string>, position: Point)
      ensures this.kind == kind && this.name == name && this.position == position
      ensures dynamic == BodyOf(kind).dynamic
    {
      this.kind := kind;
      this.name := name;
      this.position := position;
      this.dynamic := BodyOf(kind).dynamic;
    }
  }

  /** A scheduled `asyncAfter` block: after one second, give `node` back the
      name `restore`. */
  datatype Cooldown = Cooldown(node: Node, restore: string)

  ghost predicate Distinct(s: seq<Node>) {
    forall i, j :: 0 <= i < j < |s| ==> s[i] != s[j]
  }

  lemma DistinctAppend(s: seq<Node>, x: Node)
    requires Distinct(s) && x !in s
    ensures Distinct(s + [x])
  {
  }

  lemma DistinctConcat(s: seq<Node>, t: seq<Node>)
    requires Distinct(s) && Distinct(t) && forall x :: x in t ==> x !in s
    ensures Distinct(s + t)
  {
    forall i, j | 0 <= i < j < |s + t|
      ensures (s + t)[i] != (s + t)[j]
    {
      if i < |s| <= j {
        assert (s + t)[j] == t[j - |s|] && t[j - |s|] in t && (s + t)[i] == s[i];
      } else if |s| <= i {
        assert (s + t)[i] == t[i - |s|] && (s + t)[j] == t[j - |s|];
      } else {
        assert (s + t)[i] == s[i] && (s + t)[j] == s[j];
      }
    }
  }

  /** `nodes` are the obstacles `ps` built by the `configure*` functions,
      in order. */
  ghost predicate Spawned(nodes: seq<Node>, ps: seq<Placement>)
    reads set n | n in nodes
  {
    |nodes| == |ps| &&
    forall i :: 0 <= i < |nodes| ==>
      nodes[i].kind == Obstacle(ps[i].kind) && nodes[i].name == NameOf(ps[i].kind) &&
      nodes[i].position == ps[i].position && !nodes[i].dynamic
  }

  /** An obstacle carries the name its kind was configured with, or, for a
      teleport whose partner was just used, the lock name "teleport". */
  ghost predicate Named(n: Node)
    reads n
  {
    n.kind.Obstacle? &&
    (n.name == NameOf(n.kind.kind) ||
     (n.name == Some("teleport") && (n.kind.kind == Teleport1 || n.kind.kind == Teleport2)))
  }

  /** A player as `createPlayer` makes it. */
  ghost predicate NewPlayer(p: Node)
    reads p
  {
    p.kind == PlayerNode && p.name == None && p.position == Spawn && p.dynamic
  }

  /** `s` with the node `n` taken out (`removeFromParent`). */
  function Without(s: seq<Node>, n: Node): (r: seq<Node>)
    ensures forall m :: m in r ==> m in s && m != n
    ensures forall m :: m in s && m != n ==> m in r
    ensures n !in s ==> r == s
    ensures Distinct(s) ==> Distinct(r)
    decreases |s|
  {
    if s == [] then []
    else if s[0] == n then Without(s[1..], n)
    else
      var rest := Without(s[1..], n);
      assert Distinct(s) ==> s[0] !in rest;
      assert [s[0]] + s[1..] == s;
      [s[0]] + rest
  }

  /** Taking a node out of the children keeps the other children in their
      order. */
  lemma {:induction false} WithoutKeepsOrder(s: seq<Node>, n: Node, k: nat)
    requires Distinct(s) && k < |s| && s[k] == n
    ensures Without(s, n) == s[..k] + s[k + 1..]
    decreases k
  {
    if k == 0 {
      assert n !in s[1..];
    } else {
      WithoutKeepsOrder(s[1..], n, k - 1);
      assert s[..k] + s[k + 1..] == [s[0]] + (s[1..][..k - 1] + s[1..][k..]);
    }
  }

  /** `childNode(withName:)`: the index of the first child with that name. */
  function FirstNamed(nodes: seq<Node>, name: string): (r: Option<nat>)
    reads set n | n in nodes
    ensures r.Some? ==> r.value < |nodes| && nodes[r.value].name == Some(name)
    ensures r.Some? ==> forall j :: 0 <= j < r.value ==> nodes[j].name != Some(name)
    ensures r.None? ==> forall j :: 0 <= j < |nodes| ==> nodes[j].name != Some(name)
  {
    if nodes == [] then None
    else if nodes[0].name == Some(name) then Some(0)
    else
      match FirstNamed(nodes[1..], name)
      case None => None
      case Some(i) => Some(i + 1)
  }

  /** Which branch of `update` the build compiles in. */
  datatype Build = Simulator | Device

  class Scene {
    /** The app bundle's level files, by name. */
    const bundle: map<string, string>
    var children: seq<Node>
    var player: Node?
    var score: int
    var isGameOver: bool
    var gravity: Vector
    var lastTouchPosition: Option<Point>
    /** The teleport cooldowns scheduled and not yet run, oldest first. */
    var cooldowns: seq<Cooldown>

    /** The scene holds each node once and exactly one player (none before
        the first level is loaded or after a fatal load), obstacles never
        move on their own and are named after their kind unless locked,
        the player is frozen exactly while the game is over, and every
        pending cooldown gives a teleport back its own name. */
    ghost predicate Valid()
      reads this, children
    {
      Distinct(children) &&
      (forall n :: n in children && n.kind == PlayerNode ==> n == player) &&
      (forall n :: n in children && n.kind.Obstacle? ==> !n.dynamic && Named(n)) &&
      (player != null ==> player in children && player.kind == PlayerNode && player.name == None && player.dynamic == !isGameOver) &&
      (isGameOver ==> player != null) &&
      (forall c :: c in cooldowns ==> c.node.kind.Obstacle? && NameOf(c.node.kind.kind) == Some(c.restore))
    }

    /** SpriteKit calls `didBegin` only for two bodies of the scene, at
        least one of them dynamic, whose masks ask for a contact report. */
    predicate Reportable(a: Node, b: Node)
      reads this, a, b
      ensures Reportable(a, b) ==>
        (a.kind == PlayerNode && b.kind.Obstacle? && IsSensor(b.kind.kind)) ||
        (b.kind == PlayerNode && a.kind.Obstacle? && IsSensor(a.kind.kind))
    {
      a in children && b in children && a != b && (a.dynamic || b.dynamic) &&
      ContactTested(BodyOf(a.kind), BodyOf(b.kind))
    }

    /** While the game is over no contact is reported at all: the frozen
        player and the obstacles are all static bodies. */
    lemma FrozenSceneReportsNothing(a: Node, b: Node)
      requires Valid() && isGameOver
      ensures !Reportable(a, b)
    {
    }

    /** Nothing observable changed. */
    twostate predicate Unchanged()
      reads this, children
    {
      children == old(children) && player == old(player) && score == old(score) &&
      isGameOver == old(isGameOver) && cooldowns == old(cooldowns) &&
      gravity == old(gravity) && lastTouchPosition == old(lastTouchPosition) &&
      Kept({})
    }

    /** Every child other than those in `except` kept its name, position
        and body state. */
    twostate predicate Kept(except: set<Node>)
      reads this, children
    {
      forall n :: n in children && n in old(children) && n !in except ==>
        n.name == old(n.name) && n.position == old(n.position) && n.dynamic == old(n.dynamic)
    }

    /** What a contact between the player and `node` does, by the name
        `node` had: a vortex costs a point and freezes the player, a star
        scores a point and disappears, a teleport moves the player to its
        partner and locks the partner, a finish loads the next level, and
        any other name does nothing. */
    twostate predicate CollisionEffect(node: Node)
      reads this, children, node, player
    {
      var name := old(node.name);
      if name == Some("vortex") then Died()
      else if name == Some("star") then Scored(node)
      else if name == Some("teleport1") then Teleported("teleport2")
      else if name == Some("teleport2") then Teleported("teleport1")
      else if name == Some("finish") then Advanced()
      else Unchanged()
    }

    twostate predicate Died()
      reads this, children, player
    {
      children == old(children) && player == old(player) && player != null &&
      !player.dynamic && isGameOver && score == old(score) - 1 &&
      cooldowns == old(cooldowns) && gravity == old(gravity) && lastTouchPosition == old(lastTouchPosition) &&
      player.name == old(player.name) && player.position == old(player.position) &&
      Kept({player})
    }

    twostate predicate Scored(star: Node)
      reads this, children
    {
      children == Without(old(children), star) && star !in children && score == old(score) + 1 &&
      player == old(player) && isGameOver == old(isGameOver) && cooldowns == old(cooldowns) &&
      gravity == old(gravity) && lastTouchPosition == old(lastTouchPosition) &&
      Kept({})
    }

    twostate predicate Teleported(partnerName: string)
      reads this, children, player
    {
      match old(FirstNamed(children, partnerName))
      case None => Unchanged()
      case Some(i) =>
        var partner := old(children[i]);
        children == old(children) && player == old(player) && player != null &&
        partner.name == Some("teleport") && partner.position == old(partner.position) &&
        player.position == old(partner.position) && player.name == old(player.name) && player.dynamic == old(player.dynamic) &&
        cooldowns == old(cooldowns) + [Cooldown(partner, partnerName)] &&
        score == old(score) && isGameOver == old(isGameOver) &&
        gravity == old(gravity) && lastTouchPosition == old(lastTouchPosition) &&
        Kept({player, partner})
    }

    twostate predicate Advanced()
      reads this, children
    {
      score == old(score) && isGameOver == old(isGameOver) && cooldowns == old(cooldowns) &&
      gravity == old(gravity) && lastTouchPosition == old(lastTouchPosition) &&
      match Load(bundle, "level2")
      case Err(_) => children == [] && player == null
      case Ok(ps) =>
        |children| == |ps| + 1 && Spawned(children[..|ps|], ps) &&
        player == children[|ps|] && NewPlayer(player) &&
        forall n :: n in children ==> fresh(n)
    }

    /** A scene before it is shown: no children, SpriteKit's default
        gravity. */
    constructor (bundle: map<string, string>)
      ensures Valid() && this.bundle == bundle
      ensures children == [] && player == null && score == 0 && !isGameOver
      ensures gravity == Vector(0.0, -9.8) && lastTouchPosition == None && cooldowns == []
    {
      this.bundle := bundle;
      children := [];
      player := null;
      score := 0;
      isGameOver := false;
      gravity := Vector(0.0, -9.8);
      lastTouchPosition := None;
      cooldowns := [];
    }

    /** The `addChild` calls of `loadLevel`: one new obstacle per placement,
        appended in order. */
    method AddObstacles(ps: seq<Placement>)
      requires Valid()
      modifies this`children
      ensures Valid()
      ensures |children| == |old(children)| + |ps| && children[..|old(children)|] == old(children)
      ensures Spawned(children[|old(children)|..], ps)
      ensures forall j :: |old(children)| <= j < |children| ==> fresh(children[j])
    {
      var added: seq<Node> := [];
      var i := 0;
      while i < |ps|
        modifies {}
        invariant 0 <= i <= |ps| && |added| == i
        invariant Distinct(added) && Spawned(added, ps[..i])
        invariant forall j :: 0 <= j < i ==> fresh(added[j])
      {
        var node := new Node(Obstacle(ps[i].kind), NameOf(ps[i].kind), ps[i].position);
        DistinctAppend(added, node);
        added := added + [node];
        assert ps[..i + 1] == ps[..i] + [ps[i]];
        i := i + 1;
      }
      assert ps[..i] == ps;
      DistinctConcat(children, added);
      children := children + added;
      assert children[|old(children)|..] == added;
    }

    /** `loadLevel(levelFile:)`: the level's obstacles are added to the
        scene, or, if the level is missing or holds an unknown letter,
        the load fails and no obstacle is added. */
    method LoadLevel(name: string) returns (outcome: Result<seq<Placement>, LoadError>)
      requires Valid()
      modifies this`children
      ensures Valid()
      ensures outcome == Load(bundle, name)
      ensures outcome.Err? ==> children == old(children)
      ensures outcome.Ok? ==>
        |children| == |old(children)| + |outcome.value| && children[..|old(children)|] == old(children) &&
        Spawned(children[|old(children)|..], outcome.value) &&
        forall j :: |old(children)| <= j < |children| ==> fresh(children[j])
    {
      if name !in bundle {
        return Err(LevelNotFound(name));
      }
      outcome := LoadPlacements(bundle[name]);
      if outcome.Ok? {
        AddObstacles(outcome.value);
      }
    }

    /** `createPlayer`: a new player at the spawn point, appended to the
        children. */
    method CreatePlayer()
      requires Valid() && player == null && !isGameOver
      modifies this`children, this`player
      ensures Valid()
      ensures player != null && fresh(player) && NewPlayer(player)
      ensures children == old(children) + [player]
    {
      var created := new Node(PlayerNode, None, Spawn);
      DistinctAppend(children, created);
      player := created;
      children := children + [created];
    }

    /** `didMove(to:)`: load level 1, add the player, switch gravity off. */
    method DidMove() returns (outcome: Result<seq<Placement>, LoadError>)
      requires Valid() && children == [] && player == null
      modifies this`children, this`player, this`gravity
      ensures Valid()
      ensures outcome == Load(bundle, "level1")
      ensures outcome.Err? ==> children == [] && player == null && gravity == old(gravity)
      ensures outcome.Ok? ==>
        |children| == |outcome.value| + 1 && Spawned(children[..|outcome.value|], outcome.value) &&
        player == children[|outcome.value|] && NewPlayer(player) && gravity == Zero &&
        forall n :: n in children ==> fresh(n)
    {
      outcome := LoadLevel("level1");
      if outcome.Err? {
        return;
      }
      ghost var obstacles := children;
      assert obstacles == children[0..];
      assert Spawned(obstacles, outcome.value);
      CreatePlayer();
      assert children[..|outcome.value|] == obstacles;
      gravity := Zero;
    }

    /** `nextLevel`: every child is removed, level 2 is loaded and a new
        player is added; the score is kept. */
    method NextLevel() returns (outcome: Result<seq<Placement>, LoadError>)
      requires Valid() && !isGameOver
      modifies this`children, this`player
      ensures Valid()
      ensures outcome == Load(bundle, "level2")
      ensures outcome.Err? ==> children == [] && player == null
      ensures outcome.Ok? ==>
        |children| == |outcome.value| + 1 && Spawned(children[..|outcome.value|], outcome.value) &&
        player == children[|outcome.value|] && NewPlayer(player) &&
        forall n :: n in children ==> fresh(n)
    {
      children := [];
      player := null;
      outcome := LoadLevel("level2");
      if outcome.Err? {
        return;
      }
      CreatePlayer();
    }

    /** `touchesBegan` and `touchesMoved`: remember the first touch, if any. */
    method TouchMoved(first: Option<Point>)
      requires Valid()
      modifies this`lastTouchPosition
      ensures Valid()
      ensures lastTouchPosition == if first.Some? then first else old(lastTouchPosition)
    {
      if first.Some? {
        lastTouchPosition := first;
      }
    }

    /** `touchesEnded`: forget the touch. */
    method TouchesEnded()
      requires Valid()
      modifies this`lastTouchPosition
      ensures Valid()
      ensures lastTouchPosition == None
    {
      lastTouchPosition := None;
    }

    /** The gravity rule of `update`, for the given build and accelerometer
        sample. */
    method Update(build: Build, sample: Option<Acceleration>)
      requires Valid() && player != null
      modifies this`gravity
      ensures gravity == NextGravity(isGameOver,
        if build == Simulator then Pointer(lastTouchPosition) else Tilt(sample),
        player.position, old(gravity))
    {
      if isGameOver {
        return;
      }
      match build {
        case Simulator =>
          if lastTouchPosition.Some? {
            gravity := PointerGravity(lastTouchPosition.value, player.position);
          }
        case Device =>
          if sample.Some? {
            gravity := TiltGravity(sample.value);
          }
      }
    }

    /** `playerCollided(with:)`. */
    method PlayerCollided(node: Node)
      requires Valid() && player != null && Reportable(player, node)
      modifies this, children
      ensures Valid()
      ensures CollisionEffect(node)
    {
      if node.name == Some("vortex") {
        player.dynamic := false;
        isGameOver := true;
        score := score - 1;
      } else if node.name == Some("star") {
        children := Without(children, node);
        score := score + 1;
      } else if node.name == Some("teleport1") {
        Teleport("teleport2");
      } else if node.name == Some("teleport2") {
        Teleport("teleport1");
      } else if node.name == Some("finish") {
        var _ := NextLevel();
      }
    }

    /** The teleport branches: find the partner by name, lock it by
        renaming it "teleport", move the player onto it and schedule the
        name's return. */
    method Teleport(partnerName: string)
      requires Valid() && player != null
      requires partnerName == "teleport1" || partnerName == "teleport2"
      modifies this`cooldowns, children
      ensures Valid()
      ensures Teleported(partnerName)
    {
      var found := FirstNamed(children, partnerName);
      if found.None? {
        return;
      }
      var partner := children[found.value];
      assert Named(partner) && partner.kind.Obstacle?;
      assert NameOf(partner.kind.kind) == Some(partnerName);
      partner.name := Some("teleport");
      player.position := partner.position;
      cooldowns := cooldowns + [Cooldown(partner, partnerName)];
    }

    /** `didBegin`: a contact in which one body is the player is handed to
        `playerCollided` with the other body; any other contact, or one
        with a body that has no node, does nothing. */
    method DidBegin(a: Node?, b: Node?)
      requires Valid()
      requires a != null && b != null ==> Reportable(a, b)
      modifies this, children
      ensures Valid()
      ensures a == null || b == null || (a != old(player) && b != old(player)) ==> Unchanged()
      ensures a != null && b != null && a == old(player) ==> CollisionEffect(b)
      ensures a != null && b != null && a != old(player) && b == old(player) ==> CollisionEffect(a)
    {
      if a == null || b == null {
        return;
      }
      if a == player {
        PlayerCollided(b);
      } else if b == player {
        PlayerCollided(a);
      }
    }

    /** The completion block of the death animation: the old player has
        been removed, a new one is created and the game resumes. */
    method DeathAnimationDone()
      requires Valid() && isGameOver
      modifies this`children, this`player, this`isGameOver
      ensures Valid() && !isGameOver
      ensures player != null && fresh(player) && NewPlayer(player)
      ensures children == Without(old(children), old(player)) + [player]
    {
      children := Without(children, player);
      player := null;
      isGameOver := false;
      CreatePlayer();
    }

    /** The oldest pending teleport cooldown runs: its node gets its name
        back, whether or not it is still in the scene. */
    method CooldownExpired()
      requires Valid() && cooldowns != []
      modifies this`cooldowns, cooldowns[0].node`name
      ensures Valid()
      ensures cooldowns == old(cooldowns[1..])
      ensures old(cooldowns[0].node).name == Some(old(cooldowns[0].restore))
    {
      var due := cooldowns[0];
      due.node.name := Some(due.restore);
      cooldowns := cooldowns[1..];
    }
  }

  /** Falling into a vortex and waiting for the death animation: one
      point is lost, and the scene again holds exactly one live player, a
      new one at the spawn point, while the vortex stays. */
  method DieAndRespawn(scene: Scene, vortex: Node)
    requires scene.Valid() && scene.player != null && scene.Reportable(scene.player, vortex)
    requires vortex.name == Some("vortex")
    modifies scene, scene.children
    ensures scene.Valid() && !scene.isGameOver && scene.score == old(scene.score) - 1
    ensures scene.player != null && fresh(scene.player) && NewPlayer(scene.player)
    ensures forall n :: n in scene.children && n.kind == PlayerNode ==> n == scene.player
    ensures vortex in scene.children
  {
    scene.DidBegin(scene.player, vortex);
    scene.DeathAnimationDone();
  }

  /** Using teleport1 locks teleport2 under the name "teleport": the player
      lands on it, and touching it before its cooldown has run changes
      nothing. */
  method TeleportLocksPartner(scene: Scene, gate: Node) returns (partner: Node)
    requires scene.Valid() && scene.player != null && scene.Reportable(scene.player, gate)
    requires gate.name == Some("teleport1")
    requires FirstNamed(scene.children, "teleport2").Some?
    modifies scene, scene.children
    ensures scene.Valid()
    ensures partner == old(scene.children[FirstNamed(scene.children, "teleport2").value])
    ensures partner in scene.children && partner.name == Some("teleport")
    ensures scene.player == old(scene.player) && scene.player.position == old(partner.position)
    ensures scene.score == old(scene.score) && scene.cooldowns == old(scene.cooldowns) + [Cooldown(partner, "teleport2")]
    ensures scene.children == old(scene.children) && scene.isGameOver == old(scene.isGameOver)
    ensures scene.gravity == old(scene.gravity) && scene.lastTouchPosition == old(scene.lastTouchPosition)
  {
    partner := scene.children[FirstNamed(scene.children, "teleport2").value];
    assert Named(partner);
    scene.DidBegin(scene.player, gate);
    PlayerContactsExactlySensors(partner.kind.kind);
    scene.DidBegin(scene.player, partner);
  }
}
